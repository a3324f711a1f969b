# Verification model of rb_monitor

A Dafny 4.11 model of the monitor's four hard parts, with proofs about them:

* **Polls of a sensor.** `Numbers` has the values of a double; `Numerals`,
  `VectorParser` and `Values` read a vector out of a text, fold it and print it,
  and `NumeralLaws` says what the numbers are that are read; `Monitors` and
  `Operations` resolve and evaluate operations; `Polling` says as a function
  what a poll does to the last known values and what it sends. `Deduplication`
  compares that with a monitor that sends everything, `Suppression` and
  `Readings` tell what a poll sends and leaves behind from what was read,
  `Groups` compares runs that differ outside of one group, and `StoredSplits`
  follows the split results that are stored.
* **The same polls in memory.** `ValueHeap` and `PollEngine` are the poll loop
  as it runs: values allocated one by one, vectors that exchange their elements
  in place, losers freed by hand. Memory is a map from addresses to blocks, so
  that a read of freed memory or a second free would be a lookup that fails.
  Every method is proved against the functions of `Polling`. `RbSensor` adds the
  reference count and the lock of a sensor.
* **Workers.** `SensorWorkers` lets the main thread and any number of workers
  take their atomic actions in any order. `SensorQueue` is about the order in
  which sensors are queued, and `SensorShutdown` about the way to the end.
* **ZooKeeper.** `ZkNames` has the searches in child lists and the paths;
  `ZkLock` the lock made of ephemeral sequential nodes; `ZkQueue` the queue that
  it protects. The class of each holds the callbacks; the step system runs
  callbacks, replies, watch events, failures and expiring sessions of all
  clients in any order, and replies may be old by the time they are handled.
  `ZkSearch` is about the way of a consumer to its element, `ZkAbandonment`
  about nodes that are left behind, `ZkRelease` about the references of queue
  elements, and `ZkStall` about consumers of the queue that keep the lock.
  `ZkQueueRuns` has runs in which these things happen.

The step systems share one form: `Do` takes one step or says that it is not
possible, `Execute` takes a whole sequence of steps from the start, and the main
results hold for every sequence that can be executed.

How the code is read:

* Assertions are compiled out. `src/rb_sensor_monitor.c:689` asserts something
  about a field `name` that `struct monitor_value` does not have, so the program
  only compiles with `NDEBUG`. The type assertions of the vector path are proved
  to hold all the same (`Polling.RunKeepsKinds`, and the preconditions of
  `PollEngine.Engine.ProcessMonitorValueV`).
* A `double` is a real number, an infinity or NaN, and is not rounded
  (`Numbers.Number`). What is read overflows where a double does. `rd_dne` is
  exact inequality.
* The formula evaluator is any function of the formula, the names and the
  values.
* What commands and SNMP answer, and the clock, are inputs of a poll. In
  `SensorWorkers` the inputs of a poll are fixed when the lock is taken.
* What is handed to Kafka or HTTP is a sequence of messages, each with its
  monitor, the index of its element if it has one, and its timestamp and value.

Where the code does not keep what one would expect, the model follows the code,
and the exact condition is proved:

* The number scan is not told where an element ends, and goes on into the
  separator. Elements are read back as they were written if and only if none of
  them overflows, and that adds nothing to their numbers: no digits but zeros,
  and no exponent that is not made up for by those
  (`VectorParser.RoundTripIff`). That is so for every separator that starts with
  no digit, point, `e`, `E`, `x` or `X`
  (`VectorParser.UsualSeparatorRoundTrip`), for ".;" between 1 and 2
  (`VectorParser.PointAloneIsHarmless`), and not for "." between them
  (`VectorParser.PointSeparatorMisreads`).
* A blank element without timestamps is not missing, unless all that is left of
  the text is one bare separator, or the number found behind it overflows
  (`VectorParser.MissingElements`). It is read as 0 if and only if the scan
  finds no digits but zeros in the separator and behind it, and no word for
  infinity or NaN (`VectorParser.BlankIsZeroIff`): always if the separator
  starts with no space, sign, digit, point, `i` or `n`
  (`VectorParser.UsualBlankIsZero`), and not if it is a space that the scan
  skips (`VectorParser.BlankBeforeSpaceIsNotZero`).
* The repository's README describes operations on vectors element by element
  (README.md:138-143); the guard at `src/rb_sensor_monitor.c:677` makes each of
  their elements missing (`Operations.VectorOperationYieldsNothing`).
* When two vectors exchange elements, the stored split result stays behind. It
  is sent correctly, but what is stored is that of the first reading
  (`StoredSplits.StoredSplitIsFoldIff`, `StoredSplits.StoredSplitGoesStale`).
* The sensors array only frees itself when it is done (`src/rb_sensor.h:120`),
  so the first reference of each sensor is never put
  (`SensorWorkers.ReferencesAtExit`, in a run such as that of
  `SensorWorkers.ExitCanBeReached`).
* A contender whose predecessor goes away between the listing and the watch
  gives up, but leaves its node, which blocks all later ones until the session
  expires (`ZkAbandonment.NodeCanBeAbandoned`,
  `ZkAbandonment.AbandonedNodeBlocks`). So does one whose node is created, but
  which only hears that the request has failed
  (`ZkAbandonment.LostReplyAbandons`). All steps that leave the node of a
  contender behind are named in `ZkAbandonment.AbandonedIff`; the other way is a
  node that is created when its contender has ended already
  (`ZkAbandonment.BornAbandonedIff`).
* A consumer of the queue keeps the lock if a listing fails or cannot be asked
  for, if its element cannot be read or is not there, or if the deletion of
  that, or of its own node in the end, cannot be asked for
  (`ZkStall.KeepsLockIff`; what is returned at `src/rb_zk.c:512` and
  `src/rb_zk.c:806` is not looked at). Nothing is delivered from then on, to
  anybody, until its connection is lost or a session expires
  (`ZkStall.OnlyCleaningEnds`, `ZkStall.KeptLockStalls`).
  `ZkQueueRuns.LockCanBeKept` is such a run.
* A contender whose listing fails is left as it is, and nobody is told: its
  consumer waits until the connection is lost (`ZkStall.WaitsInVainIff`).
* A queue element whose consumer has ended is released a second time when the
  connection is lost before its contender has ended
  (`ZkRelease.ReleasedTwiceIff`, `ZkQueueRuns.ReleaseCanHappenTwice`).

## Model

| member | source | states |
|---|---|---|
| Values.SplitResultLaws | src/rb_sensor_monitor.c:996-1059 | a split result exists exactly when an operation is set and some element is there, and is finite exactly when all that are there are; a sum is the sum of the elements that are there, a finite mean times their number is that sum and lies between two of them, and any other mean is the sum itself |
| Values.SumLaws | src/rb_sensor_monitor.c:1035-1049 | a sum is zero of nothing, the value of a single element, and over two vectors one after the other what both sum up to; so it is determined for every vector |
| Numbers.PlusLaws | src/rb_sensor_monitor.c:1035-1037 | addition is commutative and associative with the infinities and NaN too, and zero adds nothing |
| Values.PrintedIsFilter | src/rb_value.c:234-246 | the messages of a vector are its elements that are there, in order, each under its original index |
| Values.PrintedLaws | src/rb_value.c:212-262 | a single value is exactly one message about the whole monitor; a vector is its elements and, behind them, one such message if and only if it has a split result |
| Values.PrintMonitorValue | src/rb_value.c:212-262 | the message array holds exactly the printed value and its count is exact; the write index stays inside the allocated size |
| Numerals.ScanReadsNumeralIff | src/rb_sensor_monitor.c:235-240 | a decimal numeral is read back with its value if and only if what follows adds no digit but zeros, and no exponent but one that makes up for the zeros it adds before a point, or the numeral is zero; likewise for a zero that an x makes hexadecimal |
| Numerals.ScanIsZeroIff | src/rb_sensor_monitor.c:235-240 | a number is read as zero exactly when all the digits found are zeros, or there are none and no word for infinity or NaN either |
| Numerals.TimestampReadsDecimal | src/rb_sensor_monitor.c:951-952 | the timestamp scan reads back a printed decimal |
| Numerals.PaddedOrder | src/rb_zk.c:298-302 | numbers padded to one width are ordered as strings as they are as numbers |
| NumeralLaws.SignOfNumeral | src/rb_sensor_monitor.c:235-240 | a numeral with a minus has the opposite value of the same one without, which is never negative, and positive exactly when some digit is no zero |
| NumeralLaws.SignIsRead | src/rb_sensor_monitor.c:235-240 | a minus in front of any number negates what is read, a plus does not, and space is skipped |
| NumeralLaws.SignOfTimestamp | src/rb_sensor_monitor.c:951-952 | the same for timestamps |
| NumeralLaws.PointDivides | src/rb_sensor_monitor.c:235-240 | the digits after a point are worth as much as without it, divided by a power of ten |
| NumeralLaws.ExponentShifts | src/rb_sensor_monitor.c:235-240 | a numeral with any exponent behind it is read as its value shifted by so many places, in the direction of the sign of the exponent |
| NumeralLaws.ShiftIsPower | src/rb_sensor_monitor.c:235-240 | and to shift is to multiply by a power of ten, or to divide by it |
| NumeralLaws.HexIsRead | src/rb_sensor_monitor.c:235-240 | two hexadecimal numbers, with a sign, a point and a binary exponent |
| NumeralLaws.WordsAreRead | src/rb_sensor_monitor.c:235-240 | the words for the values that are not finite |
| NumeralLaws.RangeOfNumeral | src/rb_sensor_monitor.c:956-966 | no numeral with at most 308 digits before its point overflows |
| NumeralLaws.LongNumeralsOverflow | src/rb_sensor_monitor.c:956-966 | every one with more than 309 digits overflows, unless it starts with a zero |
| NumeralLaws.NormalNumbers | src/rb_sensor_monitor.c:612-616 | zero, what is closer to zero than 1e-308, the infinities and NaN are no normal numbers; every other number from 1e-307 on is one |
| VectorParser.VectorElements | src/rb_sensor_monitor.c:905-911 | the counting loop ends, and counts one more than there are separators |
| VectorParser.StartsIsScan | src/rb_sensor_monitor.c:998-1002 | where the elements start: each right behind the first separator after the start of the one before |
| VectorParser.ScansAgree | src/rb_sensor_monitor.c:905-1040 | for every text and non-empty separator both scans see the same number of elements |
| VectorParser.EmptySeparatorNeverAdvances | src/rb_sensor_monitor.c:907-908 | an empty separator is found where the search starts |
| VectorParser.FillVector | src/rb_sensor_monitor.c:998-1040 | the filling loop ends, never leaves the array, fills all of it, and sums and counts the elements that are there |
| VectorParser.ProcessVectorMonitor | src/rb_sensor_monitor.c:980-1060 | the array that is returned holds every element of the text, and its split result |
| VectorParser.MissingElements | src/rb_sensor_monitor.c:1009-1029 | exactly which elements are missing: a bare separator at the end of the text, one without its timestamp, and one whose number overflows |
| VectorParser.BlankIsZeroIff | src/rb_sensor_monitor.c:1009-1034 | exactly when a blank element without timestamps is read as zero: when the scan finds no digits but zeros in the separator and behind it, and no word for infinity or NaN |
| VectorParser.BlankBeforeSpaceIsNotZero | src/rb_sensor_monitor.c:1009-1034 | a text with a blank element that is not |
| VectorParser.FieldIsReadIff | src/rb_sensor_monitor.c:922-972 | one field of a joined text is read back if and only if what follows it leaves its number as it is, and that does not overflow |
| VectorParser.RoundTripFromIff | src/rb_sensor_monitor.c:998-1040 | the same for all fields, wherever the list starts in the text |
| VectorParser.RoundTripIff | src/rb_sensor_monitor.c:980-1060 | for every list of fields and every separator that shares no character with them: parsing the joined text gives exactly the fields, in order, none missing, and the fold of them, if and only if what follows each field leaves its number as it is, and no number overflows |
| VectorParser.SeparatorIsHarmless | src/rb_sensor_monitor.c:956 | which is so for every separator that starts with no digit, point, exponent mark or x |
| VectorParser.PointAloneIsHarmless | src/rb_sensor_monitor.c:956 | and for some others: a text split at a separator that starts with a point, and read back |
| VectorParser.PointSeparatorMisreads | src/rb_sensor_monitor.c:956 | a text and separator for which the round trip fails |
| Readings.NegativeIsRead | src/rb_sensor_monitor.c:980-1060 | a text with a negative number, and what is made of it: its elements and their sum |
| Monitors.Configure | src/rb_sensor_monitor.c:308-350 | every option ends up in the monitor; only an operation never carries timestamps |
| Monitors.SplitOptionLaws | src/rb_sensor_monitor.c:273-281 | which split result an option leads to: "sum" to the sum, "mean" to a mean, and any other one, or none, to no split result |
| Monitors.FindIsFirst | src/rb_sensor_monitor_array.c:329-346 | the lookup finds the first monitor of that name in that group |
| Monitors.DependencyLaws | src/rb_sensor_monitor_array.c:353-392 | an operation has positions exactly when it has variables and each names a monitor of its group; the k-th is that of the first such monitor |
| Monitors.FindMonitorPos | src/rb_sensor_monitor_array.c:329-346 | the position found, or -1 exactly when there is none |
| Monitors.GetMonitorDependencies | src/rb_sensor_monitor_array.c:353-392 | the position array is that of the dependencies, with its terminator, or null exactly when these are missing |
| Monitors.GetMonitorsDependencies | src/rb_sensor_monitor_array.c:394-407 | one such array for each monitor |
| Monitors.PosArrayLength | src/rb_value.c:264-270 | the terminator is found at the number of positions |
| Monitors.SelectValues | src/rb_value.c:272-293 | exactly the values at the positions are selected, in their order |
| Operations.OpLibmathevalVars | src/rb_sensor_monitor.c:540-586 | the name table: the k-th name stands where the k-th variable is there, the count is that of the variables that are there, and there is no table exactly when vector sizes disagree |
| Operations.OpValue | src/rb_sensor_monitor.c:633-654 | a scalar operation evaluates every name with its own value, and yields nothing if a variable is missing or a vector |
| Operations.OpVector | src/rb_sensor_monitor.c:705-765 | the elements of a vector operation are those of its element function, and its split result is the fold of them |
| Operations.GetOpResult | src/rb_sensor_monitor.c:773-840 | the whole of an operation, including all cases in which it yields nothing |
| Operations.OpVectorI | src/rb_sensor_monitor.c:665-695 | the loop over the variables collects the values of their children and ends at the first variable that the guard rejects |
| Operations.GuardRejectsVectors | src/rb_sensor_monitor.c:677-680 | whatever the children are, the loop gets past all variables if and only if they are single values with a child, and then has the values of these in order |
| Operations.VectorOperationYieldsNothing | src/rb_sensor_monitor.c:705-765 | so no element of an operation with a vector among its variables is ever evaluated; exactly when the result is a vector of missing elements, and when it is nothing |
| Polling.BoundOperationYields | src/rb_sensor_monitor.c:540-654 | an operation whose variables each stand for the first monitor of that name in its group, all of these holding a single value, yields what the evaluator makes of the formula with every name bound to the value of its own monitor, or nothing if that is not a normal number: in particular for zero, an infinity or NaN |
| Polling.BindingIsUnique | src/rb_sensor_monitor_array.c:353-392 | there is no other way to bind the variables |
| Polling.OperationEnvironment | src/rb_sensor_monitor.c:540-654 | an operation yields a number if and only if its variables can be bound like that and the formula evaluates to a normal number |
| Polling.OperationSees | src/rb_sensor_monitor_array.c:264-308 | at its turn an operation finds the outcome of this poll for earlier monitors, and the last known values otherwise |
| Polling.TurnStoresReadings | src/rb_sensor_monitor_array.c:286-299 | a produced value is seen from then on whether or not a message was sent for it |
| Polling.NewValueKind | src/rb_sensor_monitor_array.c:147-154 | a new value is of the kind of the stored value that it meets |
| Polling.StepKeepsKinds | src/rb_sensor_monitor_array.c:173-213 | every turn keeps the kinds of all stored values |
| Polling.RunKeepsKinds | src/rb_sensor_monitor_array.c:147-190 | type stability in every reachable state: a vector exactly when a separator is set, operations as their first variable |
| Readings.StoredValueIsLast | src/rb_sensor_monitor_array.c:173-200 | after every run a monitor of a single value knows the number of its last answer, under the time of that answer or, if times are given, maybe under a later one at which it already had that number |
| Readings.StoredVectorIsLastIff | src/rb_sensor_monitor_array.c:147-200 | after every run a monitor of a vector knows exactly the fields that its last answer was joined from, if and only if these can be read back |
| StoredSplits.UnstampedSplitsAreFolds | src/rb_sensor_monitor_array.c:192-200 | in every reachable state the stored split result of a monitor without given timestamps, operations included, is the fold of its stored elements |
| StoredSplits.StoredIsFirstAndLast | src/rb_sensor_monitor_array.c:147-164 | in every reachable state a vector monitor has stored its last reading or, with timestamps, the elements of its last reading and the split result of its first |
| StoredSplits.StoredSplitIsFoldIff | src/rb_sensor_monitor_array.c:160-162 | so its stored split result is the fold of its stored elements if and only if no timestamps are given, or the first and the last reading fold to the same value |
| StoredSplits.StoredSplitGoesStale | src/rb_sensor_monitor_array.c:160-162 | a run over two answers after which it is not |
| Deduplication.NewValuesAgree | src/rb_sensor_monitor_array.c:276-284 | suppressing messages does not change what operations see |
| Deduplication.OmittingHeldAgrees | src/rb_sensor_monitor_array.c:86-112 | leaving out elements that the consumer holds leads to the same values as sending all |
| Deduplication.ElementsSentWhenDue | src/rb_sensor_monitor_array.c:86-112 | nothing superfluous is sent: a reading of an element is sent if and only if the monitor sends and the reading is new, has a later time than the stored one, or another number; the split result always is |
| Deduplication.ScalarSentWhenDue | src/rb_sensor_monitor_array.c:173-200 | a single value is sent, once, if and only if the monitor sends and the reading is the first one, has no given time, or has a later time or another number than the stored one |
| Deduplication.StepRelated | src/rb_sensor_monitor_array.c:173-213 | every turn keeps the consumer at the stored readings, and in agreement with one that is sent everything |
| Deduplication.TurnsRelated | src/rb_sensor_monitor_array.c:275-308 | so do all turns of a poll |
| Deduplication.RunIsLossless | src/rb_sensor_monitor_array.c:74-131 | lossless deduplication over every run: the last message of each instance has the stored value and a timestamp at least as large, and the same values arrive as if everything were sent |
| Suppression.ElementsOfPollIff | src/rb_sensor_monitor_array.c:86-112 | over all runs, exactly which elements a poll sends, in terms of the times and numbers that are stored and read |
| Suppression.ValueOfPollIff | src/rb_sensor_monitor_array.c:173-200 | over all runs, exactly when a poll sends a single value |
| Suppression.RepeatedPollSendsNoElement | src/rb_sensor_monitor_array.c:86-112 | a poll that reads again what is stored, at the same times, sends no element |
| Groups.FindInGroup | src/rb_sensor_monitor_array.c:329-346 | a lookup within a group does not depend on other groups |
| Groups.DependenciesInGroup | src/rb_sensor_monitor_array.c:353-392 | nor do the dependencies of an operation |
| Groups.StepInGroup | src/rb_sensor_monitor_array.c:275-299 | a turn in the group has the same effect on it in both runs, and a turn outside of it has none |
| Groups.TurnsInGroup | src/rb_sensor_monitor_array.c:275-308 | the same for all turns of a poll |
| Groups.RunsInGroup | src/rb_sensor_monitor_array.c:329-392 | group non-interference over whole runs: stored values and messages of a group depend only on the readings of that group |
| ValueHeap.Unaffected | src/rb_value.h:38-65 | a value is not affected by what happens outside of its own blocks |
| ValueHeap.Memory.Done | src/rb_value.c:295-308 | freeing a value frees exactly its own blocks, each once |
| ValueHeap.Memory.SwapElements | src/rb_sensor_monitor_array.c:160-161 | the two swaps exchange arrays and counts, and leave the split results |
| ValueHeap.Memory.NewChildren | src/rb_sensor_monitor.c:1031-1034 | elements are allocated apart from everything else |
| ValueHeap.Memory.NewValue | src/rb_value.c:28-57 | a new value lies in fresh blocks and denotes what was put into it |
| PollEngine.OwnedWithNew | src/rb_sensor_monitor_array.c:283-284 | a new value joins the owned ones without touching them |
| PollEngine.OwnedAfterDone | src/rb_sensor_monitor_array.c:197-199 | freeing one value leaves all others owned and whole |
| PollEngine.OwnedAfterSwap | src/rb_sensor_monitor_array.c:160-161 | after the exchange both vectors are whole, still share nothing, and hold each other's elements |
| PollEngine.OwnedAfterReplace | src/rb_sensor_monitor_array.c:192-200 | replacing and freeing the known value keeps ownership, and stores the new one |
| PollEngine.ChangedElements | src/rb_sensor_monitor_array.c:81-112 | the two loops pick the elements that are newer, were missing, or lie beyond the end of the known vector |
| PollEngine.Engine.constructor | src/rb_sensor.c:230-239 | a sensor starts with its dependencies resolved and nothing known |
| PollEngine.Engine.ProcessSensorMonitor | src/rb_sensor_monitor.c:842-859 | the new value lies apart from all others and is what the function of the poll produces |
| PollEngine.Engine.ProcessMonitorValueV | src/rb_sensor_monitor_array.c:147-164 | the vector path: changed elements are printed, elements exchanged, the new vector with the old elements freed; nothing leaks and nothing is freed twice |
| PollEngine.Engine.ReplaceKnown | src/rb_sensor_monitor_array.c:192-200 | the update path, with the known value freed |
| PollEngine.Engine.ProcessMonitorValue | src/rb_sensor_monitor_array.c:173-213 | whichever value loses is freed, the slot points to the other, and the messages are those of the poll function |
| PollEngine.Engine.SendArray | src/main.c:494-550 | every message of an array is sent, in order |
| PollEngine.Engine.SendList | src/rb_sensor_monitor_array.c:303-307 | the message list is drained |
| PollEngine.Engine.Selection | src/rb_sensor_monitor_array.c:276-279 | the variables of an operation as the position array selects them |
| PollEngine.Engine.Settle | src/rb_sensor_monitor_array.c:286-296 | the slot takes the value that is kept |
| PollEngine.Engine.Turn | src/rb_sensor_monitor_array.c:275-308 | one turn refines one step of the poll function, and leaves this iteration's values equal to the last known ones, slot by slot |
| PollEngine.Engine.TakeTurns | src/rb_sensor_monitor_array.c:275-308 | the loop refines all steps of it |
| PollEngine.Engine.ProcessMonitorsArray | src/rb_sensor_monitor_array.c:215-321 | one poll: stored values and messages are those of the poll function; stored trees stay disjoint, live and all there is in memory |
| RbSensor.Sensor.constructor | src/rb_sensor.c:286-310 | one reference, not locked, nothing known |
| RbSensor.Sensor.Put | src/rb_sensor.c:368-372 | one reference less; the last one destroys the sensor |
| RbSensor.Sensor.TryLock | src/rb_sensor.c:65-67 | succeeds exactly when the lock is free, and then holds it |
| RbSensor.Sensor.WorkerProcess | src/main.c:568-591 | with the lock the sensor is polled once and follows its polls; without it only its reference changes |
| RbSensor.SensorDone | src/rb_sensor.c:340-362 | when a sensor is destroyed nothing of its values is left in memory |
| SensorWorkers.OneHolder | src/rb_sensor.c:65-71 | a lock is held by one worker, and by none when it is free |
| SensorQueue.SensorsAreQueuedInTurn | src/main.c:879-889 | in every run the k-th sensor that is queued is number k modulo the number of sensors, and workers are given exactly what was queued, in that order |
| SensorQueue.QueueIsFair | src/main.c:879-889 | so at any moment two sensors have been queued equally often, or the one that comes first once more |
| SensorWorkers.StepKeepsInvariant | src/main.c:597-611 | every action of every thread keeps the references counted, the locks exclusive and the histories sequential |
| SensorWorkers.ExecutionKeepsInvariant | src/main.c:597-611 | and so does every interleaving |
| SensorWorkers.AtMostOneProcesses | src/main.c:576-584 | at most one worker processes a given sensor |
| SensorWorkers.ReferencesAreConserved | src/rb_sensor.c:364-372 | a reference count is one for the configuration plus queue entries, holding workers, the main thread and dropped references; no sensor is ever destroyed |
| SensorWorkers.ReferencesAtExit | src/main.c:894-900 | which references are left when all workers have been joined |
| SensorWorkers.ExitCanBeReached | src/main.c:879-900 | a run that gets there |
| SensorShutdown.StepNearsExit | src/main.c:597-611 | once `run` is false every step of a worker takes it nearer to its end, by a measure that cannot decrease forever, so that it processes no sensor but the one that it is about to lock or has locked |
| SensorShutdown.GoesBackIff | src/main.c:597-611 | a worker looks at `run` again exactly when it has found the queue empty, or has popped a sensor after the signal; then, and only then, a reference is lost |
| SensorShutdown.WorkerCanGoOn | src/main.c:597-611 | in every state that can be reached a worker that has not left can take a step |
| SensorShutdown.EveryRunCanEnd | src/main.c:879-897 | from every state that can be reached the program can be brought to its end |
| SensorWorkers.InterleavingsAreSequential | src/main.c:568-611 | whatever the interleaving, values and messages of a sensor are those of a plain run over its polls in the order of the successful trylocks |
| SensorWorkers.InterleavingsAreLossless | src/main.c:568-611 | and so a consumer of the interleaved messages loses nothing of any sensor |
| ZkNames.ChildSplits | src/rb_zk.c:244-251 | parent and base name of a path take apart what was put together |
| ZkNames.SequenceOrder | src/rb_zk.c:295-304 | sequence names under one prefix are ordered as their numbers |
| ZkNames.LeaderPreviousString | src/rb_zk.c:277-307 | the search loop computes the predecessor |
| ZkNames.BelowIsGreatest | src/rb_zk.c:290-306 | for any list, in any order and with null entries, the predecessor is the greatest name below the own one, and nothing else is |
| ZkNames.MinStr | src/rb_zk.c:645-661 | the search loop computes the minimum |
| ZkNames.LeastIsLeast | src/rb_zk.c:645-661 | the minimum is the least listed name, and nothing else is |
| ZkNames.SearchesAgree | src/rb_zk.c:277-307 | there is no predecessor exactly when the own listed name is the minimum |
| ZkNames.OrderIsNoMatter | src/rb_zk.c:277-307 | the order of a list and its null entries do not matter to either search |
| ZkNames.CreateRecursiveNode | src/rb_zk.c:948-990 | whichever requests are refused, nothing but the node and its ancestors comes to exist, and each of these that is not refused does exactly when its parent is there; if none is refused, all of them |
| ZkLock.RbZkMutex.constructor | src/rb_zk.c:411-443 | a contender starts with its prefix and is not the leader |
| ZkLock.RbZkMutex.LeaderGetChildrenComplete | src/rb_zk.c:309-347 | leads without a predecessor, and otherwise asks for it |
| ZkLock.RbZkMutex.Take | src/rb_zk.c:257-523 | every step that a client takes for a contender is that of one of the callbacks |
| ZkLock.ZkWatcherCleanMutex | src/rb_zk.c:549-556 | when the connection is lost no contender of the client takes itself for the leader any more, and each keeps its path |
| ZkLock.CleaningDemotes | src/rb_zk.c:549-556 | a lost connection ends exactly the contenders of its session, none of which leads any more, and no node |
| ZkLock.CreatedIsHandled | src/rb_zk.c:359-409 | a contender that learns of its node keeps that node, and asks for the children of the right parent |
| ZkLock.EventIsHandled | src/rb_zk.c:257-274 | so does one whose watch fires, which has one listing less to go |
| ZkLock.UnlockMoves | src/rb_zk.c:498-523 | a leader that unlocks asks for the deletion of its own node and of no other |
| ZkLock.ChildrenInOrder | src/rb_zk.c:320-348 | a decision made from an old listing is right for the nodes that there are now |
| ZkLock.FreshListingDecides | src/rb_zk.c:309-348 | from a listing that is up to date a contender leads if and only if no node is below its own, and otherwise asks for the closest one below |
| ZkLock.StepKeepsInvariant | src/rb_zk.c:257-557 | every request, reply, event, failure, expiry and cleaning keeps what is known of every contender |
| ZkLock.ExecutionKeepsInvariant | src/rb_zk.c:257-557 | and so does every run |
| ZkLock.HolderIsFirst | src/rb_zk.c:309-357 | whoever has obtained the lock and whose node is there has the first of all nodes |
| ZkLock.MutualExclusion | src/rb_zk.c:309-357 | in every run no two contenders have obtained the lock while their nodes are there |
| ZkLock.OnlyOneLeads | src/rb_zk.c:309-357 | of the contenders whose sessions live, one leads at most, counting one that could not request the deletion of its node |
| ZkLock.WaitersWatch | src/rb_zk.c:257-274 | whoever waits watches a live node below its own, or has an event on its way |
| ZkLock.StepsBringCloser | src/rb_zk.c:257-274 | the nodes below the own one never become more, and become fewer when the watch fires |
| ZkLock.RechecksAreBounded | src/rb_zk.c:257-274 | a contender lists again at most as often as there were nodes below its own at first |
| ZkLock.SomeoneLeads | src/rb_zk.c:309-357 | when nothing is on its way and no node was abandoned, some contender leads |
| ZkAbandonment.AbandonedIff | src/rb_zk.c:257-557 | for every step that there is, exactly when the live node of a contender is left behind by it: the creation whose reply is lost, the local error, the failed requests, the predecessor that is gone, the unlock without a connection, the deletion that cannot be requested or never reaches the server, and the lost connection |
| ZkAbandonment.BornAbandonedIff | src/rb_zk.c:359-372 | a new node is abandoned from the start exactly when its contender has ended while the request was under way |
| ZkAbandonment.StopsIff | src/rb_zk.c:314-318 | exactly when a contender stops without an end: a listing that fails, or a deletion that cannot be requested; and it stays like that exactly until its connection is lost |
| ZkAbandonment.LostReplyAbandons | src/rb_zk.c:365-372 | a run in which only the reply to a creation is lost, and a live node of a live session is left behind |
| ZkAbandonment.NodeCanBeAbandoned | src/rb_zk.c:340-355 | a run without any failure in which that happens: the predecessor is deleted between the listing and the watch |
| ZkAbandonment.LockCanBeObtained | src/rb_zk.c:309-409 | a run in which the lock is obtained |
| ZkAbandonment.AbandonedStays | src/rb_zk.c:350-355 | no step but the expiry of its session removes an abandoned node, no request that is under way included |
| ZkAbandonment.AbandonedNodeBlocks | src/rb_zk.c:350-355 | until then nobody whose node is above it obtains the lock, in any run; whoever has it has a node below, or is the one that could not have this node deleted |
| ZkQueue.RbZkQueueElement.constructor | src/rb_zk.c:597-624 | one reference, nothing found yet |
| ZkQueue.RbZkQueueElement.PopMinimum0 | src/rb_zk.c:753-816 | asks for the least element, and marks a watch that is still set as to be ignored; with none, watches once and then waits |
| ZkQueue.RbZkQueueElement.Take | src/rb_zk.c:663-816 | every step that a client takes for a consumer is that of one of the callbacks |
| ZkQueue.RbZkQueueElement.Learn | src/rb_zk.c:849-872 | what a consumer does when its contender says that its status has changed, or that it has failed |
| ZkQueue.ElementMeets | src/rb_zk.c:676-713 | what is handed over is the element that was asked for, with the data that was pushed, and only then is its deletion asked for |
| ZkQueue.EventIsHandledIff | src/rb_zk.c:715-733 | an event makes a consumer that waits for elements list again, and leaves any other one as it was |
| ZkQueue.ClientMeets | src/rb_zk.c:753-816 | a consumer that handles a listing or an event keeps what is known of it |
| ZkQueue.StepKeepsInvariant | src/rb_zk.c:663-883 | every step keeps consumers and contenders together, and the store accounted for |
| ZkQueue.ExecutionKeepsInvariant | src/rb_zk.c:663-883 | and so does every run |
| ZkQueue.NothingIsLost | src/rb_zk.c:694-702 | in every run an element that is gone was handed over before, with the data that was pushed |
| ZkQueue.IdleAtEmptyQueue | src/rb_zk.c:800-815 | a consumer that waits for elements without an event on its way waits at an empty queue |
| ZkQueue.OneInSection | src/rb_zk.c:849-859 | of the consumers whose sessions live, one is in the protected section at most |
| ZkSearch.SearchersLead | src/rb_zk.c:849-859 | in every run, whoever looks for an element has a contender that leads, and has found none yet |
| ZkSearch.FoundNeverSearchesAgain | src/rb_zk.c:772-816 | in every run, a consumer that has found its element keeps it and never looks for another one, although its watch may still fire |
| ZkSearch.NoticeStartsNoSearch | src/rb_zk.c:551-556 | a lost connection reaches a consumer first as a change of status, and it does not take that for the lock: it ends without a request |
| ZkQueue.MinimumIsNext | src/rb_zk.c:772-776 | the least name of a listing, however old, is the next element to deliver |
| ZkQueue.CleanStepKeeps | src/rb_zk.c:663-883 | without lost sessions and failed deletions every step keeps the deliveries in order |
| ZkQueue.CleanRunsAreFifo | src/rb_zk.c:676-713 | in such runs the k-th delivery is the k-th push, each once, across all consumers; what is left is what was not delivered |
| ZkQueue.DeliveriesIncrease | src/rb_zk.c:676-713 | names are delivered in strictly increasing order |
| ZkQueue.ReleasedOnce | src/rb_zk.c:591-595 | in such runs a queue element is released exactly once |
| ZkRelease.ReleasedTwiceIff | src/rb_zk.c:861-872 | over all runs: an element has one reference until its consumer ends and none afterwards, except that it has been released twice if and only if the connection was lost after the consumer had ended and before its contender had |
| ZkQueueRuns.ReleaseCanHappenTwice | src/rb_zk.c:861-872 | a run in which it has been |
| ZkQueueRuns.WatchCanFireLate | src/rb_zk.c:778-782 | a run in which the watch fires when the consumer has its element already |
| ZkStall.KeepsLockIff | src/rb_zk.c:676-816 | for every step that there is, exactly when a consumer comes to keep the lock although it does nothing more: a listing fails or cannot be asked for, its element cannot be read or is not there, or the deletion of the element, or of its node in the end, cannot be asked for |
| ZkStall.OnlyCleaningEnds | src/rb_zk.c:849-872 | it keeps the lock through every step but the loss of its own connection |
| ZkStall.NobodyElseInSection | src/rb_zk.c:849-859 | while no session has expired nobody else is in the protected section then |
| ZkStall.KeptLockStalls | src/rb_zk.c:676-713 | so in every run nothing is delivered to anybody from then on, until that connection is lost or a session expires |
| ZkStall.WaitsInVainIff | src/rb_zk.c:314-318 | exactly when a consumer comes to wait for a lock that is not asked for any more: when the listing of its contender fails, of which it is not told, and until its connection is lost |
| ZkQueueRuns.LockCanBeKept | src/rb_zk.c:762-770 | a run in which a listing fails and the lock is kept |

## Left out

- ChildAt: what rb_monitor_op_vector_i would find as the child of a single value, which it reads as if it were a vector (src/rb_sensor_monitor.c:682); the loop is stated for any way of finding children (`Operations.OpVectorI`).
- ScanNumber: the rounding of strtod is not modelled.
- SplitResultLaws: sums and means are not rounded, and do not overflow.
- MissingElements: does not model the range error that strtod may report for a number too close to zero, which makes an element missing too; whether it does is up to the C library.
- RoundTripIff: the same, for a field whose number is too close to zero, and numbers are not rounded.
- Numeral: the numerals of the round trip are decimal, with or without sign and point, but without exponent; one with an exponent is read as `NumeralLaws.ExponentShifts` says.
- ScanTimestamp: timestamps are unbounded, and so are their differences; the wrap-around of the C types is not modelled.
- Configured: monitors with an empty separator are excluded, because the C loops do not end on one (`VectorParser.EmptySeparatorNeverAdvances`).
- CreateRecursiveNode: the work buffer of the source (src/rb_zk.c:951-952) has no room for the terminator of the path that is copied into it, on every call; the model has no buffer. It requires an absolute path.
- Message texts: the JSON rendering, the name suffixes, the enrichment and the cast to an integer.
- Sources and sinks: SNMP, popen, Kafka, HTTP and json-c.
- Allocation failures, magic numbers, logging, and the sizes of fixed buffers.
- Configuration, command line, the HTTP option table, packaging.
- src/rb_monitor_zk.c: only instantiates the lock and the queue, and hands JSON objects, not sensors, to the worker queue.
- The list of mutexes that wait for a connection (`pending_leaders`): a contender enters the model when its node is requested.
- Callbacks on a mutex or a queue element that has been freed: late replies and events for it do nothing. Session events that are handed to the watch of a predecessor, whose type is not looked at (src/rb_zk.c:257-274), come when the contender is gone in that way.
- ZooKeeper sequence numbers beyond 2147483647: a node that would get one is not created.
- Progress after errors: safety is stated for all runs, progress only for those in which no node was abandoned, no contender has stopped and no lock is kept (`ZkAbandonment.AbandonedNodeBlocks`, `ZkStall.WaitsInVainIff` and `ZkStall.KeptLockStalls` say what happens in the others).
- Fairness and timing: the timeouts of the queues and the pauses of the main loop.
