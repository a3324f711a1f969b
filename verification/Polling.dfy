/** What one poll of a sensor does to the last known values of its monitors, and
    what it sends, as a function (rb_sensor_monitor_array.c). */
module Polling {
  import opened Wrappers
  import opened Numbers
  import opened Values
  import opened VectorParser
  import opened Monitors
  import opened Operations

  /** The monitors of a sensor, and the evaluator that operations use. */
  datatype Config = Config(monitors: seq<Monitor>, eval: Evaluator) {
    ghost predicate Valid() { Configured(monitors) }
  }

  /** What the outside yields when a monitor is asked: a text, the number that
      the source made of it, and the time. */
  datatype Input = Input(text: string, number: Number, now: int)

  /** One poll. A sensor that lacks its peer name or community, or whose session
      cannot be opened, is not ready, and none of its monitors is asked. */
  datatype Poll = Poll(ready: bool, inputs: seq<Input>)

  type Slots = seq<Option<Value>>

  datatype Outcome = Outcome(slots: Slots, sent: seq<Message>)

  // ---------- one monitor ----------

  /** rb_monitor_get_external_value: an empty text stands for zero. */
  function ExternalValue(m: Monitor, input: Input): Value
    requires m.split != Some("")
  {
    var text := if input.text == "" then "0" else input.text;
    var number := if input.text == "" then Finite(0.0) else input.number;
    if m.split.None? then Scalar(Sample(input.now, number))
    else ParseVector(text, m.split.value, m.splitOp, m.timestampGiven, input.now)
  }

  /** The values that the variables of an operation have at this moment. */
  function VariablesOf(monitors: seq<Monitor>, slots: Slots, i: nat): Option<Variables>
    requires i < |monitors| == |slots|
  {
    match Dependencies(monitors, i)
    case None => None
    case Some(d) => Some(Selected(slots, d))
  }

  /** process_sensor_monitor: the new value of monitor i, given its variables. */
  function Produced(cfg: Config, i: nat, vars: Option<Variables>, input: Input): Option<Value>
    requires cfg.Valid() && i < |cfg.monitors|
  {
    var m := cfg.monitors[i];
    if m.source.External? then Some(ExternalValue(m, input)) else OpResult(m, vars, cfg.eval, input.now)
  }

  function NewValue(cfg: Config, slots: Slots, i: nat, input: Input): Option<Value>
    requires cfg.Valid() && i < |cfg.monitors| == |slots|
  {
    Produced(cfg, i, VariablesOf(cfg.monitors, slots, i), input)
  }

  /** A reading that is worth sending after another one. */
  predicate Newer(known: Sample, next: Sample) {
    known.timestamp < next.timestamp || Differs(known.value, next.value)
  }

  /** Whether the new value takes the place of the last known one as a whole. */
  predicate Replaces(m: Monitor, known: Option<Value>, v: Value) {
    || known.None?
    || !m.timestampGiven
    || (v.Scalar? && known.value.Scalar? && Newer(known.value.sample, v.sample))
  }

  /** The elements that are sent when a vector follows another one: those that
      are newer, those that were missing, and those beyond its end. */
  function Changes(v: seq<Option<Sample>>, known: seq<Option<Sample>>): seq<Option<Sample>> {
    seq(|v|, k requires 0 <= k < |v| =>
      if k < |known| && v[k].Some? && known[k].Some? && !Newer(known[k].value, v[k].value) then None else v[k])
  }

  /** What is known after a new value. A vector that does not replace the old one
      hands over its elements, but not its split result. */
  function Stored(m: Monitor, known: Option<Value>, v: Value): Value {
    if Replaces(m, known, v) then v
    else if v.Vector? && known.value.Vector? then Vector(v.children, known.value.split)
    else known.value
  }

  function Emitted(m: Monitor, i: nat, known: Option<Value>, v: Value): seq<Message> {
    if !m.send then []
    else if Replaces(m, known, v) then Printed(i, v)
    else if v.Vector? && known.value.Vector? then Printed(i, Vector(Changes(v.children, known.value.children), v.split))
    else []
  }

  /** One turn of the loop over the monitors. */
  function Step(cfg: Config, slots: Slots, i: nat, input: Input): (r: Outcome)
    requires cfg.Valid() && i < |cfg.monitors| == |slots|
    ensures |r.slots| == |slots|
  {
    match NewValue(cfg, slots, i, input)
    case None => Outcome(slots, [])
    case Some(v) =>
      var m := cfg.monitors[i];
      Outcome(slots[i := Some(Stored(m, slots[i], v))], Emitted(m, i, slots[i], v))
  }

  // ---------- polls and runs ----------

  /** The first n turns of the loop. */
  function Turns(cfg: Config, slots: Slots, inputs: seq<Input>, n: nat): (r: Outcome)
    requires cfg.Valid() && n <= |cfg.monitors| == |slots| == |inputs|
    ensures |r.slots| == |slots|
  {
    if n == 0 then Outcome(slots, [])
    else
      var before := Turns(cfg, slots, inputs, n - 1);
      var step := Step(cfg, before.slots, n - 1, inputs[n - 1]);
      Outcome(step.slots, before.sent + step.sent)
  }

  lemma NextTurn(cfg: Config, slots: Slots, inputs: seq<Input>, n: nat)
    requires cfg.Valid() && n < |cfg.monitors| == |slots| == |inputs|
    ensures Turns(cfg, slots, inputs, 0) == Outcome(slots, [])
    ensures var before := Turns(cfg, slots, inputs, n);
      var step := Step(cfg, before.slots, n, inputs[n]);
      Turns(cfg, slots, inputs, n + 1) == Outcome(step.slots, before.sent + step.sent)
  {
  }

  ghost predicate ValidPolls(cfg: Config, polls: seq<Poll>) {
    cfg.Valid() && forall p :: 0 <= p < |polls| ==> |polls[p].inputs| == |cfg.monitors|
  }

  function PollOnce(cfg: Config, slots: Slots, poll: Poll): (r: Outcome)
    requires cfg.Valid() && |cfg.monitors| == |slots| == |poll.inputs|
    ensures |r.slots| == |slots|
  {
    if poll.ready then Turns(cfg, slots, poll.inputs, |cfg.monitors|) else Outcome(slots, [])
  }

  /** Nothing is known of a sensor that was just configured. */
  function NothingKnown(cfg: Config): (r: Slots)
    ensures |r| == |cfg.monitors|
  {
    seq(|cfg.monitors|, _ => None)
  }

  /** A whole run, from the start. */
  function Run(cfg: Config, polls: seq<Poll>): (r: Outcome)
    requires ValidPolls(cfg, polls)
    ensures |r.slots| == |cfg.monitors|
    decreases |polls|
  {
    if polls == [] then Outcome(NothingKnown(cfg), [])
    else
      var before := Run(cfg, polls[..|polls| - 1]);
      var last := PollOnce(cfg, before.slots, polls[|polls| - 1]);
      Outcome(last.slots, before.sent + last.sent)
  }

  /** What is known and what was sent are those of a run over these polls. */
  ghost predicate Follows(cfg: Config, polls: seq<Poll>, slots: Slots, sent: seq<Message>) {
    ValidPolls(cfg, polls) && slots == Run(cfg, polls).slots && sent == Run(cfg, polls).sent
  }

  lemma FollowsOnce(cfg: Config, polls: seq<Poll>, slots: Slots, sent: seq<Message>, poll: Poll)
    requires Follows(cfg, polls, slots, sent) && |poll.inputs| == |cfg.monitors|
    ensures |slots| == |cfg.monitors|
    ensures Follows(cfg, polls + [poll], PollOnce(cfg, slots, poll).slots, sent + PollOnce(cfg, slots, poll).sent)
  {
    hide PollOnce;
    assert (polls + [poll])[..|polls|] == polls;
  }

  // ---------- what an operation sees ----------

  /** At its turn, an operation finds this poll's outcome for the monitors before
      it, and the last known value for itself and the monitors after it. */
  lemma {:induction false} OperationSees(cfg: Config, slots: Slots, inputs: seq<Input>, i: nat, j: nat)
    requires cfg.Valid() && i <= |cfg.monitors| == |slots| == |inputs| && j < |slots|
    ensures Turns(cfg, slots, inputs, i).slots[j] ==
            if j < i then Turns(cfg, slots, inputs, j + 1).slots[j] else slots[j]
    decreases i
  {
    if i > 0 && i != j + 1 {
      OperationSees(cfg, slots, inputs, i - 1, j);
    }
  }

  /** One poll changes the slot of a monitor that is asked outside as its own turn
      does. */
  lemma PollIsOwnTurn(cfg: Config, slots: Slots, poll: Poll, i: nat)
    requires IsExternal(cfg, i) && |cfg.monitors| == |slots| == |poll.inputs| && poll.ready
    ensures PollOnce(cfg, slots, poll).slots[i] ==
            Some(Stored(cfg.monitors[i], slots[i], ExternalValue(cfg.monitors[i], poll.inputs[i])))
  {
    OperationSees(cfg, slots, poll.inputs, |cfg.monitors|, i);
    OperationSees(cfg, slots, poll.inputs, i, i);
    NextTurn(cfg, slots, poll.inputs, i);
    hide Turns, ExternalValue, Stored, Emitted;
  }

  ghost predicate IsExternal(cfg: Config, i: nat) {
    cfg.Valid() && i < |cfg.monitors| && cfg.monitors[i].source.External?
  }

  /** Monitor j's own turn: its slot holds a value if it held one before or if a
      value was produced, and the readings in it are then those of the produced
      value, whether or not a message was sent for them. */
  lemma TurnStoresReadings(cfg: Config, slots: Slots, i: nat, input: Input)
    requires cfg.Valid() && i < |cfg.monitors| == |slots|
    requires KindsHold(cfg, slots)
    ensures var v, after := NewValue(cfg, slots, i, input), Step(cfg, slots, i, input).slots[i];
      && (v.None? ==> after == slots[i])
      && (v.Some? ==> after.Some? && SameReadings(after.value, v.value))
  {
    if NewValue(cfg, slots, i, input).Some? {
      NewValueKind(cfg, slots, i, input);
    }
  }

  /** The same quantities, as far as an operation can tell. */
  predicate SameReadings(a: Value, b: Value) {
    match (a, b)
    case (Scalar(s), Scalar(t)) => s.value == t.value
    case (Vector(c, _), Vector(d, _)) => c == d
    case _ => false
  }

  /** The environment of the evaluator. When each variable of an operation stands
      for the first monitor of that name in the group of the operation, and each
      of those holds a single value, then the operation yields what the formula
      evaluates to with every name bound to the value of its own monitor, or
      nothing if that is not a normal number. */
  lemma BoundOperationYields(cfg: Config, slots: Slots, i: nat, input: Input, d: seq<nat>, values: seq<Number>)
    requires cfg.Valid() && i < |cfg.monitors| == |slots| && cfg.monitors[i].source.Operation?
    requires BindsVariables(cfg.monitors, slots, i, d, values)
    ensures var number := cfg.eval(cfg.monitors[i].source.formula, cfg.monitors[i].source.vars, values);
      NewValue(cfg, slots, i, input) == if IsNormal(number) then Some(Scalar(Sample(input.now, number))) else None
    ensures var number := cfg.eval(cfg.monitors[i].source.formula, cfg.monitors[i].source.vars, values);
      number == Finite(0.0) || !number.Finite? ==> NewValue(cfg, slots, i, input) == None
  {
    var m := cfg.monitors[i];
    DependencyLaws(cfg.monitors, i);
    BindingIsUnique(cfg.monitors, slots, i, d, values);
    var vars := Selected(slots, d);
    assert forall k :: 0 <= k < |d| ==> vars[k] == slots[d[k]];
    assert AllScalar(vars) && SizesAgree(vars);
    assert ScalarValues(vars) == values;
  }

  /** There is only one way to bind the variables: the dependencies. */
  lemma BindingIsUnique(monitors: seq<Monitor>, slots: Slots, i: nat, d: seq<nat>, values: seq<Number>)
    requires i < |monitors| == |slots| && monitors[i].source.Operation? && BindsVariables(monitors, slots, i, d, values)
    ensures Dependencies(monitors, i) == Some(d)
  {
    var m := monitors[i];
    assert |d| == |m.source.vars| > 0;
    forall k | 0 <= k < |d|
      ensures Find(monitors, m.source.vars[k], m.group, 0) == Some(d[k])
    {
      FindIsFirst(monitors, m.source.vars[k], m.group, 0);
    }
    hide Find, BindsVariables;
    assert Dependencies(monitors, i).Some? && Dependencies(monitors, i).value == d;
  }

  /** And an operation yields a single value if and only if its variables are
      bound like that and its formula evaluates to a normal number. */
  lemma OperationEnvironment(cfg: Config, slots: Slots, i: nat, input: Input)
    requires cfg.Valid() && i < |cfg.monitors| == |slots| && cfg.monitors[i].source.Operation?
    ensures var m, v := cfg.monitors[i], NewValue(cfg, slots, i, input);
      (v.Some? && v.value.Scalar?) <==>
        exists d: seq<nat>, values: seq<Number> :: BindsVariables(cfg.monitors, slots, i, d, values)
          && IsNormal(cfg.eval(m.source.formula, m.source.vars, values))
  {
    hide NewValue, BindsVariables;
    var m, v := cfg.monitors[i], NewValue(cfg, slots, i, input);
    if v.Some? && v.value.Scalar? {
      var d, values := BindingOf(cfg, slots, i, input);
    }
    forall d, values | BindsVariables(cfg.monitors, slots, i, d, values)
      ensures IsNormal(cfg.eval(m.source.formula, m.source.vars, values)) <==> v.Some?
      ensures v.Some? ==> v.value.Scalar?
    {
      BoundOperationYields(cfg, slots, i, input, d, values);
    }
  }

  lemma BindingOf(cfg: Config, slots: Slots, i: nat, input: Input) returns (d: seq<nat>, values: seq<Number>)
    requires cfg.Valid() && i < |cfg.monitors| == |slots| && cfg.monitors[i].source.Operation?
    requires NewValue(cfg, slots, i, input).Some? && NewValue(cfg, slots, i, input).value.Scalar?
    ensures BindsVariables(cfg.monitors, slots, i, d, values)
    ensures IsNormal(cfg.eval(cfg.monitors[i].source.formula, cfg.monitors[i].source.vars, values))
  {
    DependencyLaws(cfg.monitors, i);
    d := Dependencies(cfg.monitors, i).value;
    var vars := Selected(slots, d);
    assert AllScalar(vars);
    values := ScalarValues(vars);
    assert forall k :: 0 <= k < |d| ==> vars[k] == slots[d[k]];
  }

  /** d holds the positions, and values the numbers, that belong to the variables
      of operation i. */
  ghost predicate BindsVariables(monitors: seq<Monitor>, slots: Slots, i: nat, d: seq<nat>, values: seq<Number>)
    requires i < |monitors| == |slots| && monitors[i].source.Operation?
  {
    var m := monitors[i];
    && |d| == |values| == |m.source.vars| > 0
    && forall k :: 0 <= k < |d| ==>
         && d[k] < |monitors| && monitors[d[k]].name == m.source.vars[k] && monitors[d[k]].group == m.group
         && (forall j :: 0 <= j < d[k] ==> monitors[j].name != m.source.vars[k] || monitors[j].group != m.group)
         && slots[d[k]].Some? && slots[d[k]].value.Scalar?
         && values[k] == slots[d[k]].value.sample.value
  }

  // ---------- kinds of values ----------

  /** A monitor that is asked outside has a vector exactly when it is split; an
      operation has the kind of its first variable, which is known before it. */
  ghost predicate KindHolds(cfg: Config, slots: Slots, i: nat)
    requires i < |cfg.monitors| == |slots|
  {
    slots[i].Some? ==>
      match cfg.monitors[i].source
      case External => slots[i].value.Vector? <==> cfg.monitors[i].split.Some?
      case Operation(_, _) =>
        var d := Dependencies(cfg.monitors, i);
        && d.Some? && d.value != [] && d.value[0] < |slots|
        && slots[d.value[0]].Some? && (slots[i].value.Vector? <==> slots[d.value[0]].value.Vector?)
  }

  ghost predicate KindsHold(cfg: Config, slots: Slots) {
    |slots| == |cfg.monitors| && forall i :: 0 <= i < |slots| ==> KindHolds(cfg, slots, i)
  }

  /** Every slot that is filled stays filled, with a value of the same kind. */
  ghost predicate KindsStay(slots: Slots, after: Slots) {
    && |slots| == |after|
    && forall i :: 0 <= i < |slots| && slots[i].Some? ==>
         after[i].Some? && (after[i].value.Vector? <==> slots[i].value.Vector?)
  }

  /** A new value is of the kind of the value that it meets. */
  lemma NewValueKind(cfg: Config, slots: Slots, i: nat, input: Input)
    requires cfg.Valid() && i < |cfg.monitors| && KindsHold(cfg, slots)
    requires NewValue(cfg, slots, i, input).Some?
    ensures KindHolds(cfg, slots[i := NewValue(cfg, slots, i, input)], i)
    ensures slots[i].Some? ==> (slots[i].value.Vector? <==> NewValue(cfg, slots, i, input).value.Vector?)
  {
    assert KindHolds(cfg, slots, i);
    if cfg.monitors[i].source.Operation? {
      DependencyLaws(cfg.monitors, i);
      var d := Dependencies(cfg.monitors, i).value;
      assert Selected(slots, d)[0] == slots[d[0]];
    }
  }

  lemma StepKeepsKinds(cfg: Config, slots: Slots, i: nat, input: Input)
    requires cfg.Valid() && i < |cfg.monitors| && KindsHold(cfg, slots)
    ensures KindsHold(cfg, Step(cfg, slots, i, input).slots)
    ensures KindsStay(slots, Step(cfg, slots, i, input).slots)
  {
    var after := Step(cfg, slots, i, input).slots;
    if NewValue(cfg, slots, i, input).Some? {
      NewValueKind(cfg, slots, i, input);
      var v := NewValue(cfg, slots, i, input).value;
      assert after[i].Some? && (after[i].value.Vector? <==> v.Vector?);
      forall j | 0 <= j < |after|
        ensures KindHolds(cfg, after, j)
      {
        assert KindHolds(cfg, slots, j);
        assert KindHolds(cfg, slots[i := Some(v)], i);
      }
    }
  }

  lemma {:induction false} TurnsKeepKinds(cfg: Config, slots: Slots, inputs: seq<Input>, n: nat)
    requires cfg.Valid() && n <= |cfg.monitors| == |inputs| && KindsHold(cfg, slots)
    ensures KindsHold(cfg, Turns(cfg, slots, inputs, n).slots)
    ensures KindsStay(slots, Turns(cfg, slots, inputs, n).slots)
    decreases n
  {
    if n > 0 {
      TurnsKeepKinds(cfg, slots, inputs, n - 1);
      StepKeepsKinds(cfg, Turns(cfg, slots, inputs, n - 1).slots, n - 1, inputs[n - 1]);
    }
  }

  /** Type stability, in every reachable state and for every monitor. */
  lemma {:induction false} RunKeepsKinds(cfg: Config, polls: seq<Poll>)
    requires ValidPolls(cfg, polls)
    ensures KindsHold(cfg, Run(cfg, polls).slots)
    ensures polls != [] ==> KindsStay(Run(cfg, polls[..|polls| - 1]).slots, Run(cfg, polls).slots)
    decreases |polls|
  {
    if polls != [] {
      var init, last := polls[..|polls| - 1], polls[|polls| - 1];
      RunKeepsKinds(cfg, init);
      TurnsKeepKinds(cfg, Run(cfg, init).slots, last.inputs, |cfg.monitors|);
    }
  }
}
