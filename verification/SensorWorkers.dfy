/** Sensors shared between the main thread, which queues them over and over, and
    any number of workers, which pop them, try their lock, and process or skip
    them (main.c). Every atomic action is a step, and steps interleave freely. */
module SensorWorkers {
  import opened Wrappers
  import opened Values
  import opened Polling
  import opened Deduplication
  import opened RbSensor

  /** Where a worker is. */
  datatype Phase =
    | Checking                 // at the outer loop, about to look at `run`
    | AtPop                    // about to pop a sensor
    | Popped(s: nat)           // has a sensor, about to look at `run`
    | Arriving(s: nat)         // about to try the lock
    | Working(s: nat, poll: Poll, turn: nat, pending: seq<Message>)
    | Leaving(s: nat)          // done or skipped, about to put its reference
    | Left

  /** Where the main thread is, with the index of its loop over the sensors. */
  datatype MainPhase = Choosing(i: nat) | InHand(i: nat) | Joining | Finished

  /** A sensor, with the polls that were started on it so far, in the order in
      which its lock was taken. */
  datatype Cell = Cell(shared: Shared, slots: Slots, history: seq<Poll>)

  datatype Sending = Sending(s: nat, message: Message)

  datatype World = World(
    run: bool,
    main: MainPhase,
    queue: seq<nat>,
    workers: seq<Phase>,
    cells: seq<Cell>,
    log: seq<Sending>,         // everything that was handed to the outside
    dropped: multiset<nat>     // references lost when a worker pops and then sees `run` false
  )

  datatype Event =
    | Signal                        // SIGINT or SIGTERM
    | MainGets | MainQueues | MainLeaves | MainJoins
    | Looks(w: nat) | FindsNothing(w: nat) | Pops(w: nat) | LooksAgain(w: nat)
    | TriesLock(w: nat, poll: Poll) // with what the outside will answer if the lock is taken
    | Advances(w: nat) | Sends(w: nat) | Unlocks(w: nat) | Puts(w: nat)

  ghost predicate ValidConfigs(cfgs: seq<Config>) { forall s :: 0 <= s < |cfgs| ==> cfgs[s].Valid() }

  function Start(cfgs: seq<Config>, threads: nat): World {
    World(true, Choosing(0), [], seq(threads, _ => Checking),
          seq(|cfgs|, s requires 0 <= s < |cfgs| => Cell(Shared(1, false, false), NothingKnown(cfgs[s]), [])),
          [], multiset{})
  }

  function At(st: World, w: nat, phase: Phase): World
    requires w < |st.workers|
  {
    st.(workers := st.workers[w := phase])
  }

  function WithShared(st: World, s: nat, shared: Shared): World
    requires s < |st.cells|
  {
    st.(cells := st.cells[s := st.cells[s].(shared := shared)])
  }

  /** The main thread and the signal handler. */
  function DoMain(st: World, e: Event): Option<World> {
    match e
    case Signal => Some(st.(run := false))
    case MainGets =>
      if st.main.Choosing? && st.run && st.main.i < |st.cells|
      then Some(WithShared(st, st.main.i, Gotten(st.cells[st.main.i].shared)).(main := InHand(st.main.i)))
      else None
    case MainQueues =>
      if st.main.InHand? && st.main.i < |st.cells|
      then Some(st.(queue := st.queue + [st.main.i], main := Choosing((st.main.i + 1) % |st.cells|)))
      else None
    case MainLeaves =>
      if st.main.Choosing? && !st.run then Some(st.(main := Joining)) else None
    case MainJoins =>
      if st.main.Joining? && forall w :: 0 <= w < |st.workers| ==> st.workers[w].Left?
      then Some(st.(main := Finished))
      else None
    case _ => None
  }

  /** A worker that has no lock. */
  function DoWorker(cfgs: seq<Config>, st: World, e: Event): Option<World> {
    match e
    case Looks(w) =>
      if w < |st.workers| && st.workers[w].Checking? then Some(At(st, w, if st.run then AtPop else Left)) else None
    case FindsNothing(w) =>
      if w < |st.workers| && st.workers[w].AtPop? && st.queue == [] then Some(At(st, w, Checking)) else None
    case Pops(w) =>
      if w < |st.workers| && st.workers[w].AtPop? && st.queue != []
      then Some(At(st, w, Popped(st.queue[0])).(queue := st.queue[1..]))
      else None
    case LooksAgain(w) =>
      if w < |st.workers| && st.workers[w].Popped? then
        var s := st.workers[w].s;
        Some(if st.run then At(st, w, Arriving(s)) else At(st, w, Checking).(dropped := st.dropped + multiset{s}))
      else None
    case TriesLock(w, poll) =>
      if w < |st.workers| && st.workers[w].Arriving? && st.workers[w].s < |st.cells| == |cfgs|
         && |poll.inputs| == |cfgs[st.workers[w].s].monitors| then
        var s := st.workers[w].s;
        var c := st.cells[s];
        if c.shared.locked then Some(At(st, w, Leaving(s)))
        else
          var taken := Cell(Locked(c.shared), c.slots, c.history + [poll]);
          Some(At(st, w, Working(s, poll, 0, [])).(cells := st.cells[s := taken]))
      else None
    case Puts(w) =>
      if w < |st.workers| && st.workers[w].Leaving? && st.workers[w].s < |st.cells|
      then Some(WithShared(At(st, w, AtPop), st.workers[w].s, PutBack(st.cells[st.workers[w].s].shared)))
      else None
    case _ => None
  }

  /** A worker that has the lock: one monitor after the other, each followed by
      the messages that it gave rise to, and then the lock is released. */
  function DoHolder(cfgs: seq<Config>, st: World, e: Event): Option<World>
    requires ValidConfigs(cfgs)
  {
    match e
    case Advances(w) =>
      if w < |st.workers| && st.workers[w].Working? && st.workers[w].s < |st.cells| == |cfgs| then
        var Working(s, poll, turn, pending) := st.workers[w];
        var cfg, c := cfgs[s], st.cells[s];
        if poll.ready && pending == [] && turn < |cfg.monitors| == |c.slots| == |poll.inputs| then
          var step := Step(cfg, c.slots, turn, poll.inputs[turn]);
          Some(At(st, w, Working(s, poll, turn + 1, step.sent)).(cells := st.cells[s := c.(slots := step.slots)]))
        else None
      else None
    case Sends(w) =>
      if w < |st.workers| && st.workers[w].Working? && st.workers[w].pending != [] then
        var Working(s, poll, turn, pending) := st.workers[w];
        Some(At(st, w, Working(s, poll, turn, pending[1..])).(log := st.log + [Sending(s, pending[0])]))
      else None
    case Unlocks(w) =>
      if w < |st.workers| && st.workers[w].Working? && st.workers[w].s < |st.cells| == |cfgs| then
        var Working(s, poll, turn, pending) := st.workers[w];
        if pending == [] && (!poll.ready || turn == |cfgs[s].monitors|)
        then Some(WithShared(At(st, w, Leaving(s)), s, Unlocked(st.cells[s].shared)))
        else None
      else None
    case _ => None
  }

  predicate IsMain(e: Event) { e.Signal? || e.MainGets? || e.MainQueues? || e.MainLeaves? || e.MainJoins? }

  predicate IsHolder(e: Event) { e.Advances? || e.Sends? || e.Unlocks? }

  /** One step; None if it is not possible now. */
  function Do(cfgs: seq<Config>, st: World, e: Event): Option<World>
    requires ValidConfigs(cfgs)
  {
    if IsMain(e) then DoMain(st, e)
    else if IsHolder(e) then DoHolder(cfgs, st, e)
    else DoWorker(cfgs, st, e)
  }

  /** The state after a sequence of steps, all of which are possible in turn. */
  function Execute(cfgs: seq<Config>, threads: nat, events: seq<Event>): Option<World>
    requires ValidConfigs(cfgs)
  {
    if events == [] then Some(Start(cfgs, threads))
    else
      match Execute(cfgs, threads, events[..|events| - 1])
      case None => None
      case Some(st) => Do(cfgs, st, events[|events| - 1])
  }

  // ---------- counting ----------

  /** The sensor that a worker holds a reference to. */
  function HeldBy(p: Phase): Option<nat> {
    match p
    case Popped(s) => Some(s)
    case Arriving(s) => Some(s)
    case Working(s, _, _, _) => Some(s)
    case Leaving(s) => Some(s)
    case _ => None
  }

  /** The sensor that a worker has locked. */
  function LockedBy(p: Phase): Option<nat> { if p.Working? then Some(p.s) else None }

  function Held(workers: seq<Phase>): seq<Option<nat>> {
    seq(|workers|, w requires 0 <= w < |workers| => HeldBy(workers[w]))
  }

  function Locking(workers: seq<Phase>): seq<Option<nat>> {
    seq(|workers|, w requires 0 <= w < |workers| => LockedBy(workers[w]))
  }

  function References(st: World, s: nat): nat {
    1 + multiset(st.queue)[s] + multiset(Held(st.workers))[Some(s)]
    + (if st.main == InHand(s) then 1 else 0) + st.dropped[s]
  }

  function One(b: bool): nat { if b then 1 else 0 }

  lemma CountAfterUpdate<T>(s: seq<T>, i: nat, v: T, x: T)
    requires i < |s|
    ensures multiset(s[i := v])[x] == multiset(s)[x] - One(s[i] == x) + One(v == x)
  {
  }

  lemma WorkerMoves(workers: seq<Phase>, w: nat, p: Phase, s: nat)
    requires w < |workers|
    ensures multiset(Held(workers[w := p]))[Some(s)] ==
            multiset(Held(workers))[Some(s)] - One(HeldBy(workers[w]) == Some(s)) + One(HeldBy(p) == Some(s))
    ensures multiset(Locking(workers[w := p]))[Some(s)] ==
            multiset(Locking(workers))[Some(s)] - One(LockedBy(workers[w]) == Some(s)) + One(LockedBy(p) == Some(s))
  {
    assert Held(workers[w := p]) == Held(workers)[w := HeldBy(p)];
    assert Locking(workers[w := p]) == Locking(workers)[w := LockedBy(p)];
    CountAfterUpdate(Held(workers), w, HeldBy(p), Some(s));
    CountAfterUpdate(Locking(workers), w, LockedBy(p), Some(s));
  }

  lemma Occurs<T>(s: seq<T>, i: nat)
    requires i < |s|
    ensures multiset(s)[s[i]] > 0
  {
    assert s[i] in multiset(s);
  }

  lemma OccursTwice<T>(s: seq<T>, i: nat, j: nat)
    requires i < j < |s| && s[i] == s[j]
    ensures multiset(s)[s[i]] >= 2
  {
    var a, b := s[..j], s[j..];
    assert s == a + b;
    assert a[i] in multiset(a) && b[0] in multiset(b);
  }

  // ---------- the invariant ----------

  /** The messages of one sensor. */
  function Of(log: seq<Sending>, s: nat): seq<Message> {
    if log == [] then []
    else
      var last := log[|log| - 1];
      Of(log[..|log| - 1], s) + if last.s == s then [last.message] else []
  }

  ghost predicate InRange(st: World) {
    && (forall k :: 0 <= k < |st.queue| ==> st.queue[k] < |st.cells|)
    && (forall w :: 0 <= w < |st.workers| && HeldBy(st.workers[w]).Some? ==> HeldBy(st.workers[w]).value < |st.cells|)
    && (st.main.InHand? ==> st.main.i < |st.cells|)
  }

  /** Every reference is accounted for. */
  ghost predicate CountedAt(st: World, s: nat) {
    s < |st.cells| && st.cells[s].shared.refcnt == References(st, s) && !st.cells[s].shared.destroyed
  }

  ghost predicate Counted(st: World) { forall s :: 0 <= s < |st.cells| ==> CountedAt(st, s) }

  /** A sensor is locked when, and only when, exactly one worker has its lock. */
  ghost predicate Exclusive(st: World) {
    forall s :: 0 <= s < |st.cells| ==> multiset(Locking(st.workers))[Some(s)] == One(st.cells[s].shared.locked)
  }

  /** Between critical sections: the polls so far, one after the other. */
  ghost predicate Settled(cfg: Config, c: Cell, sent: seq<Message>) {
    Follows(cfg, c.history, c.slots, sent)
  }

  /** Inside of one: all but the last, and then the first turns of the last. */
  ghost predicate Midway(cfg: Config, c: Cell, poll: Poll, turn: nat, pending: seq<Message>, sent: seq<Message>) {
    && ValidPolls(cfg, c.history) && c.history != [] && c.history[|c.history| - 1] == poll
    && turn <= |cfg.monitors| && (!poll.ready ==> turn == 0)
    && var before := Run(cfg, c.history[..|c.history| - 1]);
       var turns := Turns(cfg, before.slots, poll.inputs, turn);
       c.slots == turns.slots && sent + pending == before.sent + turns.sent
  }

  ghost predicate SequentialAt(cfgs: seq<Config>, st: World, s: nat)
    requires s < |cfgs| == |st.cells|
  {
    && (!st.cells[s].shared.locked ==> Settled(cfgs[s], st.cells[s], Of(st.log, s)))
    && forall w :: 0 <= w < |st.workers| && LockedBy(st.workers[w]) == Some(s) ==>
         Midway(cfgs[s], st.cells[s], st.workers[w].poll, st.workers[w].turn, st.workers[w].pending, Of(st.log, s))
  }

  ghost predicate Sequential(cfgs: seq<Config>, st: World) {
    |cfgs| == |st.cells| && forall s :: 0 <= s < |cfgs| ==> SequentialAt(cfgs, st, s)
  }

  /** The main thread only finishes after every worker has left. */
  ghost predicate JoinsAll(st: World) {
    st.main.Finished? ==> forall w :: 0 <= w < |st.workers| ==> st.workers[w].Left?
  }

  ghost predicate Inv(cfgs: seq<Config>, st: World) {
    ValidConfigs(cfgs) && JoinsAll(st) && InRange(st) && Counted(st) && Exclusive(st) && Sequential(cfgs, st)
  }

  // ---------- every step keeps it ----------

  /** The worker that takes the step, if it is not the main thread's. */
  function WorkerOf(e: Event): Option<nat> {
    match e
    case Looks(w) => Some(w)
    case FindsNothing(w) => Some(w)
    case Pops(w) => Some(w)
    case LooksAgain(w) => Some(w)
    case TriesLock(w, _) => Some(w)
    case Advances(w) => Some(w)
    case Sends(w) => Some(w)
    case Unlocks(w) => Some(w)
    case Puts(w) => Some(w)
    case _ => None
  }

  /** A step moves one worker at most. */
  lemma OneWorkerMoves(cfgs: seq<Config>, st: World, e: Event, s: nat)
    requires ValidConfigs(cfgs) && Do(cfgs, st, e).Some?
    ensures var after := Do(cfgs, st, e).value;
      match WorkerOf(e)
      case None => after.workers == st.workers
      case Some(w) =>
        && w < |st.workers| && |after.workers| == |st.workers|
        && (forall v :: 0 <= v < |st.workers| && v != w ==> after.workers[v] == st.workers[v])
        && multiset(Held(after.workers))[Some(s)] == multiset(Held(st.workers))[Some(s)]
             - One(HeldBy(st.workers[w]) == Some(s)) + One(HeldBy(after.workers[w]) == Some(s))
        && multiset(Locking(after.workers))[Some(s)] == multiset(Locking(st.workers))[Some(s)]
             - One(LockedBy(st.workers[w]) == Some(s)) + One(LockedBy(after.workers[w]) == Some(s))
  {
    if WorkerOf(e).Some? {
      var after, w := Do(cfgs, st, e).value, WorkerOf(e).value;
      assert after.workers == st.workers[w := after.workers[w]];
      WorkerMoves(st.workers, w, after.workers[w], s);
    }
  }

  lemma QueueMoves(queue: seq<nat>, s: nat, t: nat)
    ensures queue != [] ==> multiset(queue[1..])[t] == multiset(queue)[t] - One(queue[0] == t)
    ensures multiset(queue + [s])[t] == multiset(queue)[t] + One(s == t)
  {
    if queue != [] {
      assert queue == [queue[0]] + queue[1..];
    }
  }

  lemma {:induction false} JoinsStay(cfgs: seq<Config>, st: World, e: Event)
    requires ValidConfigs(cfgs) && JoinsAll(st) && Do(cfgs, st, e).Some?
    ensures JoinsAll(Do(cfgs, st, e).value)
  {
    hide Step;
  }

  lemma {:induction false} InRangeStays(cfgs: seq<Config>, st: World, e: Event)
    requires Inv(cfgs, st) && Do(cfgs, st, e).Some?
    ensures InRange(Do(cfgs, st, e).value) && |Do(cfgs, st, e).value.cells| == |st.cells|
  {
    hide Sequential, Step, Counted, Exclusive, JoinsAll;
  }

  lemma CountedStays(cfgs: seq<Config>, st: World, e: Event, s: nat)
    requires Inv(cfgs, st) && Do(cfgs, st, e).Some? && s < |st.cells| == |Do(cfgs, st, e).value.cells|
    ensures CountedAt(Do(cfgs, st, e).value, s)
  {
    hide Sequential, Step, Held, Locking, Exclusive, References, DoMain, DoWorker, DoHolder;
    OneWorkerMoves(cfgs, st, e, s);
    assert CountedAt(st, s);
    hide Counted;
    if IsMain(e) {
      MainCounts(st, e, s);
    } else if IsHolder(e) {
      HolderCountsNothing(cfgs, st, e, s);
    } else {
      WorkerCounts(cfgs, st, e, s);
    }
  }

  lemma MainCounts(st: World, e: Event, s: nat)
    requires DoMain(st, e).Some? && InRange(st) && s < |st.cells| && CountedAt(st, s)
    ensures CountedAt(DoMain(st, e).value, s)
  {
    hide Held;
    QueueMoves(st.queue, if st.main.InHand? then st.main.i else 0, s);
  }

  lemma WorkerCounts(cfgs: seq<Config>, st: World, e: Event, s: nat)
    requires DoWorker(cfgs, st, e).Some? && WorkerOf(e).Some? && s < |st.cells| && CountedAt(st, s)
    requires Shifts(st, DoWorker(cfgs, st, e).value, WorkerOf(e).value, s)
    ensures CountedAt(DoWorker(cfgs, st, e).value, s)
  {
    if e.Pops? {
      PopCounts(cfgs, st, e.w, s);
    } else if e.LooksAgain? {
      DropCounts(cfgs, st, e.w, s);
    } else if e.Puts? {
      PutCounts(cfgs, st, e.w, s);
    } else {
      hide Held;
      assert References(DoWorker(cfgs, st, e).value, s) == References(st, s);
    }
  }

  /** How the count of the workers that hold s changes when w moves. */
  ghost predicate Shifts(st: World, after: World, w: nat, s: nat) {
    && w < |st.workers| && |after.workers| == |st.workers|
    && multiset(Held(after.workers))[Some(s)] == multiset(Held(st.workers))[Some(s)]
         - One(HeldBy(st.workers[w]) == Some(s)) + One(HeldBy(after.workers[w]) == Some(s))
  }

  lemma PopCounts(cfgs: seq<Config>, st: World, w: nat, s: nat)
    requires DoWorker(cfgs, st, Pops(w)).Some? && s < |st.cells| && CountedAt(st, s)
    requires Shifts(st, DoWorker(cfgs, st, Pops(w)).value, w, s)
    ensures CountedAt(DoWorker(cfgs, st, Pops(w)).value, s)
  {
    hide Held;
    QueueMoves(st.queue, 0, s);
  }

  lemma DropCounts(cfgs: seq<Config>, st: World, w: nat, s: nat)
    requires DoWorker(cfgs, st, LooksAgain(w)).Some? && s < |st.cells| && CountedAt(st, s)
    requires Shifts(st, DoWorker(cfgs, st, LooksAgain(w)).value, w, s)
    ensures CountedAt(DoWorker(cfgs, st, LooksAgain(w)).value, s)
  {
    hide Held;
  }

  lemma PutCounts(cfgs: seq<Config>, st: World, w: nat, s: nat)
    requires DoWorker(cfgs, st, Puts(w)).Some? && s < |st.cells| && CountedAt(st, s)
    requires Shifts(st, DoWorker(cfgs, st, Puts(w)).value, w, s)
    ensures CountedAt(DoWorker(cfgs, st, Puts(w)).value, s)
  {
    hide Held;
    if st.workers[w].s == s {
      HolderCounts(st.workers, w);
    }
  }

  lemma HolderCountsNothing(cfgs: seq<Config>, st: World, e: Event, s: nat)
    requires ValidConfigs(cfgs)
    requires DoHolder(cfgs, st, e).Some? && WorkerOf(e).Some? && s < |st.cells| && CountedAt(st, s)
    requires Shifts(st, DoHolder(cfgs, st, e).value, WorkerOf(e).value, s)
    ensures CountedAt(DoHolder(cfgs, st, e).value, s)
  {
    hide Held, Step;
  }

  lemma HolderCounts(workers: seq<Phase>, w: nat)
    requires w < |workers| && HeldBy(workers[w]).Some?
    ensures multiset(Held(workers))[HeldBy(workers[w])] > 0
  {
    Occurs(Held(workers), w);
  }

  lemma LockerCounts(workers: seq<Phase>, w: nat)
    requires w < |workers| && workers[w].Working?
    ensures multiset(Locking(workers))[Some(workers[w].s)] > 0
  {
    Occurs(Locking(workers), w);
  }

  lemma ExclusiveStays(cfgs: seq<Config>, st: World, e: Event)
    requires Inv(cfgs, st) && Do(cfgs, st, e).Some?
    ensures Exclusive(Do(cfgs, st, e).value)
  {
    hide Sequential, Step, Held, Locking, Counted, InRange;
    var after := Do(cfgs, st, e).value;
    forall s | 0 <= s < |after.cells|
      ensures multiset(Locking(after.workers))[Some(s)] == One(after.cells[s].shared.locked)
    {
      OneWorkerMoves(cfgs, st, e, s);
      if e.Unlocks? {
        LockerCounts(st.workers, e.w);
      }
    }
  }

  lemma OfAppend(log: seq<Sending>, last: Sending, s: nat)
    ensures Of(log + [last], s) == Of(log, s) + if last.s == s then [last.message] else []
  {
    assert (log + [last])[..|log|] == log;
  }

  lemma SectionStarts(cfg: Config, c: Cell, poll: Poll, sent: seq<Message>)
    requires cfg.Valid() && Settled(cfg, c, sent) && |poll.inputs| == |cfg.monitors|
    ensures Midway(cfg, c.(history := c.history + [poll]), poll, 0, [], sent)
  {
    assert (c.history + [poll])[..|c.history|] == c.history;
  }

  lemma SectionAdvances(cfg: Config, c: Cell, poll: Poll, turn: nat, sent: seq<Message>)
    requires cfg.Valid() && Midway(cfg, c, poll, turn, [], sent) && poll.ready
    requires turn < |cfg.monitors| == |c.slots| == |poll.inputs|
    ensures var step := Step(cfg, c.slots, turn, poll.inputs[turn]);
      Midway(cfg, c.(slots := step.slots), poll, turn + 1, step.sent, sent)
  {
    hide Run, Turns, Step, ValidPolls;
    AllButLast(cfg, c.history);
    var before := Run(cfg, c.history[..|c.history| - 1]);
    NextTurn(cfg, before.slots, poll.inputs, turn);
    var turns, step := Turns(cfg, before.slots, poll.inputs, turn), Step(cfg, c.slots, turn, poll.inputs[turn]);
    SentExtends(sent, before.sent, turns.sent, step.sent);
  }

  lemma SentExtends(sent: seq<Message>, before: seq<Message>, turns: seq<Message>, more: seq<Message>)
    requires sent + [] == before + turns
    ensures sent + more == before + (turns + more)
  {
    assert sent + [] == sent;
  }

  lemma AllButLast(cfg: Config, polls: seq<Poll>)
    requires ValidPolls(cfg, polls) && polls != []
    ensures ValidPolls(cfg, polls[..|polls| - 1])
  {
  }

  lemma SectionSends(cfg: Config, c: Cell, poll: Poll, turn: nat, pending: seq<Message>, sent: seq<Message>)
    requires Midway(cfg, c, poll, turn, pending, sent) && pending != []
    ensures Midway(cfg, c, poll, turn, pending[1..], sent + [pending[0]])
  {
    assert sent + [pending[0]] + pending[1..] == sent + pending;
  }

  lemma SectionEnds(cfg: Config, c: Cell, poll: Poll, turn: nat, sent: seq<Message>)
    requires Midway(cfg, c, poll, turn, [], sent) && (poll.ready ==> turn == |cfg.monitors|)
    ensures Settled(cfg, c, sent)
  {
    assert sent + [] == sent;
    if !poll.ready {
      assert Turns(cfg, Run(cfg, c.history[..|c.history| - 1]).slots, poll.inputs, 0).sent == [];
    }
  }

  /** The lock of s is held by nobody but w, if w holds it, and by nobody at all
      if it is free. */
  lemma OneHolder(st: World, s: nat, v: nat, w: nat)
    requires Exclusive(st) && s < |st.cells| && v < |st.workers| && w < |st.workers|
    requires LockedBy(st.workers[v]) == Some(s)
    ensures st.cells[s].shared.locked
    ensures LockedBy(st.workers[w]) == Some(s) ==> v == w
  {
    var all := Locking(st.workers);
    assert all[v] == Some(s) && all[w] == LockedBy(st.workers[w]);
    Occurs(all, v);
    if v < w && all[w] == Some(s) {
      OccursTwice(all, v, w);
    } else if w < v && all[w] == Some(s) {
      OccursTwice(all, w, v);
    }
  }

  /** What concerns sensor s is as it was. */
  lemma Unconcerned(cfgs: seq<Config>, st: World, after: World, s: nat)
    requires s < |cfgs| == |st.cells| == |after.cells| && SequentialAt(cfgs, st, s)
    requires after.cells[s].slots == st.cells[s].slots && after.cells[s].history == st.cells[s].history
    requires after.cells[s].shared.locked == st.cells[s].shared.locked && Of(after.log, s) == Of(st.log, s)
    requires |after.workers| == |st.workers|
    requires forall v :: 0 <= v < |st.workers| ==>
               after.workers[v] == st.workers[v] || LockedBy(after.workers[v]) != Some(s)
    ensures SequentialAt(cfgs, after, s)
  {
    hide Run, Turns, Of, ValidPolls;
  }

  lemma SequentialStays(cfgs: seq<Config>, st: World, e: Event, s: nat)
    requires Inv(cfgs, st) && Do(cfgs, st, e).Some? && s < |cfgs| == |Do(cfgs, st, e).value.cells|
    ensures SequentialAt(cfgs, Do(cfgs, st, e).value, s)
  {
    assert SequentialAt(cfgs, st, s);
    hide Counted, Sequential, InRange, Step, Settled, Midway;
    if IsHolder(e) && st.workers[e.w].s == s {
      HolderKeepsOrder(cfgs, st, e);
    } else if e.TriesLock? && st.workers[e.w].s == s {
      LockKeepsOrder(cfgs, st, e.w, e.poll);
    } else {
      OthersKeepOrder(cfgs, st, e, s);
    }
  }

  lemma {:induction false} OthersKeepOrder(cfgs: seq<Config>, st: World, e: Event, s: nat)
    requires ValidConfigs(cfgs) && Do(cfgs, st, e).Some?
    requires s < |cfgs| == |st.cells| == |Do(cfgs, st, e).value.cells| && SequentialAt(cfgs, st, s)
    requires IsHolder(e) || e.TriesLock? ==> e.w < |st.workers| && LockOrAim(st.workers[e.w]) != Some(s)
    ensures SequentialAt(cfgs, Do(cfgs, st, e).value, s)
  {
    hide Step, Of, SequentialAt;
    var after := Do(cfgs, st, e).value;
    if e.Sends? {
      OfAppend(st.log, after.log[|st.log|], s);
    }
    Unconcerned(cfgs, st, after, s);
  }

  /** The sensor that a worker has locked or is about to try. */
  function LockOrAim(p: Phase): Option<nat> { if p.Working? || p.Arriving? then Some(p.s) else None }

  lemma LockKeepsOrder(cfgs: seq<Config>, st: World, w: nat, poll: Poll)
    requires ValidConfigs(cfgs) && Exclusive(st) && Do(cfgs, st, TriesLock(w, poll)).Some?
    requires |cfgs| == |st.cells| && SequentialAt(cfgs, st, st.workers[w].s)
    ensures SequentialAt(cfgs, Do(cfgs, st, TriesLock(w, poll)).value, st.workers[w].s)
  {
    var s := st.workers[w].s;
    if st.cells[s].shared.locked {
      hide SequentialAt;
      Unconcerned(cfgs, st, Do(cfgs, st, TriesLock(w, poll)).value, s);
    } else {
      forall v | 0 <= v < |st.workers|
        ensures LockedBy(st.workers[v]) != Some(s)
      {
        if LockedBy(st.workers[v]) == Some(s) {
          OneHolder(st, s, v, v);
        }
      }
      LockIsTaken(cfgs, st, w, poll);
    }
  }

  lemma LockIsTaken(cfgs: seq<Config>, st: World, w: nat, poll: Poll)
    requires ValidConfigs(cfgs) && Do(cfgs, st, TriesLock(w, poll)).Some?
    requires |cfgs| == |st.cells| && SequentialAt(cfgs, st, st.workers[w].s)
    requires !st.cells[st.workers[w].s].shared.locked
    requires forall v :: 0 <= v < |st.workers| ==> LockedBy(st.workers[v]) != Some(st.workers[w].s)
    ensures SequentialAt(cfgs, Do(cfgs, st, TriesLock(w, poll)).value, st.workers[w].s)
  {
    hide Of, Settled, Midway;
    var s := st.workers[w].s;
    SharedIsNoMatter(cfgs[s], st.cells[s], st.cells[s].(shared := Locked(st.cells[s].shared)), Of(st.log, s));
    SectionStarts(cfgs[s], st.cells[s].(shared := Locked(st.cells[s].shared)), poll, Of(st.log, s));
  }

  lemma {:induction false} HolderKeepsOrder(cfgs: seq<Config>, st: World, e: Event)
    requires ValidConfigs(cfgs) && Exclusive(st) && IsHolder(e) && DoHolder(cfgs, st, e).Some?
    requires |cfgs| == |st.cells| && st.workers[e.w].s < |cfgs| && SequentialAt(cfgs, st, st.workers[e.w].s)
    ensures SequentialAt(cfgs, DoHolder(cfgs, st, e).value, st.workers[e.w].s)
  {
    var w := e.w;
    var s := st.workers[w].s;
    var after := DoHolder(cfgs, st, e).value;
    hide Of, Midway, Settled, Step;
    forall v | 0 <= v < |after.workers| && LockedBy(after.workers[v]) == Some(s)
      ensures v == w
    {
      OneHolder(st, s, v, w);
    }
    OneHolder(st, s, w, w);
    HolderProceeds(cfgs, st, e);
  }

  /** Worker w is inside of its critical section of sensor s, or right behind it. */
  ghost predicate HolderAt(cfgs: seq<Config>, st: World, w: nat, s: nat)
    requires s < |cfgs| == |st.cells| && w < |st.workers|
  {
    match st.workers[w]
    case Working(t, poll, turn, pending) => t == s && Midway(cfgs[s], st.cells[s], poll, turn, pending, Of(st.log, s))
    case _ => Settled(cfgs[s], st.cells[s], Of(st.log, s))
  }

  lemma HolderProceeds(cfgs: seq<Config>, st: World, e: Event)
    requires ValidConfigs(cfgs) && IsHolder(e) && DoHolder(cfgs, st, e).Some?
    requires st.workers[e.w].s < |cfgs| == |st.cells|
    requires HolderAt(cfgs, st, e.w, st.workers[e.w].s)
    ensures HolderAt(cfgs, DoHolder(cfgs, st, e).value, e.w, st.workers[e.w].s)
  {
    hide HolderAt;
    if e.Advances? {
      HolderAdvances(cfgs, st, e.w);
    } else if e.Sends? {
      HolderSends(cfgs, st, e.w);
    } else {
      HolderUnlocks(cfgs, st, e.w);
    }
  }

  lemma HolderAdvances(cfgs: seq<Config>, st: World, w: nat)
    requires ValidConfigs(cfgs) && DoHolder(cfgs, st, Advances(w)).Some? && st.workers[w].s < |cfgs| == |st.cells|
    requires HolderAt(cfgs, st, w, st.workers[w].s)
    ensures HolderAt(cfgs, DoHolder(cfgs, st, Advances(w)).value, w, st.workers[w].s)
  {
    hide Of, Midway, Settled, Step;
    var Working(s, poll, turn, pending) := st.workers[w];
    SectionAdvances(cfgs[s], st.cells[s], poll, turn, Of(st.log, s));
  }

  lemma HolderSends(cfgs: seq<Config>, st: World, w: nat)
    requires ValidConfigs(cfgs) && DoHolder(cfgs, st, Sends(w)).Some? && st.workers[w].s < |cfgs| == |st.cells|
    requires HolderAt(cfgs, st, w, st.workers[w].s)
    ensures HolderAt(cfgs, DoHolder(cfgs, st, Sends(w)).value, w, st.workers[w].s)
  {
    hide Of, Midway, Settled;
    var Working(s, poll, turn, pending) := st.workers[w];
    SectionSends(cfgs[s], st.cells[s], poll, turn, pending, Of(st.log, s));
    OfAppend(st.log, Sending(s, pending[0]), s);
  }

  lemma HolderUnlocks(cfgs: seq<Config>, st: World, w: nat)
    requires ValidConfigs(cfgs) && DoHolder(cfgs, st, Unlocks(w)).Some? && st.workers[w].s < |cfgs| == |st.cells|
    requires HolderAt(cfgs, st, w, st.workers[w].s)
    ensures HolderAt(cfgs, DoHolder(cfgs, st, Unlocks(w)).value, w, st.workers[w].s)
  {
    hide Of, Midway, Settled;
    var Working(s, poll, turn, pending) := st.workers[w];
    var after := DoHolder(cfgs, st, Unlocks(w)).value;
    SectionEnds(cfgs[s], st.cells[s], poll, turn, Of(st.log, s));
    SharedIsNoMatter(cfgs[s], st.cells[s], after.cells[s], Of(st.log, s));
  }

  lemma SharedIsNoMatter(cfg: Config, c: Cell, d: Cell, sent: seq<Message>)
    requires Settled(cfg, c, sent) && c.slots == d.slots && c.history == d.history
    ensures Settled(cfg, d, sent)
  {
  }

  /** The invariant holds at the start, and every step keeps it. */
  lemma StartIsInvariant(cfgs: seq<Config>, threads: nat)
    requires ValidConfigs(cfgs)
    ensures Inv(cfgs, Start(cfgs, threads))
  {
    var st := Start(cfgs, threads);
    forall s: nat
      ensures multiset(Held(st.workers))[Some(s)] == 0 && multiset(Locking(st.workers))[Some(s)] == 0
    {
      assert Some(s) !in Held(st.workers) && Some(s) !in Locking(st.workers);
    }
  }

  lemma StepKeepsInvariant(cfgs: seq<Config>, st: World, e: Event)
    requires Inv(cfgs, st) && Do(cfgs, st, e).Some?
    ensures Inv(cfgs, Do(cfgs, st, e).value)
  {
    hide Do, SequentialAt, CountedAt, JoinsAll;
    var after := Do(cfgs, st, e).value;
    JoinsStay(cfgs, st, e);
    InRangeStays(cfgs, st, e);
    ExclusiveStays(cfgs, st, e);
    forall s | 0 <= s < |after.cells|
      ensures CountedAt(after, s) && SequentialAt(cfgs, after, s)
    {
      CountedStays(cfgs, st, e, s);
      SequentialStays(cfgs, st, e, s);
    }
  }

  lemma {:induction false} ExecutionKeepsInvariant(cfgs: seq<Config>, threads: nat, events: seq<Event>)
    requires ValidConfigs(cfgs) && Execute(cfgs, threads, events).Some?
    ensures Inv(cfgs, Execute(cfgs, threads, events).value)
    decreases |events|
  {
    if events == [] {
      StartIsInvariant(cfgs, threads);
    } else {
      hide Inv, Do;
      var init := events[..|events| - 1];
      ExecutionKeepsInvariant(cfgs, threads, init);
      StepKeepsInvariant(cfgs, Execute(cfgs, threads, init).value, events[|events| - 1]);
    }
  }

  // ---------- what that means ----------

  /** In every reachable state, at most one worker processes a given sensor. */
  lemma {:induction false} AtMostOneProcesses(cfgs: seq<Config>, threads: nat, events: seq<Event>, st: World, v: nat,
                                              w: nat)
    requires ValidConfigs(cfgs) && Execute(cfgs, threads, events) == Some(st)
    requires v < |st.workers| && w < |st.workers| && st.workers[v].Working? && st.workers[w].Working?
    ensures st.workers[v].s == st.workers[w].s ==> v == w
  {
    ExecutionKeepsInvariant(cfgs, threads, events);
    assert HeldBy(st.workers[v]).Some?;
    OneHolder(st, st.workers[v].s, v, w);
  }

  /** In every reachable state, the reference count of a sensor is one for the
      configuration, plus its occurrences in the queue, plus the workers that
      hold it, plus one if the main thread is about to queue it, plus the
      references that were dropped. So a sensor that is queued, held or locked
      is referenced at least twice, and none is ever destroyed. */
  lemma {:induction false} ReferencesAreConserved(cfgs: seq<Config>, threads: nat, events: seq<Event>, st: World,
                                                  s: nat)
    requires ValidConfigs(cfgs) && s < |cfgs| && Execute(cfgs, threads, events) == Some(st)
    ensures |st.cells| == |cfgs| && !st.cells[s].shared.destroyed
    ensures st.cells[s].shared.refcnt == References(st, s)
    ensures s in st.queue || st.cells[s].shared.locked
            || (exists w :: 0 <= w < |st.workers| && HeldBy(st.workers[w]) == Some(s)) ==>
              st.cells[s].shared.refcnt >= 2
  {
    ExecutionKeepsInvariant(cfgs, threads, events);
    assert CountedAt(st, s) && SequentialAt(cfgs, st, s);
    if st.cells[s].shared.locked {
      LockedIsHeld(st, s);
    }
    if w :| 0 <= w < |st.workers| && HeldBy(st.workers[w]) == Some(s) {
      HolderCounts(st.workers, w);
    }
  }

  lemma {:induction false} LockedIsHeld(st: World, s: nat)
    requires Exclusive(st) && s < |st.cells| && st.cells[s].shared.locked
    ensures exists w :: 0 <= w < |st.workers| && HeldBy(st.workers[w]) == Some(s)
  {
    assert Some(s) in multiset(Locking(st.workers));
    var w :| 0 <= w < |st.workers| && Locking(st.workers)[w] == Some(s);
    assert HeldBy(st.workers[w]) == Some(s);
  }

  /** When the main thread has joined every worker, the references that remain
      are that of the configuration, those of sensors left in the queue, and
      those that were dropped. */
  lemma {:induction false} ReferencesAtExit(cfgs: seq<Config>, threads: nat, events: seq<Event>, st: World, s: nat)
    requires ValidConfigs(cfgs) && s < |cfgs| && Execute(cfgs, threads, events) == Some(st) && st.main.Finished?
    ensures |st.cells| == |cfgs| && st.cells[s].shared.refcnt == 1 + multiset(st.queue)[s] + st.dropped[s]
  {
    ExecutionKeepsInvariant(cfgs, threads, events);
    NoneHeld(st, s);
    assert CountedAt(st, s);
  }

  lemma {:induction false} NoneHeld(st: World, s: nat)
    requires forall w :: 0 <= w < |st.workers| ==> st.workers[w].Left?
    ensures multiset(Held(st.workers))[Some(s)] == 0
  {
    assert Some(s) !in Held(st.workers);
  }

  lemma {:induction false} ExecuteOneMore(cfgs: seq<Config>, threads: nat, events: seq<Event>, e: Event, st: World,
                                          after: World)
    requires ValidConfigs(cfgs) && Execute(cfgs, threads, events) == Some(st) && Do(cfgs, st, e) == Some(after)
    ensures Execute(cfgs, threads, events + [e]) == Some(after)
  {
    assert (events + [e])[..|events|] == events;
    hide Do;
  }

  /** The program can come to its end: here before anything is queued. */
  lemma {:induction false} ExitCanBeReached(cfgs: seq<Config>)
    requires ValidConfigs(cfgs)
    ensures exists events, st :: Execute(cfgs, 1, events) == Some(st) && st.main.Finished?
  {
    var s0 := Start(cfgs, 1);
    var s1 := s0.(run := false);
    var s2 := At(s1, 0, Left);
    var s3 := s2.(main := Joining);
    var s4 := s3.(main := Finished);
    var e0, e1, e2 := [Signal], [Signal, Looks(0)], [Signal, Looks(0), MainLeaves];
    assert Do(cfgs, s0, Signal) == Some(s1) && Do(cfgs, s1, Looks(0)) == Some(s2);
    assert Do(cfgs, s2, MainLeaves) == Some(s3) && Do(cfgs, s3, MainJoins) == Some(s4);
    hide Do, Start;
    assert [] + [Signal] == e0 && e0 + [Looks(0)] == e1 && e1 + [MainLeaves] == e2;
    ExecuteOneMore(cfgs, 1, [], Signal, s0, s1);
    ExecuteOneMore(cfgs, 1, e0, Looks(0), s1, s2);
    ExecuteOneMore(cfgs, 1, e1, MainLeaves, s2, s3);
    ExecuteOneMore(cfgs, 1, e2, MainJoins, s3, s4);
  }

  /** Worker interleavings refine a sequential history. Whatever the order of the
      steps of any number of workers, a sensor that is not being processed has
      the last known values, and has sent the messages, of a plain run over the
      polls in the order in which its lock was taken. */
  lemma {:induction false} InterleavingsAreSequential(cfgs: seq<Config>, threads: nat, events: seq<Event>, st: World,
                                                      s: nat)
    requires ValidConfigs(cfgs) && s < |cfgs| && Execute(cfgs, threads, events) == Some(st)
    ensures |st.cells| == |cfgs|
    ensures !st.cells[s].shared.locked ==> Follows(cfgs[s], st.cells[s].history, st.cells[s].slots, Of(st.log, s))
  {
    ExecutionKeepsInvariant(cfgs, threads, events);
    assert SequentialAt(cfgs, st, s);
  }

  /** And so a consumer of the interleaved messages of all sensors loses nothing
      of any of them. */
  lemma {:induction false} InterleavingsAreLossless(cfgs: seq<Config>, threads: nat, events: seq<Event>, st: World,
                                                    s: nat)
    requires ValidConfigs(cfgs) && s < |cfgs| && Execute(cfgs, threads, events) == Some(st)
    ensures |st.cells| == |cfgs|
    ensures !st.cells[s].shared.locked ==> Deduplication.Held(cfgs[s], st.cells[s].slots, Consume(map[], Of(st.log, s)))
  {
    InterleavingsAreSequential(cfgs, threads, events, st, s);
    if !st.cells[s].shared.locked {
      RunIsLossless(cfgs[s], st.cells[s].history);
    }
  }
}
