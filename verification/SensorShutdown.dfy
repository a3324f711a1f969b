/** How the program comes to its end once it has been signalled (main.c). */
module SensorShutdown {
  import opened Wrappers
  import opened Numbers
  import opened Polling
  import opened SensorWorkers

  /** How far a worker is from having left. */
  function Rank(p: Phase): nat {
    match p
    case Arriving(_) => 6
    case Working(_, _, _, _) => 5
    case Leaving(_) => 4
    case AtPop => 3
    case Popped(_) => 2
    case Checking => 1
    case Left => 0
  }

  /** While it works: the turns and then the messages that it has before it. */
  function TurnsLeft(cfgs: seq<Config>, p: Phase): nat {
    if p.Working? && p.s < |cfgs| && p.poll.ready && p.turn <= |cfgs[p.s].monitors|
    then |cfgs[p.s].monitors| - p.turn else 0
  }

  function MessagesLeft(p: Phase): nat { if p.Working? then |p.pending| else 0 }

  predicate IsNearer(cfgs: seq<Config>, p: Phase, q: Phase) {
    || Rank(p) < Rank(q)
    || (Rank(p) == Rank(q) && TurnsLeft(cfgs, p) < TurnsLeft(cfgs, q))
    || (Rank(p) == Rank(q) && TurnsLeft(cfgs, p) == TurnsLeft(cfgs, q) && MessagesLeft(p) < MessagesLeft(q))
  }

  /** After the signal each step of a worker takes it nearer to its end, so that no
      worker can take more than a bounded number of them; whatever it has in hand
      then is the last that it processes. */
  lemma StepNearsExit(cfgs: seq<Config>, st: World, e: Event, w: nat)
    requires ValidConfigs(cfgs) && Do(cfgs, st, e).Some? && !st.run && WorkerOf(e) == Some(w)
    ensures var after := Do(cfgs, st, e).value;
      w < |st.workers| == |after.workers| && IsNearer(cfgs, after.workers[w], st.workers[w])
  {
    hide Step;
  }

  /** A worker goes back to the loop in which it looks at `run` exactly when it finds
      the queue empty, or has taken a sensor out of it after the signal; and then,
      and only then, a reference is lost. */
  lemma GoesBackIff(cfgs: seq<Config>, st: World, e: Event, w: nat)
    requires ValidConfigs(cfgs) && Do(cfgs, st, e).Some? && w < |st.workers|
    ensures var after := Do(cfgs, st, e).value;
      && w < |after.workers|
      && (after.workers[w].Checking? <==>
            || (st.workers[w].Checking? && e != Looks(w))
            || e == FindsNothing(w) || (e == LooksAgain(w) && !st.run))
      && after.dropped == if e.LooksAgain? && !st.run then st.dropped + multiset{st.workers[e.w].s} else st.dropped
  {
    hide Step;
  }

  /** And it can take one, whatever the others do, until it has left. */
  lemma WorkerCanGoOn(cfgs: seq<Config>, st: World, w: nat) returns (e: Event)
    requires Inv(cfgs, st) && w < |st.workers| && !st.workers[w].Left?
    ensures WorkerOf(e) == Some(w) && Do(cfgs, st, e).Some?
  {
    hide Step, Turns, Run, Counted, Exclusive, JoinsAll;
    var p := st.workers[w];
    match p {
      case Checking => e := Looks(w);
      case AtPop => e := if st.queue == [] then FindsNothing(w) else Pops(w);
      case Popped(_) => e := LooksAgain(w);
      case Arriving(s) =>
        assert HeldBy(p) == Some(s);
        e := TriesLock(w, Poll(false, seq(|cfgs[s].monitors|, _ => Input("", NaN, 0))));
      case Working(s, poll, turn, pending) =>
        assert HeldBy(p) == Some(s) && LockedBy(p) == Some(s);
        assert SequentialAt(cfgs, st, s);
        e := if pending != [] then Sends(w)
             else if poll.ready && turn < |cfgs[s].monitors| then Advances(w)
             else Unlocks(w);
      case Leaving(s) =>
        assert HeldBy(p) == Some(s);
        e := Puts(w);
    }
  }

  ghost predicate OthersAsBefore(st: World, after: World, w: nat) {
    && |after.workers| == |st.workers| && after.main == st.main && after.run == st.run
    && forall v :: 0 <= v < |st.workers| && v != w ==> after.workers[v] == st.workers[v]
  }

  lemma WorkerStepsAlone(cfgs: seq<Config>, st: World, e: Event, w: nat)
    requires ValidConfigs(cfgs) && Do(cfgs, st, e).Some? && WorkerOf(e) == Some(w)
    ensures OthersAsBefore(st, Do(cfgs, st, e).value, w)
  {
    hide Step;
    OneWorkerMoves(cfgs, st, e, 0);
  }

  /** So a worker can be brought to its end by steps of its own. */
  lemma {:induction false} WorkerCanLeave(cfgs: seq<Config>, threads: nat, events: seq<Event>, st: World, w: nat)
    returns (more: seq<Event>, after: World)
    requires ValidConfigs(cfgs) && Execute(cfgs, threads, events) == Some(st) && !st.run && w < |st.workers|
    ensures Execute(cfgs, threads, events + more) == Some(after) && OthersAsBefore(st, after, w)
    ensures after.workers[w].Left?
    decreases Rank(st.workers[w]), TurnsLeft(cfgs, st.workers[w]), MessagesLeft(st.workers[w])
  {
    hide Execute, Do, Inv;
    if st.workers[w].Left? {
      more, after := [], st;
      assert events + more == events;
    } else {
      ExecutionKeepsInvariant(cfgs, threads, events);
      var e := WorkerCanGoOn(cfgs, st, w);
      var next := Do(cfgs, st, e).value;
      StepNearsExit(cfgs, st, e, w);
      WorkerStepsAlone(cfgs, st, e, w);
      ExecuteOneMore(cfgs, threads, events, e, st, next);
      var rest;
      rest, after := WorkerCanLeave(cfgs, threads, events + [e], next, w);
      more := [e] + rest;
      assert events + [e] + rest == events + more;
    }
  }

  lemma {:induction false} AllCanLeave(cfgs: seq<Config>, threads: nat, events: seq<Event>, st: World, n: nat)
    returns (more: seq<Event>, after: World)
    requires ValidConfigs(cfgs) && Execute(cfgs, threads, events) == Some(st) && !st.run && n <= |st.workers|
    ensures Execute(cfgs, threads, events + more) == Some(after)
    ensures |after.workers| == |st.workers| && after.main == st.main && !after.run
    ensures forall w :: 0 <= w < n ==> after.workers[w].Left?
    decreases n
  {
    hide Execute, Do;
    if n == 0 {
      more, after := [], st;
      assert events + more == events;
    } else {
      var first, mid := AllCanLeave(cfgs, threads, events, st, n - 1);
      var rest;
      rest, after := WorkerCanLeave(cfgs, threads, events + first, mid, n - 1);
      more := first + rest;
      assert events + first + rest == events + more;
    }
  }

  /** From wherever a run has got to, the program can be brought to its end, with
      every worker joined. */
  lemma {:induction false} EveryRunCanEnd(cfgs: seq<Config>, threads: nat, events: seq<Event>)
    requires ValidConfigs(cfgs) && Execute(cfgs, threads, events).Some?
    ensures exists more, after :: Execute(cfgs, threads, events + more) == Some(after) && after.main.Finished?
  {
    hide Execute;
    var s0 := Execute(cfgs, threads, events).value;
    var s1 := s0.(run := false);
    ExecuteOneMore(cfgs, threads, events, Signal, s0, s1);
    var e1 := events + [Signal];
    var rest, s2 := AllCanLeave(cfgs, threads, e1, s1, |s1.workers|);
    var last, s3 := MainCanEnd(cfgs, threads, e1 + rest, s2);
    var more := [Signal] + rest + last;
    assert e1 + rest + last == events + more;
  }

  lemma MainCanEnd(cfgs: seq<Config>, threads: nat, events: seq<Event>, st: World)
    returns (more: seq<Event>, after: World)
    requires ValidConfigs(cfgs) && Execute(cfgs, threads, events) == Some(st) && !st.run
    requires forall w :: 0 <= w < |st.workers| ==> st.workers[w].Left?
    ensures Execute(cfgs, threads, events + more) == Some(after) && after.main.Finished?
    decreases match st.main case InHand(_) => 3 case Choosing(_) => 2 case Joining => 1 case Finished => 0
  {
    hide Execute;
    if st.main.Finished? {
      more, after := [], st;
      assert events + more == events;
    } else {
      ExecutionKeepsInvariant(cfgs, threads, events);
      assert InRange(st);
      var e := match st.main case InHand(_) => MainQueues case Choosing(_) => MainLeaves case _ => MainJoins;
      var next := Do(cfgs, st, e).value;
      hide Do, Inv;
      ExecuteOneMore(cfgs, threads, events, e, st, next);
      var rest;
      rest, after := MainCanEnd(cfgs, threads, events + [e], next);
      more := [e] + rest;
      assert events + [e] + rest == events + more;
    }
  }
}
