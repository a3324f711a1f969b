/** In which order sensors are queued and handed out (main.c). */
module SensorQueue {
  import opened Wrappers
  import opened Polling
  import opened SensorWorkers

  /** What a step appends to the queue. */
  function Appended(before: World, after: World): seq<nat> {
    if |after.queue| > |before.queue| then after.queue[|before.queue|..] else []
  }

  /** What a step hands to a worker. */
  function HandedOut(after: World, e: Event): seq<nat> {
    if e.Pops? && e.w < |after.workers| && HeldBy(after.workers[e.w]).Some? then [HeldBy(after.workers[e.w]).value]
    else []
  }

  /** All that was queued in a run, in order. */
  ghost function Queued(cfgs: seq<Config>, threads: nat, events: seq<Event>): seq<nat>
    requires ValidConfigs(cfgs)
  {
    if events == [] || Execute(cfgs, threads, events).None? then []
    else
      var init := events[..|events| - 1];
      Queued(cfgs, threads, init)
      + Appended(Execute(cfgs, threads, init).value, Execute(cfgs, threads, events).value)
  }

  /** All that workers were given in a run, in order. */
  ghost function Given(cfgs: seq<Config>, threads: nat, events: seq<Event>): seq<nat>
    requires ValidConfigs(cfgs)
  {
    if events == [] || Execute(cfgs, threads, events).None? then []
    else
      Given(cfgs, threads, events[..|events| - 1])
      + HandedOut(Execute(cfgs, threads, events).value, events[|events| - 1])
  }

  /** The sensors in turn, over and over. */
  ghost predicate InTurn(queued: seq<nat>, n: nat) {
    n > 0 ==> forall k :: 0 <= k < |queued| ==> queued[k] == k % n
  }

  /** Where the loop over the sensors is after so many rounds. */
  ghost predicate LoopIsAt(st: World, queued: nat, n: nat) {
    && (n == 0 ==> queued == 0)
    && (n > 0 && (st.main.Choosing? || st.main.InHand?) ==> st.main.i == queued % n)
  }

  /** Counting on: either within a round, or into the next one. */
  lemma NextInTurn(q: nat, n: nat)
    requires n > 0
    ensures (q + 1) % n == (if q % n + 1 == n then 0 else q % n + 1) == (q % n + 1) % n
    ensures (q + 1) / n == q / n + (if q % n + 1 == n then 1 else 0)
  {
    var k, r := q / n, q % n;
    assert q == n * k + r;
    if r + 1 == n {
      assert n * (k + 1) == n * k + n by { Distributes(n, k, 1); }
      DivisionIsUnique(q + 1, n, k + 1, 0);
      DivisionIsUnique(n, n, 1, 0);
    } else {
      DivisionIsUnique(q + 1, n, k, r + 1);
      DivisionIsUnique(r + 1, n, 0, r + 1);
    }
  }

  lemma DivisionIsUnique(x: nat, n: nat, k: nat, r: nat)
    requires r < n && x == n * k + r
    ensures x / n == k && x % n == r
  {
    var l, d := x / n, x / n - k;
    assert x == n * l + x % n;
    Distributes(n, k, d);
    if d >= 1 {
      Distributes(n, 1, d - 1);
      NoLess(n, d - 1);
    }
  }

  lemma Distributes(n: int, a: int, b: int)
    ensures n * (a + b) == n * a + n * b
  {
  }

  lemma NoLess(n: nat, d: nat)
    ensures n * d >= 0
  {
  }

  lemma StepQueues(cfgs: seq<Config>, st: World, e: Event, queued: seq<nat>)
    requires ValidConfigs(cfgs) && Do(cfgs, st, e).Some? && |cfgs| == |st.cells|
    requires InTurn(queued, |cfgs|) && LoopIsAt(st, |queued|, |cfgs|)
    ensures var after := Do(cfgs, st, e).value;
      var more := queued + Appended(st, after);
      && |after.cells| == |cfgs| && InTurn(more, |cfgs|) && LoopIsAt(after, |more|, |cfgs|)
      && |Appended(st, after)| == (if e.MainQueues? then 1 else 0)
      && st.queue + Appended(st, after) == HandedOut(after, e) + after.queue
  {
    hide DoMain, DoWorker, DoHolder, InTurn, LoopIsAt;
    if IsMain(e) {
      MainQueuesNext(st, e, queued, |cfgs|);
    } else {
      OthersQueueNothing(cfgs, st, e);
      assert queued + [] == queued;
      MainStays(st, Do(cfgs, st, e).value, |queued|, |cfgs|);
    }
  }

  lemma MainQueuesNext(st: World, e: Event, queued: seq<nat>, n: nat)
    requires IsMain(e) && DoMain(st, e).Some? && n == |st.cells| && InTurn(queued, n) && LoopIsAt(st, |queued|, n)
    ensures var after := DoMain(st, e).value;
      var more := queued + Appended(st, after);
      && |after.cells| == n && InTurn(more, n) && LoopIsAt(after, |more|, n)
      && |Appended(st, after)| == (if e.MainQueues? then 1 else 0)
      && st.queue + Appended(st, after) == HandedOut(after, e) + after.queue
  {
    if n > 0 {
      NextInTurn(|queued|, n);
    }
  }

  lemma OthersQueueNothing(cfgs: seq<Config>, st: World, e: Event)
    requires ValidConfigs(cfgs) && Do(cfgs, st, e).Some? && !IsMain(e)
    ensures var after := Do(cfgs, st, e).value;
      && |after.cells| == |st.cells| && after.main == st.main && Appended(st, after) == []
      && st.queue == HandedOut(after, e) + after.queue
  {
    hide Step;
  }

  lemma MainStays(st: World, after: World, queued: nat, n: nat)
    requires LoopIsAt(st, queued, n) && after.main == st.main
    ensures LoopIsAt(after, queued, n)
  {
  }

  /** What is queued in a run is the sensors in turn, from the first one on, one for
      each time that the main thread gets to queue; and what workers are given is
      that, as far as the queue has been emptied. */
  lemma {:induction false} SensorsAreQueuedInTurn(cfgs: seq<Config>, threads: nat, events: seq<Event>, st: World)
    requires ValidConfigs(cfgs) && Execute(cfgs, threads, events) == Some(st)
    ensures InTurn(Queued(cfgs, threads, events), |cfgs|)
    ensures |Queued(cfgs, threads, events)| == multiset(events)[MainQueues]
    ensures Queued(cfgs, threads, events) == Given(cfgs, threads, events) + st.queue
    ensures |st.cells| == |cfgs| && LoopIsAt(st, |Queued(cfgs, threads, events)|, |cfgs|)
    decreases |events|
  {
    if events != [] {
      hide Do, Execute, Queued, Given, InTurn, LoopIsAt, Appended, HandedOut;
      var init, e := events[..|events| - 1], events[|events| - 1];
      OneMoreStep(cfgs, threads, events);
      var before := Execute(cfgs, threads, init).value;
      SensorsAreQueuedInTurn(cfgs, threads, init, before);
      StepQueues(cfgs, before, e, Queued(cfgs, threads, init));
      Regroup(Given(cfgs, threads, init), before.queue, Appended(before, st), HandedOut(st, e), st.queue);
    }
  }

  lemma Regroup(given: seq<nat>, queue: seq<nat>, appended: seq<nat>, handed: seq<nat>, after: seq<nat>)
    requires queue + appended == handed + after
    ensures given + queue + appended == given + handed + after
  {
    assert given + queue + appended == given + (queue + appended);
    assert given + handed + after == given + (handed + after);
  }

  lemma OneMoreStep(cfgs: seq<Config>, threads: nat, events: seq<Event>)
    requires ValidConfigs(cfgs) && events != [] && Execute(cfgs, threads, events).Some?
    ensures var init, e := events[..|events| - 1], events[|events| - 1];
      var before, after := Execute(cfgs, threads, init), Execute(cfgs, threads, events).value;
      && before.Some? && Do(cfgs, before.value, e) == Some(after)
      && Queued(cfgs, threads, events) == Queued(cfgs, threads, init) + Appended(before.value, after)
      && Given(cfgs, threads, events) == Given(cfgs, threads, init) + HandedOut(after, e)
      && multiset(events)[MainQueues] == multiset(init)[MainQueues] + if e.MainQueues? then 1 else 0
  {
    hide Do, Appended, HandedOut;
    assert events == events[..|events| - 1] + [events[|events| - 1]];
  }

  /** How often sensor s comes in the first k places. */
  function Times(queued: seq<nat>, s: nat): nat { multiset(queued)[s] }

  lemma {:induction false} TimesInTurn(queued: seq<nat>, n: nat, s: nat)
    requires n > 0 && InTurn(queued, n) && s < n
    ensures Times(queued, s) == |queued| / n + if s < |queued| % n then 1 else 0
    decreases |queued|
  {
    if queued != [] {
      hide Times;
      var k := |queued| - 1;
      TimesInTurn(queued[..k], n, s);
      TimesOneMore(queued, s);
      NextInTurn(k, n);
    }
  }

  lemma TimesOneMore(queued: seq<nat>, s: nat)
    requires queued != []
    ensures var k := |queued| - 1; Times(queued, s) == Times(queued[..k], s) + if queued[k] == s then 1 else 0
  {
    assert queued == queued[..|queued| - 1] + [queued[|queued| - 1]];
  }

  /** No sensor is starved: at any moment of any run, two sensors have been queued
      equally often, or the one that comes first in the configuration once more. */
  lemma QueueIsFair(cfgs: seq<Config>, threads: nat, events: seq<Event>, s: nat, t: nat)
    requires ValidConfigs(cfgs) && Execute(cfgs, threads, events).Some? && s < t < |cfgs|
    ensures var queued := Queued(cfgs, threads, events);
      Times(queued, t) <= Times(queued, s) <= Times(queued, t) + 1
  {
    var queued := Queued(cfgs, threads, events);
    SensorsAreQueuedInTurn(cfgs, threads, events, Execute(cfgs, threads, events).value);
    TimesInTurn(queued, |cfgs|, s);
    TimesInTurn(queued, |cfgs|, t);
  }
}
