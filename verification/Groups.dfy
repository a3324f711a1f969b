/** Monitors of one group are not influenced by the others. */
module Groups {
  import opened Wrappers
  import opened Values
  import opened Monitors
  import opened Operations
  import opened Polling
  import Deduplication

  predicate InGroup(cfg: Config, i: nat, group: Option<string>)
    requires i < |cfg.monitors|
  {
    cfg.monitors[i].group == group
  }

  /** Two configurations that are the same as far as one group goes. */
  ghost predicate SameGroup(a: Config, b: Config, group: Option<string>) {
    && a.Valid() && b.Valid() && |a.monitors| == |b.monitors|
    && (forall name, vars, values :: a.eval(name, vars, values) == b.eval(name, vars, values))
    && forall i :: 0 <= i < |a.monitors| ==>
         && (InGroup(a, i, group) <==> InGroup(b, i, group))
         && (InGroup(a, i, group) ==> a.monitors[i] == b.monitors[i])
  }

  ghost predicate SameSlots(cfg: Config, group: Option<string>, a: Slots, b: Slots) {
    && |a| == |b| == |cfg.monitors|
    && forall i :: 0 <= i < |a| && InGroup(cfg, i, group) ==> a[i] == b[i]
  }

  ghost predicate SameInputs(cfg: Config, group: Option<string>, a: seq<Input>, b: seq<Input>) {
    && |a| == |b| == |cfg.monitors|
    && forall i :: 0 <= i < |a| && InGroup(cfg, i, group) ==> a[i] == b[i]
  }

  ghost predicate SamePolls(cfg: Config, group: Option<string>, a: seq<Poll>, b: seq<Poll>) {
    && |a| == |b|
    && forall p :: 0 <= p < |a| ==> a[p].ready == b[p].ready && SameInputs(cfg, group, a[p].inputs, b[p].inputs)
  }

  /** The messages about monitors of one group, in their order. */
  function About(cfg: Config, group: Option<string>, msgs: seq<Message>): seq<Message>
    decreases |msgs|
  {
    if msgs == [] then []
    else
      var last := msgs[|msgs| - 1];
      About(cfg, group, msgs[..|msgs| - 1])
      + if last.monitor < |cfg.monitors| && InGroup(cfg, last.monitor, group) then [last] else []
  }

  lemma {:induction false} AboutAppend(cfg: Config, group: Option<string>, a: seq<Message>, b: seq<Message>)
    ensures About(cfg, group, a + b) == About(cfg, group, a) + About(cfg, group, b)
    decreases |b|
  {
    if b == [] {
      assert a + b == a;
    } else {
      assert (a + b)[..|a + b| - 1] == a + b[..|b| - 1];
      AboutAppend(cfg, group, a, b[..|b| - 1]);
    }
  }

  lemma {:induction false} AboutOne(cfg: Config, group: Option<string>, msgs: seq<Message>, i: nat)
    requires i < |cfg.monitors| && forall k :: 0 <= k < |msgs| ==> msgs[k].monitor == i
    ensures About(cfg, group, msgs) == if InGroup(cfg, i, group) then msgs else []
    decreases |msgs|
  {
    if msgs != [] {
      AboutOne(cfg, group, msgs[..|msgs| - 1], i);
      assert msgs == msgs[..|msgs| - 1] + [msgs[|msgs| - 1]];
    }
  }

  // ---------- names are resolved inside the group ----------

  lemma {:induction false} FindInGroup(a: Config, b: Config, group: Option<string>, name: string, from: nat)
    requires SameGroup(a, b, group) && from <= |a.monitors|
    ensures Find(a.monitors, name, group, from) == Find(b.monitors, name, group, from)
    decreases |a.monitors| - from
  {
    if from < |a.monitors| {
      assert InGroup(a, from, group) <==> InGroup(b, from, group);
      FindInGroup(a, b, group, name, from + 1);
    }
  }

  lemma DependenciesInGroup(a: Config, b: Config, group: Option<string>, i: nat)
    requires SameGroup(a, b, group) && i < |a.monitors| && InGroup(a, i, group)
    ensures Dependencies(a.monitors, i) == Dependencies(b.monitors, i)
    ensures Dependencies(a.monitors, i).Some? ==>
              forall k :: 0 <= k < |Dependencies(a.monitors, i).value| ==>
                var j := Dependencies(a.monitors, i).value[k]; j < |a.monitors| && InGroup(a, j, group)
  {
    var m := a.monitors[i];
    if m.source.Operation? {
      forall k | 0 <= k < |m.source.vars|
        ensures Find(a.monitors, m.source.vars[k], group, 0) == Find(b.monitors, m.source.vars[k], group, 0)
      {
        FindInGroup(a, b, group, m.source.vars[k], 0);
      }
      DependencyLaws(a.monitors, i);
      DependencyLaws(b.monitors, i);
      if Dependencies(a.monitors, i).Some? && Dependencies(b.monitors, i).Some? {
        assert Dependencies(a.monitors, i).value == Dependencies(b.monitors, i).value;
      } else if exists k :: 0 <= k < |m.source.vars| && Find(a.monitors, m.source.vars[k], group, 0).None? {
        var k :| 0 <= k < |m.source.vars| && Find(a.monitors, m.source.vars[k], group, 0).None?;
        assert Find(b.monitors, m.source.vars[k], group, 0).None?;
      }
    }
  }

  lemma NewValueInGroup(a: Config, b: Config, group: Option<string>, s: Slots, t: Slots, i: nat, input: Input)
    requires SameGroup(a, b, group) && SameSlots(a, group, s, t) && i < |a.monitors| && InGroup(a, i, group)
    ensures NewValue(a, s, i, input) == NewValue(b, t, i, input)
  {
    DependenciesInGroup(a, b, group, i);
    var d := Dependencies(a.monitors, i);
    if d.Some? {
      assert Selected(s, d.value) == Selected(t, d.value);
      SameEvaluator(a.monitors[i], Selected(s, d.value), a.eval, b.eval, input.now);
    }
  }

  /** Evaluators that evaluate alike give the same results. */
  lemma SameEvaluator(m: Monitor, vars: Variables, e: Evaluator, f: Evaluator, now: int)
    requires forall formula, names, values :: e(formula, names, values) == f(formula, names, values)
    ensures m.source.Operation? ==> OpResult(m, Some(vars), e, now) == OpResult(m, Some(vars), f, now)
  {
    if m.source.Operation? && vars != [] && vars[0].Some? && vars[0].value.Vector? {
      var n := |vars[0].value.children|;
      forall pos
        ensures OpElement(m, vars, pos, e, now) == OpElement(m, vars, pos, f, now)
      {
      }
      assert Tabulated(n, (pos: nat) => OpElement(m, vars, pos, e, now))
          == Tabulated(n, (pos: nat) => OpElement(m, vars, pos, f, now));
    }
  }

  // ---------- turns, polls and runs ----------

  lemma StepInGroup(a: Config, b: Config, group: Option<string>, s: Slots, t: Slots, i: nat, x: Input, y: Input)
    requires SameGroup(a, b, group) && SameSlots(a, group, s, t) && i < |a.monitors|
    requires InGroup(a, i, group) ==> x == y
    ensures SameSlots(a, group, Step(a, s, i, x).slots, Step(b, t, i, y).slots)
    ensures About(a, group, Step(a, s, i, x).sent) == About(b, group, Step(b, t, i, y).sent)
  {
    hide NewValue, Emitted, Stored, About;
    if NewValue(a, s, i, x).Some? {
      Deduplication.EmittedIsAbout(a.monitors[i], i, s[i], NewValue(a, s, i, x).value);
    }
    if NewValue(b, t, i, y).Some? {
      Deduplication.EmittedIsAbout(b.monitors[i], i, t[i], NewValue(b, t, i, y).value);
    }
    AboutOne(a, group, Step(a, s, i, x).sent, i);
    AboutOne(b, group, Step(b, t, i, y).sent, i);
    if InGroup(a, i, group) {
      NewValueInGroup(a, b, group, s, t, i, x);
    }
  }

  lemma {:induction false} TurnsInGroup(a: Config, b: Config, group: Option<string>, s: Slots, t: Slots, x: seq<Input>,
                                        y: seq<Input>, n: nat)
    requires SameGroup(a, b, group) && SameSlots(a, group, s, t) && SameInputs(a, group, x, y) && n <= |a.monitors|
    ensures SameSlots(a, group, Turns(a, s, x, n).slots, Turns(b, t, y, n).slots)
    ensures About(a, group, Turns(a, s, x, n).sent) == About(b, group, Turns(b, t, y, n).sent)
    decreases n
  {
    hide Step, Turns, About;
    if n == 0 {
      NoTurnsInGroup(a, b, group, s, t, x, y);
    } else {
      TurnsInGroup(a, b, group, s, t, x, y, n - 1);
      NextTurnInGroup(a, b, group, s, t, x, y, n - 1);
    }
  }

  lemma NoTurnsInGroup(a: Config, b: Config, group: Option<string>, s: Slots, t: Slots, x: seq<Input>, y: seq<Input>)
    requires SameGroup(a, b, group) && SameSlots(a, group, s, t) && SameInputs(a, group, x, y)
    ensures SameSlots(a, group, Turns(a, s, x, 0).slots, Turns(b, t, y, 0).slots)
    ensures About(a, group, Turns(a, s, x, 0).sent) == About(b, group, Turns(b, t, y, 0).sent)
  {
  }

  lemma NextTurnInGroup(a: Config, b: Config, group: Option<string>, s: Slots, t: Slots, x: seq<Input>, y: seq<Input>,
                        n: nat)
    requires SameGroup(a, b, group) && |s| == |t| == |a.monitors| && SameInputs(a, group, x, y) && n < |a.monitors|
    requires SameSlots(a, group, Turns(a, s, x, n).slots, Turns(b, t, y, n).slots)
    requires About(a, group, Turns(a, s, x, n).sent) == About(b, group, Turns(b, t, y, n).sent)
    ensures SameSlots(a, group, Turns(a, s, x, n + 1).slots, Turns(b, t, y, n + 1).slots)
    ensures About(a, group, Turns(a, s, x, n + 1).sent) == About(b, group, Turns(b, t, y, n + 1).sent)
  {
    hide Step, Turns, About, SameSlots;
    NextTurn(a, s, x, n);
    NextTurn(b, t, y, n);
    var c, d := Turns(a, s, x, n), Turns(b, t, y, n);
    StepInGroup(a, b, group, c.slots, d.slots, n, x[n], y[n]);
    AboutAppend(a, group, c.sent, Step(a, c.slots, n, x[n]).sent);
    AboutAppend(b, group, d.sent, Step(b, d.slots, n, y[n]).sent);
  }

  /** Non-interference over whole runs. If two runs agree on what the monitors of
      one group read, then they agree on the stored values and on the messages of
      that group, whatever monitors the other groups have and whatever these read. */
  lemma {:induction false} RunsInGroup(a: Config, b: Config, group: Option<string>, p: seq<Poll>, q: seq<Poll>)
    requires SameGroup(a, b, group) && ValidPolls(a, p) && ValidPolls(b, q) && SamePolls(a, group, p, q)
    ensures SameSlots(a, group, Run(a, p).slots, Run(b, q).slots)
    ensures About(a, group, Run(a, p).sent) == About(b, group, Run(b, q).sent)
    decreases |p|
  {
    hide About, PollOnce, SameSlots, SameInputs, SameGroup;
    if p != [] {
      var p0, q0 := p[..|p| - 1], q[..|q| - 1];
      RunsInGroup(a, b, group, p0, q0);
      NextPollInGroup(a, b, group, Run(a, p0), Run(b, q0), p[|p| - 1], q[|q| - 1]);
    } else {
      NothingKnownInGroup(a, b, group);
    }
  }

  lemma NothingKnownInGroup(a: Config, b: Config, group: Option<string>)
    requires SameGroup(a, b, group)
    ensures SameSlots(a, group, NothingKnown(a), NothingKnown(b)) && About(a, group, []) == About(b, group, []) == []
  {
  }

  lemma {:induction false} NextPollInGroup(a: Config, b: Config, group: Option<string>, c: Outcome, d: Outcome,
                                           x: Poll, y: Poll)
    requires SameGroup(a, b, group) && SameSlots(a, group, c.slots, d.slots)
    requires About(a, group, c.sent) == About(b, group, d.sent)
    requires x.ready == y.ready && SameInputs(a, group, x.inputs, y.inputs)
    ensures SameSlots(a, group, PollOnce(a, c.slots, x).slots, PollOnce(b, d.slots, y).slots)
    ensures About(a, group, c.sent + PollOnce(a, c.slots, x).sent) ==
            About(b, group, d.sent + PollOnce(b, d.slots, y).sent)
  {
    hide About, Turns;
    TurnsInGroup(a, b, group, c.slots, d.slots, x.inputs, y.inputs, |a.monitors|);
    AboutAppend(a, group, c.sent, PollOnce(a, c.slots, x).sent);
    AboutAppend(b, group, d.sent, PollOnce(b, d.slots, y).sent);
    NothingKnownInGroup(a, b, group);
  }
}
