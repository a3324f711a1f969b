/** Unchanged readings are not sent again. A consumer loses nothing by it: the
    monitor refines one that keeps and sends everything. */
module Deduplication {
  import opened Wrappers
  import opened Numbers
  import opened Values
  import opened Monitors
  import opened Operations
  import opened Polling

  // ---------- the reference ----------

  /** One turn of a monitor that keeps every new value as it is and sends it. */
  function PlainStep(cfg: Config, slots: Slots, i: nat, input: Input): (r: Outcome)
    requires cfg.Valid() && i < |cfg.monitors| == |slots|
    ensures |r.slots| == |slots|
  {
    match NewValue(cfg, slots, i, input)
    case None => Outcome(slots, [])
    case Some(v) => Outcome(slots[i := Some(v)], if cfg.monitors[i].send then Printed(i, v) else [])
  }

  function PlainTurns(cfg: Config, slots: Slots, inputs: seq<Input>, n: nat): (r: Outcome)
    requires cfg.Valid() && n <= |cfg.monitors| == |slots| == |inputs|
    ensures |r.slots| == |slots|
  {
    if n == 0 then Outcome(slots, [])
    else
      var before := PlainTurns(cfg, slots, inputs, n - 1);
      var step := PlainStep(cfg, before.slots, n - 1, inputs[n - 1]);
      Outcome(step.slots, before.sent + step.sent)
  }

  function PlainRun(cfg: Config, polls: seq<Poll>): (r: Outcome)
    requires ValidPolls(cfg, polls)
    ensures |r.slots| == |cfg.monitors|
    decreases |polls|
  {
    if polls == [] then Outcome(NothingKnown(cfg), [])
    else
      var before, poll := PlainRun(cfg, polls[..|polls| - 1]), polls[|polls| - 1];
      var last := if poll.ready then PlainTurns(cfg, before.slots, poll.inputs, |cfg.monitors|)
                  else Outcome(before.slots, []);
      Outcome(last.slots, before.sent + last.sent)
  }

  // ---------- the consumer ----------

  /** A monitor, or one instance of a vector monitor. */
  type Key = (nat, Option<nat>)

  /** What a consumer holds that keeps the last message for each key. */
  type View = map<Key, Sample>

  function Consume(view: View, msgs: seq<Message>): View
    decreases |msgs|
  {
    if msgs == [] then view
    else
      var last := msgs[|msgs| - 1];
      Consume(view, msgs[..|msgs| - 1])[(last.monitor, last.instance) := last.sample]
  }

  lemma {:induction false} ConsumeAppend(view: View, a: seq<Message>, b: seq<Message>)
    ensures Consume(view, a + b) == Consume(Consume(view, a), b)
    decreases |b|
  {
    if b == [] {
      assert a + b == a;
    } else {
      assert (a + b)[..|a + b| - 1] == a + b[..|b| - 1];
      ConsumeAppend(view, a, b[..|b| - 1]);
    }
  }

  /** What the messages of a vector do to a view. */
  ghost predicate Updates(view: View, after: View, i: nat, children: seq<Option<Sample>>, n: nat)
    requires n <= |children|
  {
    && (forall key :: key in view ==> key in after)
    && (forall key :: key in after ==>
          if key.0 == i && key.1.Some? && key.1.value < n && children[key.1.value].Some?
          then after[key] == children[key.1.value].value
          else key in view && after[key] == view[key])
    && (forall k: nat :: k < n && children[k].Some? ==> (i, Some(k)) in after)
  }

  lemma {:induction false} ConsumeChildren(view: View, i: nat, children: seq<Option<Sample>>, n: nat)
    requires n <= |children|
    ensures Updates(view, Consume(view, PrintedChildren(i, children, n)), i, children, n)
    decreases n
  {
    if n > 0 {
      ConsumeChildren(view, i, children, n - 1);
      hide Updates;
      var before := PrintedChildren(i, children, n - 1);
      UpdatesOneMore(view, Consume(view, before), i, children, n - 1);
      if children[n - 1].Some? {
        var msgs := PrintedChildren(i, children, n);
        assert msgs[..|msgs| - 1] == before;
      } else {
        assert PrintedChildren(i, children, n) == before;
      }
    }
  }

  lemma {:induction false} UpdatesOneMore(view: View, mid: View, i: nat, children: seq<Option<Sample>>, n: nat)
    requires n < |children| && Updates(view, mid, i, children, n)
    ensures Updates(view, if children[n].Some? then mid[(i, Some(n)) := children[n].value] else mid, i, children, n + 1)
  {
  }

  function WithSplit(view: View, i: nat, split: Option<Sample>): View {
    if split.Some? then view[(i, None) := split.value] else view
  }

  lemma ConsumeVector(view: View, i: nat, children: seq<Option<Sample>>, split: Option<Sample>) returns (mid: View)
    ensures Updates(view, mid, i, children, |children|)
    ensures Consume(view, Printed(i, Vector(children, split))) == WithSplit(mid, i, split)
  {
    var msgs := PrintedChildren(i, children, |children|);
    mid := Consume(view, msgs);
    ConsumeChildren(view, i, children, |children|);
    if split.Some? {
      var all := Printed(i, Vector(children, split));
      assert all[..|all| - 1] == msgs;
    } else {
      assert Printed(i, Vector(children, split)) == msgs;
    }
  }

  lemma ConsumeScalar(view: View, i: nat, s: Sample)
    ensures Consume(view, Printed(i, Scalar(s))) == view[(i, None) := s]
  {
    var msgs := Printed(i, Scalar(s));
    assert msgs[..0] == [];
  }

  // ---------- the relation ----------

  /** Same readings, and a scalar that is kept is no older. */
  ghost predicate SlotsAgree(kept: Slots, plain: Slots) {
    && |kept| == |plain|
    && forall i :: 0 <= i < |kept| ==>
         match (kept[i], plain[i])
         case (None, None) => true
         case (Some(Scalar(s)), Some(Scalar(t))) => s.value == t.value && s.timestamp >= t.timestamp
         case (Some(Vector(c, _)), Some(Vector(d, _))) => c == d
         case _ => false
  }

  /** The consumer of a sending monitor holds its stored scalar, and for every
      element that is stored the same value with a timestamp at least as large. */
  ghost predicate Held(cfg: Config, slots: Slots, view: View) {
    && |slots| == |cfg.monitors|
    && forall i :: 0 <= i < |slots| && cfg.monitors[i].send && slots[i].Some? ==> HeldAt(slots[i].value, view, i)
  }

  ghost predicate HeldAt(v: Value, view: View, i: nat) {
    match v
    case Scalar(s) => (i, None) in view && view[(i, None)] == s
    case Vector(c, _) =>
      forall k: nat :: k < |c| && c[k].Some? ==>
        && (i, Some(k)) in view
        && view[(i, Some(k))].value == c[k].value.value
        && view[(i, Some(k))].timestamp >= c[k].value.timestamp
  }

  /** The same keys with the same values, none of them older. */
  ghost predicate ViewsAgree(view: View, plain: View) {
    && view.Keys == plain.Keys
    && forall key :: key in view ==>
         view[key].value == plain[key].value && view[key].timestamp >= plain[key].timestamp
  }

  ghost predicate Related(cfg: Config, kept: Slots, view: View, plain: Slots, plainView: View) {
    KindsHold(cfg, kept) && SlotsAgree(kept, plain) && Held(cfg, kept, view) && ViewsAgree(view, plainView)
  }

  /** Slots that agree lead to the very same new value. */
  lemma NewValuesAgree(cfg: Config, kept: Slots, plain: Slots, i: nat, input: Input)
    requires cfg.Valid() && i < |cfg.monitors| == |kept| && SlotsAgree(kept, plain)
    ensures NewValue(cfg, kept, i, input) == NewValue(cfg, plain, i, input)
  {
    var deps := Dependencies(cfg.monitors, i);
    if cfg.monitors[i].source.Operation? && deps.Some? {
      VariablesAgree(Selected(kept, deps.value), Selected(plain, deps.value), cfg.monitors[i], cfg.eval, input.now);
    }
  }

  lemma VariablesAgree(a: Variables, b: Variables, m: Monitor, eval: Evaluator, now: int)
    requires SlotsAgree(a, b) && m.source.Operation?
    ensures OpResult(m, Some(a), eval, now) == OpResult(m, Some(b), eval, now)
  {
    ExpectedSizesAgree(a, b);
    assert SizesAgree(a) == SizesAgree(b);
    if AllScalar(a) {
      assert ScalarValues(a) == ScalarValues(b);
    }
    if a != [] && a[0].Some? && a[0].value.Vector? {
      var n := |a[0].value.children|;
      forall pos
        ensures OpElement(m, a, pos, eval, now) == OpElement(m, b, pos, eval, now)
      {
        ElementValuesAgree(a, b, pos, (v: Value) => ChildAt(v, pos), 0);
      }
      assert Tabulated(n, (pos: nat) => OpElement(m, a, pos, eval, now))
          == Tabulated(n, (pos: nat) => OpElement(m, b, pos, eval, now));
    }
  }

  lemma {:induction false} ElementValuesAgree(a: Variables, b: Variables, pos: nat, child: Value -> Option<Sample>,
                                              v: nat)
    requires SlotsAgree(a, b) && v <= |a| && forall x :: child(x) == ChildAt(x, pos)
    ensures ElementValues(a, child, v) == ElementValues(b, child, v)
    decreases |a| - v
  {
    if v < |a| {
      ElementValuesAgree(a, b, pos, child, v + 1);
    }
  }

  lemma {:induction false} ExpectedSizesAgree(a: Variables, b: Variables)
    requires SlotsAgree(a, b)
    ensures ExpectedSize(a) == ExpectedSize(b)
    decreases |a|
  {
    if a != [] && a[0].None? {
      ExpectedSizesAgree(a[1..], b[1..]);
    }
  }

  // ---------- one turn ----------

  /** Leaving out elements that the consumer already holds makes no difference. */
  ghost predicate OmitsHeld(sent: seq<Option<Sample>>, all: seq<Option<Sample>>, view: View, i: nat) {
    && |sent| == |all|
    && forall k: nat :: k < |all| && sent[k] != all[k] ==>
         && sent[k].None? && all[k].Some? && (i, Some(k)) in view
         && view[(i, Some(k))].value == all[k].value.value
         && view[(i, Some(k))].timestamp >= all[k].value.timestamp
  }

  lemma OmittingHeldAgrees(sent: seq<Option<Sample>>, all: seq<Option<Sample>>, i: nat,
                           view: View, mid: View, plain: View, plainMid: View)
    requires ViewsAgree(view, plain) && OmitsHeld(sent, all, view, i)
    requires Updates(view, mid, i, sent, |sent|) && Updates(plain, plainMid, i, all, |all|)
    ensures ViewsAgree(mid, plainMid)
    ensures HeldAt(Vector(all, None), mid, i)
  {
    forall key | key in mid
      ensures key in plainMid && mid[key].value == plainMid[key].value && mid[key].timestamp >= plainMid[key].timestamp
    {
      if key.0 == i && key.1.Some? && key.1.value < |all| {
        var k := key.1.value;
        assert sent[k] == all[k] || sent[k].None?;
      }
    }
    forall key | key in plainMid
      ensures key in mid
    {
      if key.0 == i && key.1.Some? && key.1.value < |all| {
        var k := key.1.value;
        assert sent[k] == all[k] || (i, Some(k)) in view;
      }
    }
    forall k: nat | k < |all| && all[k].Some?
      ensures (i, Some(k)) in mid && mid[(i, Some(k))].value == all[k].value.value
      ensures mid[(i, Some(k))].timestamp >= all[k].value.timestamp
    {
      assert sent[k] == all[k] || (i, Some(k)) in view;
    }
  }

  /** The views after one value, when its old slot was `known`. */
  lemma ViewsAfterVector(m: Monitor, i: nat, known: Option<Value>, v: Value, view: View, plain: View)
    requires v.Vector? && m.send && ViewsAgree(view, plain)
    requires known.Some? && m.timestampGiven ==> known.value.Vector? && HeldAt(known.value, view, i)
    ensures ViewsAgree(Consume(view, Emitted(m, i, known, v)), Consume(plain, Printed(i, v)))
    ensures HeldAt(Stored(m, known, v), Consume(view, Emitted(m, i, known, v)), i)
  {
    hide Printed, Consume, Updates, ViewsAgree, OmitsHeld, Changes, HeldAt;
    var sent := if Replaces(m, known, v) then v.children else Changes(v.children, known.value.children);
    assert Emitted(m, i, known, v) == Printed(i, Vector(sent, v.split));
    SentOmitsHeld(m, i, known, v, view, sent);
    var mid := ConsumeVector(view, i, sent, v.split);
    var plainMid := ConsumeVector(plain, i, v.children, v.split);
    OmittingHeldAgrees(sent, v.children, i, view, mid, plain, plainMid);
    SplitKeepsAgreement(mid, plainMid, i, v.children, v.split, Stored(m, known, v).split);
  }

  lemma SentOmitsHeld(m: Monitor, i: nat, known: Option<Value>, v: Value, view: View, sent: seq<Option<Sample>>)
    requires v.Vector?
    requires known.Some? && m.timestampGiven ==> known.value.Vector? && HeldAt(known.value, view, i)
    requires sent == if Replaces(m, known, v) then v.children else Changes(v.children, known.value.children)
    ensures OmitsHeld(sent, v.children, view, i)
  {
  }

  lemma SplitKeepsAgreement(mid: View, plainMid: View, i: nat, all: seq<Option<Sample>>, split: Option<Sample>,
                            kept: Option<Sample>)
    requires ViewsAgree(mid, plainMid) && HeldAt(Vector(all, None), mid, i)
    ensures ViewsAgree(WithSplit(mid, i, split), WithSplit(plainMid, i, split))
    ensures HeldAt(Vector(all, kept), WithSplit(mid, i, split), i)
  {
  }

  lemma ViewsAfterScalar(m: Monitor, i: nat, known: Option<Value>, v: Value, view: View, plain: View)
    requires v.Scalar? && m.send && ViewsAgree(view, plain)
    requires known.Some? && m.timestampGiven ==> known.value.Scalar? && HeldAt(known.value, view, i)
    ensures ViewsAgree(Consume(view, Emitted(m, i, known, v)), Consume(plain, Printed(i, v)))
    ensures HeldAt(Stored(m, known, v), Consume(view, Emitted(m, i, known, v)), i)
  {
    ConsumeScalar(view, i, v.sample);
    ConsumeScalar(plain, i, v.sample);
  }

  /** Messages about one monitor leave what is held for the others. */
  lemma {:induction false} OthersUntouched(view: View, msgs: seq<Message>, i: nat)
    requires forall k :: 0 <= k < |msgs| ==> msgs[k].monitor == i
    ensures forall key :: key in view && key.0 != i ==>
              key in Consume(view, msgs) && Consume(view, msgs)[key] == view[key]
    decreases |msgs|
  {
    if msgs != [] {
      OthersUntouched(view, msgs[..|msgs| - 1], i);
    }
  }

  lemma {:induction false} PrintedChildrenAreAbout(i: nat, children: seq<Option<Sample>>, n: nat)
    requires n <= |children|
    ensures forall k :: 0 <= k < |PrintedChildren(i, children, n)| ==> PrintedChildren(i, children, n)[k].monitor == i
    decreases n
  {
    if n > 0 {
      PrintedChildrenAreAbout(i, children, n - 1);
    }
  }

  /** Everything that a turn sends is about its own monitor. */
  lemma EmittedIsAbout(m: Monitor, i: nat, known: Option<Value>, v: Value)
    ensures forall k :: 0 <= k < |Emitted(m, i, known, v)| ==> Emitted(m, i, known, v)[k].monitor == i
  {
    if v.Vector? {
      PrintedChildrenAreAbout(i, v.children, |v.children|);
      if known.Some? && known.value.Vector? {
        var c := Changes(v.children, known.value.children);
        PrintedChildrenAreAbout(i, c, |c|);
      }
    }
  }

  lemma StepRelated(cfg: Config, kept: Slots, view: View, plain: Slots, plainView: View, i: nat, input: Input)
    requires cfg.Valid() && i < |cfg.monitors| && Related(cfg, kept, view, plain, plainView)
    ensures var a, b := Step(cfg, kept, i, input), PlainStep(cfg, plain, i, input);
      Related(cfg, a.slots, Consume(view, a.sent), b.slots, Consume(plainView, b.sent))
  {
    StepKeepsKinds(cfg, kept, i, input);
    NewValuesAgree(cfg, kept, plain, i, input);
    var m, known := cfg.monitors[i], kept[i];
    if NewValue(cfg, kept, i, input).Some? {
      var v := NewValue(cfg, kept, i, input).value;
      NewValueKind(cfg, kept, i, input);
      var a, b := Step(cfg, kept, i, input), PlainStep(cfg, plain, i, input);
      assert SlotsAgree(a.slots, b.slots);
      if m.send {
        assert known.Some? ==> HeldAt(known.value, view, i);
        if v.Vector? {
          ViewsAfterVector(m, i, known, v, view, plainView);
        } else {
          ViewsAfterScalar(m, i, known, v, view, plainView);
        }
      }
      var after := Consume(view, a.sent);
      EmittedIsAbout(m, i, known, v);
      OthersUntouched(view, a.sent, i);
      forall j | 0 <= j < |a.slots| && cfg.monitors[j].send && a.slots[j].Some?
        ensures HeldAt(a.slots[j].value, after, j)
      {
        if j != i {
          assert HeldAt(kept[j].value, view, j);
        }
      }
    }
  }

  lemma {:induction false} TurnsRelated(cfg: Config, kept: Slots, view: View, plain: Slots, plainView: View,
                                        inputs: seq<Input>, n: nat)
    requires cfg.Valid() && n <= |cfg.monitors| == |inputs| && Related(cfg, kept, view, plain, plainView)
    ensures var a, b := Turns(cfg, kept, inputs, n), PlainTurns(cfg, plain, inputs, n);
      Related(cfg, a.slots, Consume(view, a.sent), b.slots, Consume(plainView, b.sent))
    decreases n
  {
    hide Step, PlainStep, HeldAt, KindHolds, ViewsAgree;
    if n > 0 {
      TurnsRelated(cfg, kept, view, plain, plainView, inputs, n - 1);
      NextTurnRelated(cfg, kept, view, plain, plainView, inputs, n - 1);
    }
  }

  lemma NextTurnRelated(cfg: Config, kept: Slots, view: View, plain: Slots, plainView: View, inputs: seq<Input>, n: nat)
    requires cfg.Valid() && n < |cfg.monitors| == |inputs| == |kept| == |plain|
    requires var a, b := Turns(cfg, kept, inputs, n), PlainTurns(cfg, plain, inputs, n);
      Related(cfg, a.slots, Consume(view, a.sent), b.slots, Consume(plainView, b.sent))
    ensures var a, b := Turns(cfg, kept, inputs, n + 1), PlainTurns(cfg, plain, inputs, n + 1);
      Related(cfg, a.slots, Consume(view, a.sent), b.slots, Consume(plainView, b.sent))
  {
    hide Step, PlainStep, Consume, Related;
    var a, b := Turns(cfg, kept, inputs, n), PlainTurns(cfg, plain, inputs, n);
    StepRelated(cfg, a.slots, Consume(view, a.sent), b.slots, Consume(plainView, b.sent), n, inputs[n]);
    ConsumeAppend(view, a.sent, Step(cfg, a.slots, n, inputs[n]).sent);
    ConsumeAppend(plainView, b.sent, PlainStep(cfg, b.slots, n, inputs[n]).sent);
  }

  // ---------- what is suppressed ----------

  /** The time of the reading is later, or its number is another one; NaN never is
      the same. */
  predicate TellsMore(known: Sample, s: Sample) {
    s.timestamp > known.timestamp || s.value != known.value || s.value == NaN
  }

  /** A reading of element k that tells more than the stored vector. */
  predicate IsDue(m: Monitor, known: Option<Value>, k: nat, s: Sample)
    requires known.Some? ==> known.value.Vector?
  {
    known.None? || !m.timestampGiven || k >= |known.value.children|
    || known.value.children[k].None? || TellsMore(known.value.children[k].value, s)
  }

  /** Nothing superfluous is sent: a reading of an element is sent if and only if
      the monitor sends and the reading is due; the split result always is. */
  lemma {:induction false} ElementsSentWhenDue(m: Monitor, i: nat, known: Option<Value>, v: Value, msg: Message)
    requires v.Vector? && (known.Some? ==> known.value.Vector?)
    ensures msg in Emitted(m, i, known, v) <==>
              && m.send && msg.monitor == i
              && match msg.instance
                 case None => v.split == Some(msg.sample)
                 case Some(k) => k < |v.children| && v.children[k] == Some(msg.sample) && IsDue(m, known, k, msg.sample)
  {
    if m.send {
      var sent := if Replaces(m, known, v) then v.children else Changes(v.children, known.value.children);
      PrintedHas(i, sent, |sent|, msg);
    }
  }

  /** A single value is sent, once, if and only if the monitor sends and the
      reading is due. */
  lemma ScalarSentWhenDue(m: Monitor, i: nat, known: Option<Value>, s: Sample)
    requires known.Some? ==> known.value.Scalar?
    ensures Emitted(m, i, known, Scalar(s)) ==
            if m.send && (known.None? || !m.timestampGiven || TellsMore(known.value.sample, s))
            then [Message(i, None, s)] else []
  {
  }

  // ---------- whole runs ----------

  /** Lossless deduplication. After every run, a consumer of the messages holds
      every stored reading of every sending monitor, and holds the same values
      under the same keys as if everything had been sent. */
  lemma {:induction false} RunIsLossless(cfg: Config, polls: seq<Poll>)
    requires ValidPolls(cfg, polls)
    ensures var run, plain := Run(cfg, polls), PlainRun(cfg, polls);
      && Held(cfg, run.slots, Consume(map[], run.sent))
      && ViewsAgree(Consume(map[], run.sent), Consume(map[], plain.sent))
      && SlotsAgree(run.slots, plain.slots)
      && Related(cfg, run.slots, Consume(map[], run.sent), plain.slots, Consume(map[], plain.sent))
    decreases |polls|
  {
    if polls != [] {
      var init, last := polls[..|polls| - 1], polls[|polls| - 1];
      RunIsLossless(cfg, init);
      var a, b := Run(cfg, init), PlainRun(cfg, init);
      var n := |cfg.monitors|;
      if last.ready {
        TurnsRelated(cfg, a.slots, Consume(map[], a.sent), b.slots, Consume(map[], b.sent), last.inputs, n);
        ConsumeAppend(map[], a.sent, Turns(cfg, a.slots, last.inputs, n).sent);
        ConsumeAppend(map[], b.sent, PlainTurns(cfg, b.slots, last.inputs, n).sent);
      } else {
        assert a.sent + [] == a.sent && b.sent + [] == b.sent;
      }
    }
  }
}
