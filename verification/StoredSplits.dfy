/** What becomes of a split result once it is stored (rb_sensor_monitor_array.c). */
module StoredSplits {
  import opened Wrappers
  import opened Numbers
  import opened Numerals
  import opened Values
  import opened VectorParser
  import opened Monitors
  import opened Operations
  import opened Polling

  /** A split result is the fold of the elements beside it, whenever it was made. */
  ghost predicate SplitIsFold(m: Monitor, v: Value) {
    v.Vector? ==> exists now :: v.split == SplitResult(m.splitOp, v.children, now)
  }

  // ---------- monitors without timestamps ----------

  lemma FreshSplitIsFold(cfg: Config, slots: Slots, i: nat, input: Input)
    requires cfg.Valid() && i < |cfg.monitors| == |slots|
    ensures var v := NewValue(cfg, slots, i, input); v.Some? ==> SplitIsFold(cfg.monitors[i], v.value)
  {
    var v, m := NewValue(cfg, slots, i, input), cfg.monitors[i];
    if v.Some? && v.value.Vector? {
      assert v.value.split == SplitResult(m.splitOp, v.value.children, input.now);
    }
  }

  /** Where no timestamps are given, all stored split results are folds. */
  ghost predicate FoldsHold(cfg: Config, slots: Slots) {
    && |slots| == |cfg.monitors|
    && forall i :: 0 <= i < |slots| && slots[i].Some? && !cfg.monitors[i].timestampGiven ==>
         SplitIsFold(cfg.monitors[i], slots[i].value)
  }

  lemma StepKeepsFolds(cfg: Config, slots: Slots, i: nat, input: Input)
    requires cfg.Valid() && i < |cfg.monitors| && FoldsHold(cfg, slots)
    ensures FoldsHold(cfg, Step(cfg, slots, i, input).slots)
  {
    FreshSplitIsFold(cfg, slots, i, input);
    hide NewValue, SplitIsFold, Emitted;
  }

  lemma {:induction false} TurnsKeepFolds(cfg: Config, slots: Slots, inputs: seq<Input>, n: nat)
    requires cfg.Valid() && n <= |cfg.monitors| == |inputs| && FoldsHold(cfg, slots)
    ensures FoldsHold(cfg, Turns(cfg, slots, inputs, n).slots)
    decreases n
  {
    if n > 0 {
      TurnsKeepFolds(cfg, slots, inputs, n - 1);
      StepKeepsFolds(cfg, Turns(cfg, slots, inputs, n - 1).slots, n - 1, inputs[n - 1]);
    }
  }

  /** In every reachable state, the split result that is stored for a monitor
      without given timestamps, operations included, is the fold of the elements
      that are stored. */
  lemma {:induction false} UnstampedSplitsAreFolds(cfg: Config, polls: seq<Poll>)
    requires ValidPolls(cfg, polls)
    ensures FoldsHold(cfg, Run(cfg, polls).slots)
    decreases |polls|
  {
    if polls != [] {
      var init, last := polls[..|polls| - 1], polls[|polls| - 1];
      UnstampedSplitsAreFolds(cfg, init);
      if last.ready {
        TurnsKeepFolds(cfg, Run(cfg, init).slots, last.inputs, |cfg.monitors|);
      }
    }
  }

  // ---------- monitors with timestamps ----------

  ghost predicate IsVectorMonitor(cfg: Config, i: nat) {
    IsExternal(cfg, i) && cfg.monitors[i].split.Some?
  }

  /** What monitor i has read in the polls so far. */
  ghost function Readings(cfg: Config, polls: seq<Poll>, i: nat): (r: seq<Value>)
    requires ValidPolls(cfg, polls) && IsVectorMonitor(cfg, i)
    ensures forall k :: 0 <= k < |r| ==> r[k].Vector?
    decreases |polls|
  {
    if polls == [] then []
    else
      var last := polls[|polls| - 1];
      Readings(cfg, polls[..|polls| - 1], i)
      + if last.ready then [ExternalValue(cfg.monitors[i], last.inputs[i])] else []
  }

  /** What is stored for a monitor that reads vectors, in every reachable state.
      Without timestamps it is the last reading; with them it is the elements of
      the last reading, beside the split result of the first one. */
  lemma {:induction false} StoredIsFirstAndLast(cfg: Config, polls: seq<Poll>, i: nat)
    requires ValidPolls(cfg, polls) && IsVectorMonitor(cfg, i)
    ensures var m, r := cfg.monitors[i], Readings(cfg, polls, i);
      Run(cfg, polls).slots[i] ==
        if r == [] then None
        else Some(Vector(r[|r| - 1].children, if m.timestampGiven then r[0].split else r[|r| - 1].split))
    decreases |polls|
  {
    if polls != [] {
      var init, last := polls[..|polls| - 1], polls[|polls| - 1];
      StoredIsFirstAndLast(cfg, init, i);
      if last.ready {
        PollIsOwnTurn(cfg, Run(cfg, init).slots, last, i);
        hide PollOnce, ExternalValue, Run;
      }
    }
  }

  /** The value of a split result, without its time. */
  function Fold(op: Option<SplitOp>, children: seq<Option<Sample>>): Option<Number> {
    match SplitResult(op, children, 0)
    case None => None
    case Some(s) => Some(s.value)
  }

  lemma {:induction false} ReadingIsFold(cfg: Config, polls: seq<Poll>, i: nat, k: nat)
    requires ValidPolls(cfg, polls) && IsVectorMonitor(cfg, i) && k < |Readings(cfg, polls, i)|
    ensures SplitIsFold(cfg.monitors[i], Readings(cfg, polls, i)[k])
    decreases |polls|
  {
    hide SplitIsFold;
    var last := polls[|polls| - 1];
    var before := Readings(cfg, polls[..|polls| - 1], i);
    if k < |before| {
      ReadingIsFold(cfg, polls[..|polls| - 1], i, k);
    } else {
      ExternalIsFold(cfg.monitors[i], last.inputs[i]);
    }
  }

  lemma ExternalIsFold(m: Monitor, input: Input)
    requires m.split != Some("")
    ensures SplitIsFold(m, ExternalValue(m, input))
  {
    var v := ExternalValue(m, input);
    if v.Vector? {
      assert v.split == SplitResult(m.splitOp, v.children, input.now);
    }
  }

  /** Exactly when the stored split result is the fold of the stored elements, in
      a run: without timestamps always; with them when the last reading folds to
      the same value as the first. */
  lemma StoredSplitIsFoldIff(cfg: Config, polls: seq<Poll>, i: nat)
    requires ValidPolls(cfg, polls) && IsVectorMonitor(cfg, i) && Readings(cfg, polls, i) != []
    ensures var m, r := cfg.monitors[i], Readings(cfg, polls, i);
      && Run(cfg, polls).slots[i].Some?
      && (SplitIsFold(m, Run(cfg, polls).slots[i].value) <==>
            !m.timestampGiven || Fold(m.splitOp, r[0].children) == Fold(m.splitOp, r[|r| - 1].children))
  {
    var m, r := cfg.monitors[i], Readings(cfg, polls, i);
    var first, last := r[0], r[|r| - 1];
    StoredIsFirstAndLast(cfg, polls, i);
    ReadingIsFold(cfg, polls, i, 0);
    ReadingIsFold(cfg, polls, i, |r| - 1);
    hide Run, Readings;
    SameFoldIff(m.splitOp, first, last.children);
  }

  lemma SameFoldIff(op: Option<SplitOp>, first: Value, children: seq<Option<Sample>>)
    requires first.Vector? && exists now :: first.split == SplitResult(op, first.children, now)
    ensures (exists now :: first.split == SplitResult(op, children, now)) <==>
            Fold(op, first.children) == Fold(op, children)
  {
    var then_ :| first.split == SplitResult(op, first.children, then_);
    if Fold(op, first.children) == Fold(op, children) {
      assert first.split == SplitResult(op, children, then_);
    }
  }

  // ---------- a run in which it goes stale ----------

  const STAMPED := Monitor("m", None, External, true, true, Some(";"), Some(SumOp))

  function Answer(text: string): Poll { Poll(true, [Input(text, Finite(0.0), 30)]) }

  /** With timestamps, the sum of the first answer, "10:1", stays, although the
      second one is "20:5". */
  lemma StoredSplitGoesStale(eval: Evaluator)
    ensures var cfg := Config([STAMPED], eval);
      var polls := [Answer("10:1"), Answer("20:5")];
      && ValidPolls(cfg, polls)
      && Run(cfg, polls).slots == [Some(Vector([Some(Sample(20, Finite(5.0)))], Some(Sample(30, Finite(1.0)))))]
  {
    hide Decimal, ParseVector, Run, Readings;
    var cfg := Config([STAMPED], eval);
    var first, second := Answer("10:1"), Answer("20:5");
    AnswersAreRead();
    TwoReadings(cfg, first, second, 0);
    StoredIsFirstAndLast(cfg, [first, second], 0);
  }

  lemma TwoReadings(cfg: Config, p: Poll, q: Poll, i: nat)
    requires ValidPolls(cfg, [p, q]) && IsVectorMonitor(cfg, i) && p.ready && q.ready
    requires i < |p.inputs| && i < |q.inputs|
    ensures Readings(cfg, [p, q], i) ==
            [ExternalValue(cfg.monitors[i], p.inputs[i]), ExternalValue(cfg.monitors[i], q.inputs[i])]
  {
    hide ExternalValue;
    assert [p, q][..1] == [p] && [p][..0] == [];
    assert ValidPolls(cfg, [p]);
    assert Readings(cfg, [], i) == [];
    assert Readings(cfg, [p], i) == [ExternalValue(cfg.monitors[i], p.inputs[i])];
  }

  lemma AnswersAreRead()
    ensures ExternalValue(STAMPED, Answer("10:1").inputs[0]) ==
            Vector([Some(Sample(10, Finite(1.0)))], Some(Sample(30, Finite(1.0))))
    ensures ExternalValue(STAMPED, Answer("20:5").inputs[0]) ==
            Vector([Some(Sample(20, Finite(5.0)))], Some(Sample(30, Finite(5.0))))
  {
    hide Decimal, ParseVector;
    AnswerIsRead(10, 1);
    AnswerIsRead(20, 5);
    TextsOfAnswers();
  }

  lemma TextsOfAnswers()
    ensures Decimal(10) + TIMESTAMP_SEP + [DigitOf(1)] == "10:1" && Decimal(20) + TIMESTAMP_SEP + [DigitOf(5)] == "20:5"
  {
    assert Decimal(1) == "1" && Decimal(2) == "2";
    assert Decimal(10) == "10" && Decimal(20) == "20";
  }

  lemma AnswerIsRead(stamp: nat, digit: nat)
    requires stamp > 0 && digit < 10
    ensures ParseVector(Decimal(stamp) + TIMESTAMP_SEP + [DigitOf(digit)], ";", Some(SumOp), true, 30) ==
            Vector([Some(Sample(stamp, Finite(digit as real)))], Some(Sample(30, Finite(digit as real))))
  {
    var n := Numeral(false, [DigitOf(digit)], false, "");
    var f := Field(Some(stamp), n);
    NumeralOfDigit(digit);
    forall c | c in f.Text()
      ensures c !in ";"
    {
      CharsOfField(stamp, digit, c);
    }
    assert f.Text() == Decimal(stamp) + TIMESTAMP_SEP + [DigitOf(digit)];
    hide Numeral.Value, ParseVector, Decimal;
    SmallIsInRange(digit as real);
    UsualSeparatorRoundTrip([f], ";", Some(SumOp), true, 30);
    var children := [Some(Sample(stamp, Finite(digit as real)))];
    assert Meanings([f], 30) == children;
    assert Count(children, 1) == 1 && Sum(children, 1) == Finite(digit as real);
  }

  lemma NumeralOfDigit(digit: nat)
    requires digit < 10
    ensures var n := Numeral(false, [DigitOf(digit)], false, "");
      n.Valid() && n.Value() == digit as real && n.Text() == [DigitOf(digit)]
  {
    assert RunValue([DigitOf(digit)], 0, 1) == digit;
  }

  lemma CharsOfField(stamp: nat, digit: nat, c: char)
    requires digit < 10 && c in Decimal(stamp) + TIMESTAMP_SEP + [DigitOf(digit)]
    ensures c != ';'
  {
    var d := Decimal(stamp);
    if c in d {
      var k :| 0 <= k < |d| && d[k] == c;
      DigitsAreDigits(d, 0, k);
    }
  }
}
