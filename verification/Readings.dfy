/** What is known of a monitor that is asked outside, told from its last answer
    (rb_sensor_monitor.c, rb_sensor_monitor_array.c). */
module Readings {
  import opened Wrappers
  import opened Numbers
  import opened Numerals
  import opened Values
  import opened VectorParser
  import opened Polling

  // ---------- a text with a negative number ----------

  const MINUS_FIVE := Field(None, Numeral(true, "5", false, ""))
  const THREE := Field(None, Numeral(false, "3", false, ""))

  /** Signs are read: "-5;3" is -5 and 3, and their sum is -2. */
  lemma NegativeIsRead(now: int)
    ensures ParseVector("-5;3", ";", Some(SumOp), false, now) ==
            Vector([Some(Sample(now, Finite(-5.0))), Some(Sample(now, Finite(3.0)))], Some(Sample(now, Finite(-2.0))))
  {
    var fields := [MINUS_FIVE, THREE];
    hide ParseVector, Overflows;
    MinusFiveAndThree();
    ValuesOfBoth(now);
    SmallIsInRange(-5.0);
    SmallIsInRange(3.0);
    UsualSeparatorRoundTrip(fields, ";", Some(SumOp), false, now);
    SumOfBoth(now);
  }

  lemma MinusFiveAndThree()
    ensures Joinable([MINUS_FIVE, THREE], ";", false) && Join([MINUS_FIVE, THREE], ";") == "-5;3"
  {
    assert [MINUS_FIVE, THREE][1..] == [THREE];
    assert MINUS_FIVE.Text() == "-5" && THREE.Text() == "3" && Join([THREE], ";") == "3";
  }

  lemma ValuesOfBoth(now: int)
    ensures MINUS_FIVE.number.Value() == -5.0 && THREE.number.Value() == 3.0
    ensures Meanings([MINUS_FIVE, THREE], now) == [Some(Sample(now, Finite(-5.0))), Some(Sample(now, Finite(3.0)))]
  {
    assert RunValue("5", 0, 1) == 5 && RunValue("3", 0, 1) == 3;
  }

  lemma SumOfBoth(now: int)
    ensures var c := [Some(Sample(now, Finite(-5.0))), Some(Sample(now, Finite(3.0)))];
      SplitResult(Some(SumOp), c, now) == Some(Sample(now, Finite(-2.0)))
  {
    var c := [Some(Sample(now, Finite(-5.0))), Some(Sample(now, Finite(3.0)))];
    assert Sum(c, 1) == Finite(-5.0) && Count(c, 1) == 1;
  }

  // ---------- whole runs ----------

  ghost predicate NoneReady(polls: seq<Poll>) { forall k :: 0 <= k < |polls| ==> !polls[k].ready }

  /** Polls that are not ready change nothing, and send nothing. */
  lemma {:induction false} IdlePollsChangeNothing(cfg: Config, polls: seq<Poll>, idle: seq<Poll>)
    requires ValidPolls(cfg, polls + idle) && ValidPolls(cfg, polls) && NoneReady(idle)
    ensures Run(cfg, polls + idle) == Run(cfg, polls)
    decreases |idle|
  {
    if idle == [] {
      assert polls + idle == polls;
    } else {
      var init, all := idle[..|idle| - 1], polls + idle;
      assert all[..|all| - 1] == polls + init;
      IdlePollsChangeNothing(cfg, polls, init);
      assert Run(cfg, polls).sent + [] == Run(cfg, polls).sent;
    }
  }

  /** The last poll that was ready, as the turn of one monitor. */
  lemma LastReadyDecides(cfg: Config, before: seq<Poll>, last: Poll, idle: seq<Poll>, i: nat)
    requires IsExternal(cfg, i) && ValidPolls(cfg, before + [last] + idle) && last.ready && NoneReady(idle)
    ensures ValidPolls(cfg, before) && |last.inputs| == |cfg.monitors|
    ensures Run(cfg, before + [last] + idle).slots[i] ==
            Some(Stored(cfg.monitors[i], Run(cfg, before).slots[i], ExternalValue(cfg.monitors[i], last.inputs[i])))
  {
    var all, polls := before + [last] + idle, before + [last];
    assert all[|before|] == last;
    assert forall k :: 0 <= k < |polls| ==> polls[k] == all[k];
    assert forall k :: 0 <= k < |before| ==> before[k] == all[k];
    IdlePollsChangeNothing(cfg, polls, idle);
    assert polls[..|polls| - 1] == before;
    PollIsOwnTurn(cfg, Run(cfg, before).slots, last, i);
    hide PollOnce, Stored, ExternalValue;
  }

  /** After every run, a monitor of a single value knows the number of its last
      answer, or zero if that was empty. It knows it under the time of that answer
      or, with timestamps, under the later one at which it first had that number. */
  lemma StoredValueIsLast(cfg: Config, before: seq<Poll>, last: Poll, idle: seq<Poll>, i: nat)
    requires IsExternal(cfg, i) && ValidPolls(cfg, before + [last] + idle) && last.ready && NoneReady(idle)
    requires cfg.monitors[i].split.None? && |last.inputs| == |cfg.monitors|
    ensures var input, slot := last.inputs[i], Run(cfg, before + [last] + idle).slots[i];
      && slot.Some? && slot.value.Scalar?
      && slot.value.sample.value == (if input.text == "" then Finite(0.0) else input.number)
      && slot.value.sample.timestamp >= input.now
      && (!cfg.monitors[i].timestampGiven ==> slot.value.sample.timestamp == input.now)
  {
    LastReadyDecides(cfg, before, last, idle, i);
    RunKeepsKinds(cfg, before);
    assert KindHolds(cfg, Run(cfg, before).slots, i);
    hide Run, ValidPolls;
  }

  /** And one of a vector knows exactly the elements of its last answer: a list of
      fields, under the condition for that list to be read back. */
  lemma StoredVectorIsLastIff(cfg: Config, before: seq<Poll>, last: Poll, idle: seq<Poll>, i: nat, fields: seq<Field>)
    requires IsExternal(cfg, i) && ValidPolls(cfg, before + [last] + idle) && last.ready && NoneReady(idle)
    requires cfg.monitors[i].split.Some? && |last.inputs| == |cfg.monitors|
    requires var m := cfg.monitors[i];
      Joinable(fields, m.split.value, m.timestampGiven) && last.inputs[i].text == Join(fields, m.split.value)
    ensures var m, slot := cfg.monitors[i], Run(cfg, before + [last] + idle).slots[i];
      && slot.Some? && slot.value.Vector?
      && (slot.value.children == Meanings(fields, last.inputs[i].now) <==>
            AllHarmless(Join(fields, m.split.value), 0, fields, m.split.value) && AllInRange(fields))
      && (!m.timestampGiven ==>
            slot.value.split == SplitResult(m.splitOp, slot.value.children, last.inputs[i].now))
  {
    var m, input := cfg.monitors[i], last.inputs[i];
    LastReadyDecides(cfg, before, last, idle, i);
    RunKeepsKinds(cfg, before);
    assert KindHolds(cfg, Run(cfg, before).slots, i);
    TextIsThere(fields, m.split.value, m.timestampGiven);
    RoundTripFromIff(input.text, 0, fields, m.split.value, m.timestampGiven, input.now);
    hide Run, ValidPolls, AllHarmless, AllInRange, Meanings, Elements, Joinable, Join;
  }

  lemma TextIsThere(fields: seq<Field>, sep: string, stamped: bool)
    requires Joinable(fields, sep, stamped)
    ensures Join(fields, sep) != "" && Join(fields, sep)[0..] == Join(fields, sep)
  {
    NumeralTextLaws(fields[0].number);
  }
}
