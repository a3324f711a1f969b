/** What a poll sends for a monitor that is asked outside, told from what is stored
    and what is read (rb_sensor_monitor_array.c). */
module Suppression {
  import opened Wrappers
  import opened Numbers
  import opened Values
  import opened Polling
  import opened Deduplication

  /** The messages about one monitor are those of its own turn. */
  lemma {:induction false} OwnTurnSends(cfg: Config, slots: Slots, inputs: seq<Input>, n: nat, i: nat, msg: Message)
    requires cfg.Valid() && n <= |cfg.monitors| == |slots| == |inputs| && msg.monitor == i
    ensures msg in Turns(cfg, slots, inputs, n).sent <==>
            i < n && msg in Step(cfg, Turns(cfg, slots, inputs, i).slots, i, inputs[i]).sent
    decreases n
  {
    hide Step;
    if n > 0 {
      OwnTurnSends(cfg, slots, inputs, n - 1, i, msg);
      if i != n - 1 {
        StepIsAbout(cfg, Turns(cfg, slots, inputs, n - 1).slots, n - 1, inputs[n - 1]);
      }
    }
  }

  lemma StepIsAbout(cfg: Config, slots: Slots, i: nat, input: Input)
    requires cfg.Valid() && i < |cfg.monitors| == |slots|
    ensures forall k :: 0 <= k < |Step(cfg, slots, i, input).sent| ==> Step(cfg, slots, i, input).sent[k].monitor == i
  {
    var v := NewValue(cfg, slots, i, input);
    if v.Some? {
      EmittedIsAbout(cfg.monitors[i], i, slots[i], v.value);
    }
    hide Emitted, NewValue;
  }

  lemma PollSendsOwn(cfg: Config, slots: Slots, poll: Poll, i: nat, msg: Message)
    requires IsExternal(cfg, i) && |cfg.monitors| == |slots| == |poll.inputs| && msg.monitor == i
    ensures msg in PollOnce(cfg, slots, poll).sent <==>
            poll.ready && msg in Emitted(cfg.monitors[i], i, slots[i], ExternalValue(cfg.monitors[i], poll.inputs[i]))
  {
    if poll.ready {
      OwnTurnSends(cfg, slots, poll.inputs, |cfg.monitors|, i, msg);
      OperationSees(cfg, slots, poll.inputs, i, i);
    }
    hide Emitted, ExternalValue, Turns;
  }

  /** What a run sends in its last poll. */
  function LastSent(cfg: Config, polls: seq<Poll>, last: Poll): seq<Message>
    requires ValidPolls(cfg, polls) && |last.inputs| == |cfg.monitors|
  {
    PollOnce(cfg, Run(cfg, polls).slots, last).sent
  }

  lemma LastSentIsLast(cfg: Config, polls: seq<Poll>, last: Poll)
    requires ValidPolls(cfg, polls) && |last.inputs| == |cfg.monitors|
    ensures ValidPolls(cfg, polls + [last])
    ensures Run(cfg, polls + [last]).sent == Run(cfg, polls).sent + LastSent(cfg, polls, last)
  {
    assert (polls + [last])[..|polls|] == polls;
  }

  /** Over all runs, exactly which elements a poll sends: those that were read, and
      for which the vector that is stored has none, or one that is older or has
      another number; all of them without timestamps, and none without `send`. */
  lemma ElementsOfPollIff(cfg: Config, polls: seq<Poll>, last: Poll, i: nat, k: nat, s: Sample)
    requires ValidPolls(cfg, polls) && |last.inputs| == |cfg.monitors|
    requires IsExternal(cfg, i) && cfg.monitors[i].split.Some?
    ensures var m, slot := cfg.monitors[i], Run(cfg, polls).slots[i];
      var read := ExternalValue(m, last.inputs[i]);
      && (slot.Some? ==> slot.value.Vector?) && read.Vector?
      && (Message(i, Some(k), s) in LastSent(cfg, polls, last) <==>
            && last.ready && m.send && k < |read.children| && read.children[k] == Some(s)
            && (|| !m.timestampGiven || slot.None? || k >= |slot.value.children| || slot.value.children[k].None?
                || TellsMore(slot.value.children[k].value, s)))
  {
    var m, slots := cfg.monitors[i], Run(cfg, polls).slots;
    RunKeepsKinds(cfg, polls);
    assert KindHolds(cfg, slots, i);
    PollSendsOwn(cfg, slots, last, i, Message(i, Some(k), s));
    ElementsSentWhenDue(m, i, slots[i], ExternalValue(m, last.inputs[i]), Message(i, Some(k), s));
    hide Run, PollOnce, Emitted, ValidPolls;
  }

  /** And exactly when it sends a single value. */
  lemma ValueOfPollIff(cfg: Config, polls: seq<Poll>, last: Poll, i: nat, instance: Option<nat>, s: Sample)
    requires ValidPolls(cfg, polls) && |last.inputs| == |cfg.monitors|
    requires IsExternal(cfg, i) && cfg.monitors[i].split.None?
    ensures var m, slot := cfg.monitors[i], Run(cfg, polls).slots[i];
      && (slot.Some? ==> slot.value.Scalar?)
      && (Message(i, instance, s) in LastSent(cfg, polls, last) <==>
            && last.ready && m.send && instance == None && ExternalValue(m, last.inputs[i]) == Scalar(s)
            && (!m.timestampGiven || slot.None? || TellsMore(slot.value.sample, s)))
  {
    var m, slots := cfg.monitors[i], Run(cfg, polls).slots;
    RunKeepsKinds(cfg, polls);
    assert KindHolds(cfg, slots, i);
    var read := ExternalValue(m, last.inputs[i]);
    assert read.Scalar?;
    PollSendsOwn(cfg, slots, last, i, Message(i, instance, s));
    ScalarSentWhenDue(m, i, slots[i], read.sample);
    hide Run, PollOnce, Emitted, ValidPolls, ExternalValue;
  }

  /** None of them is NaN, which never is the same as before. */
  predicate AreNumbers(children: seq<Option<Sample>>) {
    forall k :: 0 <= k < |children| && children[k].Some? ==> children[k].value.value != NaN
  }

  /** A poll that reads again what is stored, at the same times, sends no element. */
  lemma RepeatedPollSendsNoElement(cfg: Config, polls: seq<Poll>, last: Poll, i: nat, msg: Message)
    requires ValidPolls(cfg, polls) && |last.inputs| == |cfg.monitors|
    requires IsExternal(cfg, i) && cfg.monitors[i].split.Some? && cfg.monitors[i].timestampGiven
    requires var slot, read := Run(cfg, polls).slots[i], ExternalValue(cfg.monitors[i], last.inputs[i]);
      && slot.Some? && slot.value.Vector? && read.Vector?
      && slot.value.children == read.children && AreNumbers(read.children)
    requires msg.monitor == i && msg.instance.Some?
    ensures msg !in LastSent(cfg, polls, last)
  {
    ElementsOfPollIff(cfg, polls, last, i, msg.instance.value, msg.sample);
    hide LastSent, Run;
  }
}
