/** Monitors and the resolution of the monitors that an operation refers to
    (rb_sensor_monitor.c, rb_sensor_monitor_array.c). */
module Monitors {
  import opened Wrappers
  import opened Values

  /** Where the value of a monitor comes from: the outside (a command or SNMP),
      or an operation over the monitors that its formula names. */
  datatype Source = External | Operation(formula: string, vars: seq<string>)

  datatype Monitor = Monitor(name: string, group: Option<string>, source: Source, send: bool,
                             timestampGiven: bool, split: Option<string>, splitOp: Option<SplitOp>)

  /** What the parser makes of the options of a monitor: an unknown split
      operation is dropped, and so is a timestamp option of an operation. */
  function Configure(name: string, group: Option<string>, source: Source, send: int, timestampGiven: int,
                     split: Option<string>, splitOp: Option<string>): (m: Monitor)
    ensures m.source.Operation? ==> !m.timestampGiven
    ensures m.source.External? ==> (m.timestampGiven <==> timestampGiven != 0)
    ensures m.name == name && m.group == group && m.source == source && m.split == split && (m.send <==> send != 0)
  {
    var op := if splitOp == Some("sum") then Some(SumOp) else if splitOp == Some("mean") then Some(MeanOp) else None;
    Monitor(name, group, source, send != 0, timestampGiven != 0 && source.External?, split, op)
  }

  /** What the options of a monitor lead to, for a vector with elements: "sum" to the
      sum, "mean" to a mean, and anything else to no split result. */
  lemma SplitOptionLaws(name: string, group: Option<string>, source: Source, send: int, timestampGiven: int,
                        split: Option<string>, splitOp: Option<string>, children: seq<Option<Sample>>, now: int)
    requires Count(children, |children|) > 0
    ensures var m := Configure(name, group, source, send, timestampGiven, split, splitOp);
      var r, n, sum := SplitResult(m.splitOp, children, now), Count(children, |children|), Sum(children, |children|);
      && (r.Some? <==> splitOp == Some("sum") || splitOp == Some("mean"))
      && (splitOp == Some("sum") ==> r.value.value == sum)
      && (splitOp == Some("mean") && sum.Finite? ==> r.value.value.Finite? && Scaled(n, r.value.value.r) == sum.r)
  {
    var m := Configure(name, group, source, send, timestampGiven, split, splitOp);
    CountIsPositive(children, |children|);
    SplitResultLaws(m.splitOp, children, now);
    SumIsFiniteIff(children, |children|);
  }

  /** Configured monitors, with separators that the vector parser can work with. */
  ghost predicate Configured(monitors: seq<Monitor>) {
    forall i :: 0 <= i < |monitors| ==>
      (monitors[i].source.Operation? ==> !monitors[i].timestampGiven) && monitors[i].split != Some("")
  }

  predicate Named(m: Monitor, name: string, group: Option<string>) {
    m.name == name && m.group == group
  }

  /** The first monitor from `from` on with this name in this group. */
  function Find(monitors: seq<Monitor>, name: string, group: Option<string>, from: nat): (r: Option<nat>)
    requires from <= |monitors|
    ensures r.Some? ==> from <= r.value < |monitors| && Named(monitors[r.value], name, group)
    decreases |monitors| - from
  {
    if from == |monitors| then None
    else if Named(monitors[from], name, group) then Some(from)
    else Find(monitors, name, group, from + 1)
  }

  lemma {:induction false} FindIsFirst(monitors: seq<Monitor>, name: string, group: Option<string>, from: nat)
    requires from <= |monitors|
    ensures var r := Find(monitors, name, group, from);
      && (r.Some? ==> monitors[r.value].name == name && monitors[r.value].group == group)
      && forall j :: from <= j < (if r.Some? then r.value else |monitors|) ==>
           monitors[j].name != name || monitors[j].group != group
    decreases |monitors| - from
  {
    if from < |monitors| && !Named(monitors[from], name, group) {
      FindIsFirst(monitors, name, group, from + 1);
    }
  }

  /** The positions that the variables of monitor i stand for, in the order of
      the variables. There are none unless every variable can be found. */
  function Dependencies(monitors: seq<Monitor>, i: nat): Option<seq<nat>>
    requires i < |monitors|
  {
    var m := monitors[i];
    if m.source.External? || m.source.vars == [] then None
    else if exists k :: 0 <= k < |m.source.vars| && Find(monitors, m.source.vars[k], m.group, 0).None? then None
    else Some(seq(|m.source.vars|, k requires 0 <= k < |m.source.vars| =>
                  Find(monitors, m.source.vars[k], m.group, 0).value))
  }

  /** The k-th position belongs to the first monitor that has the name of the
      k-th variable and the group of the operation; positions are missing
      exactly when there is no variable or some variable has no such monitor. */
  lemma DependencyLaws(monitors: seq<Monitor>, i: nat)
    requires i < |monitors|
    ensures var m := monitors[i];
      && (Dependencies(monitors, i).Some? <==>
            && m.source.Operation? && m.source.vars != []
            && forall k :: 0 <= k < |m.source.vars| ==>
                 exists j ::
                   0 <= j < |monitors| && monitors[j].name == m.source.vars[k] && monitors[j].group == m.group)
      && (Dependencies(monitors, i).Some? ==>
            var d := Dependencies(monitors, i).value;
            && |d| == |m.source.vars|
            && forall k :: 0 <= k < |d| ==>
                 && d[k] < |monitors| && monitors[d[k]].name == m.source.vars[k] && monitors[d[k]].group == m.group
                 && forall j :: 0 <= j < d[k] ==>
                      monitors[j].name != m.source.vars[k] || monitors[j].group != m.group)
  {
    var m := monitors[i];
    if m.source.Operation? {
      forall k | 0 <= k < |m.source.vars|
        ensures Find(monitors, m.source.vars[k], m.group, 0).Some? <==>
                exists j :: 0 <= j < |monitors| && monitors[j].name == m.source.vars[k] && monitors[j].group == m.group
      {
        FindIsFirst(monitors, m.source.vars[k], m.group, 0);
      }
      forall k | 0 <= k < |m.source.vars| && Find(monitors, m.source.vars[k], m.group, 0).Some?
        ensures forall j :: 0 <= j < Find(monitors, m.source.vars[k], m.group, 0).value ==>
                  monitors[j].name != m.source.vars[k] || monitors[j].group != m.group
      {
        FindIsFirst(monitors, m.source.vars[k], m.group, 0);
      }
    }
  }

  // ---------- the position arrays ----------

  /** Positions as the monitor stores them, ended by -1. */
  function Terminated(d: seq<nat>): seq<int> {
    var positions: seq<int> := d;
    positions + [-1]
  }

  /** find_monitor_pos */
  method FindMonitorPos(monitors: seq<Monitor>, name: string, group: Option<string>) returns (pos: int)
    ensures pos == match Find(monitors, name, group, 0) case None => -1 case Some(j) => j
  {
    for i := 0 to |monitors|
      invariant Find(monitors, name, group, 0) == Find(monitors, name, group, i)
    {
      var m := monitors[i];
      if name == m.name
         && ((m.group.None? && group.None?)
             || ((m.group.Some? && group.Some?) && group.value == m.group.value)) {
        return i;
      }
    }
    return -1;
  }

  /** get_monitor_dependencies: an array with one position a variable and -1 at
      the end, or nothing. */
  method GetMonitorDependencies(monitors: seq<Monitor>, i: nat) returns (deps: Option<seq<int>>)
    requires i < |monitors|
    ensures deps == match Dependencies(monitors, i) case None => None case Some(d) => Some(Terminated(d))
  {
    var m := monitors[i];
    var vars := if m.source.External? then [] else m.source.vars;
    if |vars| == 0 {
      return None;
    }
    var ret := new int[|vars| + 1](_ => 0);
    for k := 0 to |vars|
      invariant forall j :: 0 <= j < k ==>
        Find(monitors, vars[j], m.group, 0).Some? && ret[j] == Find(monitors, vars[j], m.group, 0).value
    {
      ret[k] := FindMonitorPos(monitors, vars[k], m.group);
      if ret[k] == -1 {
        return None;
      }
    }
    ret[|vars|] := -1;
    assert ret[..] == Terminated(Dependencies(monitors, i).value);
    return Some(ret[..]);
  }

  /** get_monitors_dependencies */
  method GetMonitorsDependencies(monitors: seq<Monitor>) returns (ret: array<Option<seq<int>>>)
    ensures fresh(ret) && ret.Length == |monitors|
    ensures forall i :: 0 <= i < |monitors| ==>
              ret[i] == match Dependencies(monitors, i) case None => None case Some(d) => Some(Terminated(d))
  {
    ret := new Option<seq<int>>[|monitors|](_ => None);
    for i := 0 to |monitors|
      invariant forall j :: 0 <= j < i ==>
        ret[j] == match Dependencies(monitors, j) case None => None case Some(d) => Some(Terminated(d))
    {
      ret[i] := GetMonitorDependencies(monitors, i);
    }
  }

  /** pos_array_length */
  method PosArrayLength(pos: seq<int>, ghost d: seq<nat>) returns (n: nat)
    requires pos == Terminated(d)
    ensures n == |d|
  {
    n := 0;
    while pos[n] != -1
      invariant n <= |d|
      decreases |d| - n
    {
      n := n + 1;
    }
  }

  function Selected<T>(values: seq<T>, d: seq<nat>): seq<T>
    requires forall k :: 0 <= k < |d| ==> d[k] < |values|
  {
    seq(|d|, k requires 0 <= k < |d| => values[d[k]])
  }

  /** rb_monitor_value_array_select: a new array of the right capacity, filled in
      the order of the positions. */
  method SelectValues<T>(values: array<Option<T>>, pos: seq<int>, ghost d: seq<nat>) returns (ret: array<Option<T>>)
    requires pos == Terminated(d)
    requires forall k :: 0 <= k < |d| ==> d[k] < values.Length
    ensures fresh(ret) && ret[..] == Selected(values[..], d)
  {
    var size := PosArrayLength(pos, d);
    ret := new Option<T>[size](_ => None);
    var count := 0;
    while pos[count] != -1
      invariant count <= |d|
      invariant forall k :: 0 <= k < count ==> ret[k] == values[d[k]]
      decreases |d| - count
    {
      ret[count] := values[pos[count]];
      count := count + 1;
    }
  }
}
