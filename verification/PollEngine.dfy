/** The poll loop as it runs: last known values in memory, overwritten slot by
    slot, with every value freed by hand (rb_sensor_monitor_array.c, rb_sensor.c). */
module PollEngine {
  import opened Wrappers
  import opened Numbers
  import opened Values
  import opened VectorParser
  import opened Monitors
  import opened Operations
  import opened Polling
  import opened ValueHeap

  type Roots = seq<Option<Ref>>

  // ---------- ownership ----------

  ghost predicate Rooted(s: Store, root: Option<Ref>) { root.Some? ==> WellFormed(s, root.value) }

  ghost predicate AllRooted(s: Store, roots: Roots) { forall i :: 0 <= i < |roots| ==> Rooted(s, roots[i]) }

  ghost function Part(s: Store, root: Option<Ref>): set<Ref> {
    if root.Some? && WellFormed(s, root.value) then Footprint(s, root.value) else {}
  }

  ghost predicate Apart(s: Store, roots: Roots) {
    forall i, j :: 0 <= i < j < |roots| ==> Part(s, roots[i]) !! Part(s, roots[j])
  }

  ghost predicate Covered(s: Store, roots: Roots) {
    forall r :: r in s ==> exists i :: 0 <= i < |roots| && r in Part(s, roots[i])
  }

  /** The roots own memory: their values are whole, share nothing, and together
      they are all there is. */
  ghost predicate Owned(s: Store, roots: Roots) {
    AllRooted(s, roots) && Apart(s, roots) && Covered(s, roots)
  }

  lemma OwnedIsRooted(s: Store, roots: Roots)
    requires Owned(s, roots)
    ensures AllRooted(s, roots)
  {
  }

  ghost function Denoted(s: Store, root: Option<Ref>): Option<Value>
    requires Rooted(s, root)
  {
    if root.Some? then Some(Denote(s, root.value)) else None
  }

  ghost function AllDenoted(s: Store, roots: Roots): (r: Slots)
    requires AllRooted(s, roots)
    ensures |r| == |roots|
  {
    seq(|roots|, i requires 0 <= i < |roots| => Denoted(s, roots[i]))
  }

  lemma RootUnaffected(s: Store, t: Store, root: Option<Ref>)
    requires Rooted(s, root) && SameOn(s, t, Part(s, root))
    ensures Rooted(t, root) && Part(t, root) == Part(s, root) && Denoted(t, root) == Denoted(s, root)
  {
    if root.Some? {
      Unaffected(s, t, root.value);
    }
  }

  lemma PartIsLive(s: Store, root: Option<Ref>)
    requires Rooted(s, root)
    ensures forall r :: r in Part(s, root) ==> r in s
  {
  }

  /** A new value becomes one more root. */
  lemma OwnedWithNew(s: Store, t: Store, roots: Roots, r: Ref)
    requires Owned(s, roots) && SameOn(s, t, s.Keys) && WellFormed(t, r)
    requires Footprint(t, r) !! s.Keys && t.Keys == s.Keys + Footprint(t, r)
    ensures Owned(t, roots + [Some(r)])
    ensures AllDenoted(t, roots + [Some(r)]) == AllDenoted(s, roots) + [Some(Denote(t, r))]
  {
    hide WellFormed, Footprint, Denote;
    var all := roots + [Some(r)];
    forall i | 0 <= i < |roots|
      ensures Rooted(t, all[i]) && Part(t, all[i]) == Part(s, roots[i]) && Denoted(t, all[i]) == Denoted(s, roots[i])
      ensures Part(t, all[i]) !! Footprint(t, r)
    {
      PartIsLive(s, roots[i]);
      RootUnaffected(s, t, roots[i]);
    }
    assert Part(t, all[|roots|]) == Footprint(t, r);
    CoveredWithNew(s, t, roots, Some(r));
    ApartWithNew(s, t, roots, Some(r));
  }

  lemma CoveredWithNew(s: Store, t: Store, roots: Roots, r: Option<Ref>)
    requires Covered(s, roots) && t.Keys == s.Keys + Part(t, r)
    requires forall i :: 0 <= i < |roots| ==> Part(t, (roots + [r])[i]) == Part(s, roots[i])
    ensures Covered(t, roots + [r])
  {
    hide Part;
    var all := roots + [r];
    forall x | x in t
      ensures exists i :: 0 <= i < |all| && x in Part(t, all[i])
    {
      if x in s {
        var i :| 0 <= i < |roots| && x in Part(s, roots[i]);
        assert x in Part(t, all[i]);
      } else {
        assert x in Part(t, all[|roots|]);
      }
    }
  }

  lemma ApartWithNew(s: Store, t: Store, roots: Roots, r: Option<Ref>)
    requires Apart(s, roots)
    requires forall i :: 0 <= i < |roots| ==> Part(t, (roots + [r])[i]) == Part(s, roots[i])
    requires forall i :: 0 <= i < |roots| ==> Part(t, (roots + [r])[i]) !! Part(t, r)
    ensures Apart(t, roots + [r])
  {
    hide Part;
  }

  /** Freeing the value of a root leaves the others alone. */
  lemma {:induction false} OwnedAfterDone(s: Store, t: Store, roots: Roots, k: nat)
    requires Owned(s, roots) && k < |roots| && roots[k].Some?
    requires t == s - Footprint(s, roots[k].value)
    ensures Owned(t, roots[k := None])
    ensures AllDenoted(t, roots[k := None]) == AllDenoted(s, roots)[k := None]
  {
    hide WellFormed, Footprint, Denote;
    var all := roots[k := None];
    forall i | 0 <= i < |roots| && i != k
      ensures Rooted(t, all[i]) && Part(t, all[i]) == Part(s, roots[i]) && Denoted(t, all[i]) == Denoted(s, roots[i])
    {
      PartIsLive(s, roots[i]);
      assert Part(s, roots[i]) !! Part(s, roots[k]);
      RootUnaffected(s, t, roots[i]);
    }
    assert Part(t, all[k]) == {};
    forall x | x in t
      ensures exists i :: 0 <= i < |all| && x in Part(t, all[i])
    {
      var i :| 0 <= i < |roots| && x in Part(s, roots[i]);
      assert x in Part(t, all[i]);
    }
  }

  /** The last root takes a slot that is empty. */
  lemma OwnedAfterMove(s: Store, roots: Roots, i: nat, r: Option<Ref>)
    requires i < |roots| && Owned(s, roots[i := None] + [r])
    ensures Rooted(s, r) && Owned(s, roots[i := r])
    ensures AllDenoted(s, roots[i := r]) == AllDenoted(s, roots[i := None] + [r])[..|roots|][i := Denoted(s, r)]
  {
    hide Rooted, Part, Denoted, Apart, Covered;
    var n, before, after := |roots|, roots[i := None] + [r], roots[i := r];
    assert before[n] == r;
    forall j | 0 <= j < n
      ensures Rooted(s, after[j])
    {
      assert after[j] == before[if j == i then n else j];
    }
    ApartAfterMove(s, roots, i, r);
    CoveredAfterMove(s, roots, i, r);
  }

  lemma ApartAfterMove(s: Store, roots: Roots, i: nat, r: Option<Ref>)
    requires i < |roots| && Apart(s, roots[i := None] + [r])
    ensures Apart(s, roots[i := r])
  {
    hide Part;
    var n, before, after := |roots|, roots[i := None] + [r], roots[i := r];
    forall j, k | 0 <= j < k < n
      ensures Part(s, after[j]) !! Part(s, after[k])
    {
      assert after[j] == before[if j == i then n else j] && after[k] == before[if k == i then n else k];
      if j == i {
        assert Part(s, before[k]) !! Part(s, before[n]);
      } else if k == i {
        assert Part(s, before[j]) !! Part(s, before[n]);
      } else {
        assert Part(s, before[j]) !! Part(s, before[k]);
      }
    }
  }

  lemma CoveredAfterMove(s: Store, roots: Roots, i: nat, r: Option<Ref>)
    requires i < |roots| && Covered(s, roots[i := None] + [r])
    ensures Covered(s, roots[i := r])
  {
    assert Part(s, None) == {};
    hide Part;
    var n, before, after := |roots|, roots[i := None] + [r], roots[i := r];
    forall x | x in s
      ensures exists j :: 0 <= j < n && x in Part(s, after[j])
    {
      var j :| 0 <= j < n + 1 && x in Part(s, before[j]);
      assert x in Part(s, after[if j == n then i else j]);
    }
  }

  /** A root that points nowhere can be dropped. */
  lemma OwnedWithoutLast(s: Store, roots: Roots)
    requires Owned(s, roots + [None])
    ensures Owned(s, roots) && AllDenoted(s, roots) == AllDenoted(s, roots + [None])[..|roots|]
  {
    var all := roots + [None];
    hide Rooted, Part, Denoted, Apart, Covered;
    forall j | 0 <= j < |roots|
      ensures Rooted(s, roots[j])
    {
      assert Rooted(s, all[j]);
    }
    ApartWithoutLast(s, roots);
    CoveredWithoutLast(s, roots);
  }

  lemma ApartWithoutLast(s: Store, roots: Roots)
    requires Apart(s, roots + [None])
    ensures Apart(s, roots)
  {
    hide Part;
    var all := roots + [None];
    forall j, k | 0 <= j < k < |roots|
      ensures Part(s, roots[j]) !! Part(s, roots[k])
    {
      assert Part(s, all[j]) !! Part(s, all[k]);
    }
  }

  lemma CoveredWithoutLast(s: Store, roots: Roots)
    requires Covered(s, roots + [None])
    ensures Covered(s, roots)
  {
    var all := roots + [None];
    assert Part(s, None) == {};
    hide Part;
    forall x | x in s
      ensures exists j :: 0 <= j < |roots| && x in Part(s, roots[j])
    {
      var j :| 0 <= j < |all| && x in Part(s, all[j]);
      assert x in Part(s, roots[j]);
    }
  }

  lemma SwappedPair(s: Store, a: Ref, b: Ref)
    requires WellFormed(s, a) && WellFormed(s, b) && s[a].Tree? && s[b].Tree? && Footprint(s, a) !! Footprint(s, b)
    ensures var t := Swapped(s, a, b);
      && WellFormed(t, a) && WellFormed(t, b) && Footprint(t, a) !! Footprint(t, b)
      && Footprint(t, a) + Footprint(t, b) == Footprint(s, a) + Footprint(s, b)
      && Denote(t, a) == Vector(Denote(s, b).children, Denote(s, a).split)
      && Denote(t, b) == Vector(Denote(s, a).children, Denote(s, b).split)
  {
    var t := Swapped(s, a, b);
    var c, d := s[a].children, s[b].children;
    assert a in Footprint(s, a) && c in Footprint(s, a) && b in Footprint(s, b) && d in Footprint(s, b);
    SwappedLeaves(s, t, a, b, s[c].slots);
    SwappedLeaves(s, t, a, b, s[d].slots);
  }

  lemma SwappedLeaves(s: Store, t: Store, a: Ref, b: Ref, slots: seq<Option<Ref>>)
    requires a in s && b in s && s[a].Tree? && s[b].Tree? && t == Swapped(s, a, b) && AreLeaves(s, slots)
    ensures AreLeaves(t, slots) && Samples(t, slots) == Samples(s, slots)
  {
  }

  lemma {:induction false} OwnedAfterSwap(s: Store, roots: Roots, i: nat, j: nat)
    requires Owned(s, roots) && i < j < |roots| && roots[i].Some? && roots[j].Some?
    requires s[roots[i].value].Tree? && s[roots[j].value].Tree?
    ensures var a, b := roots[i].value, roots[j].value;
      var t := Swapped(s, a, b);
      && Owned(t, roots)
      && AllDenoted(t, roots) ==
         AllDenoted(s, roots)[i := Some(Vector(Denote(s, b).children, Denote(s, a).split))]
                             [j := Some(Vector(Denote(s, a).children, Denote(s, b).split))]
  {
    var a, b := roots[i].value, roots[j].value;
    var t := Swapped(s, a, b);
    assert Part(s, roots[i]) !! Part(s, roots[j]);
    SwappedPair(s, a, b);
    forall k | 0 <= k < |roots| && k != i && k != j
      ensures Rooted(t, roots[k]) && Part(t, roots[k]) == Part(s, roots[k])
      ensures Denoted(t, roots[k]) == Denoted(s, roots[k])
      ensures Part(t, roots[k]) !! Part(s, roots[i]) + Part(s, roots[j])
    {
      hide WellFormed, Denote;
      assert Part(s, roots[k]) !! Part(s, roots[i]) && Part(s, roots[k]) !! Part(s, roots[j]);
      assert a in Part(s, roots[i]) && b in Part(s, roots[j]);
      PartIsLive(s, roots[k]);
      RootUnaffected(s, t, roots[k]);
    }
    OwnedAfterExchange(s, t, roots, i, j);
    assert Denoted(t, roots[i]) == Some(Vector(Denote(s, b).children, Denote(s, a).split));
    assert Denoted(t, roots[j]) == Some(Vector(Denote(s, a).children, Denote(s, b).split));
    AllDenotedExcept(s, t, roots, i, j);
  }

  /** Two roots that share out what they owned before still own it. */
  lemma OwnedAfterExchange(s: Store, t: Store, roots: Roots, i: nat, j: nat)
    requires Owned(s, roots) && i < j < |roots| && s.Keys == t.Keys
    requires AllRooted(t, roots)
    requires forall k :: 0 <= k < |roots| && k != i && k != j ==> Part(t, roots[k]) == Part(s, roots[k])
    requires Part(t, roots[i]) !! Part(t, roots[j])
    requires Part(t, roots[i]) + Part(t, roots[j]) == Part(s, roots[i]) + Part(s, roots[j])
    ensures Owned(t, roots)
  {
    hide Rooted, Part;
    forall k | 0 <= k < |roots| && k != i && k != j
      ensures Part(t, roots[k]) !! Part(t, roots[i]) && Part(t, roots[k]) !! Part(t, roots[j])
    {
      assert Part(s, roots[k]) !! Part(s, roots[i]) + Part(s, roots[j]);
      assert Part(t, roots[k]) !! Part(t, roots[i]) + Part(t, roots[j]);
    }
    forall x | x in t
      ensures exists k :: 0 <= k < |roots| && x in Part(t, roots[k])
    {
      var k :| 0 <= k < |roots| && x in Part(s, roots[k]);
      assert k == i || k == j ==> x in Part(t, roots[i]) + Part(t, roots[j]);
      assert x in Part(t, roots[i]) || x in Part(t, roots[j]) || x in Part(t, roots[k]);
    }
  }

  lemma AllDenotedExcept(s: Store, t: Store, roots: Roots, i: nat, j: nat)
    requires AllRooted(s, roots) && AllRooted(t, roots) && i < j < |roots|
    requires forall k :: 0 <= k < |roots| && k != i && k != j ==> Denoted(t, roots[k]) == Denoted(s, roots[k])
    ensures AllDenoted(t, roots) == AllDenoted(s, roots)[i := Denoted(t, roots[i])][j := Denoted(t, roots[j])]
  {
    hide Rooted, Denoted;
  }

  lemma KindOfNode(s: Store, r: Ref)
    requires WellFormed(s, r)
    ensures s[r].Leaf? <==> Denote(s, r).Scalar?
    ensures s[r].Tree? <==> Denote(s, r).Vector?
    ensures s[r].Leaf? ==> s[r].sample == Denote(s, r).sample
  {
  }

  // ---------- what happens to a new value ----------

  /** It replaces the known one, which is freed. */
  lemma {:induction false} OwnedAfterReplace(s: Store, t: Store, roots: Roots, i: nat, value: Ref)
    requires i < |roots| && Owned(s, roots + [Some(value)]) && Rooted(s, roots[i]) && WellFormed(s, value)
    requires t == s - Part(s, roots[i])
    ensures Owned(t, roots[i := Some(value)])
    ensures AllDenoted(t, roots[i := Some(value)]) ==
            AllDenoted(s, roots + [Some(value)])[..|roots|][i := Some(Denote(s, value))]
  {
    hide Footprint, Denote, WellFormed, Apart, Covered;
    var all := roots + [Some(value)];
    assert all[i] == roots[i] && all[|roots|] == Some(value);
    if roots[i].Some? {
      OwnedAfterDone(s, t, all, i);
    } else {
      assert t == s && all[i := None] == all;
    }
    assert all[i := None] == roots[i := None] + [Some(value)];
    OwnedAfterMove(t, roots, i, Some(value));
    assert AllDenoted(t, all[i := None])[|roots|] == AllDenoted(s, all)[|roots|] == Some(Denote(s, value));
  }

  /** It is freed itself. */
  lemma {:induction false} OwnedAfterDiscard(s: Store, t: Store, roots: Roots, value: Ref)
    requires Owned(s, roots + [Some(value)]) && WellFormed(s, value) && t == s - Footprint(s, value)
    ensures Owned(t, roots) && AllDenoted(t, roots) == AllDenoted(s, roots + [Some(value)])[..|roots|]
  {
    hide Footprint, Denote, WellFormed, Apart, Covered;
    var all := roots + [Some(value)];
    assert all[|roots|] == Some(value);
    OwnedAfterDone(s, t, all, |roots|);
    assert all[|roots| := None] == roots + [None];
    OwnedWithoutLast(t, roots);
  }

  /** It exchanges its elements with the known one, and then is freed. */
  lemma {:induction false} OwnedAfterExchangeAndDiscard(s: Store, t: Store, u: Store, roots: Roots, i: nat, known: Ref,
                                                        value: Ref)
    requires i < |roots| && Owned(s, roots + [Some(value)]) && roots[i] == Some(known)
    requires WellFormed(s, value) && WellFormed(s, known) && s[value].Tree? && s[known].Tree?
    requires t == Swapped(s, known, value)
    ensures WellFormed(t, value)
    ensures u == t - Footprint(t, value) ==>
              && Owned(u, roots)
              && AllDenoted(u, roots) == AllDenoted(s, roots + [Some(value)])[..|roots|]
                                         [i := Some(Vector(Denote(s, value).children, Denote(s, known).split))]
  {
    var all := roots + [Some(value)];
    assert all[|roots|] == Some(value) && all[i] == Some(known);
    OwnedAfterSwap(s, all, i, |roots|);
    assert Rooted(t, all[|roots|]);
    hide Footprint, Denote, WellFormed, Apart, Covered;
    if u == t - Footprint(t, value) {
      OwnedAfterDiscard(t, u, roots, value);
    }
  }

  /** A message array with its count, as the sender takes it. */
  type Batch = seq<Option<Message>>

  predicate Carries(batch: Batch, msgs: seq<Message>) {
    |batch| == |msgs| && forall k :: 0 <= k < |msgs| ==> batch[k] == Some(msgs[k])
  }

  predicate ListCarries(batches: seq<Batch>, msgs: seq<Message>) {
    |batches| <= 1 && if batches == [] then msgs == [] else Carries(batches[0], msgs)
  }

  /** The new value at `value` has been dealt with: memory has gone from s to t,
      slot i points to `ret`, and `msgs` is to be sent. */
  ghost predicate DealtWith(cfg: Config, i: nat, s: Store, t: Store, roots: Roots, value: Ref, ret: Ref,
                            msgs: Option<Batch>)
    requires i < |cfg.monitors| == |roots| && AllRooted(s, roots + [Some(value)])
    requires Rooted(s, roots[i]) && WellFormed(s, value)
  {
    var m, v, known := cfg.monitors[i], Denote(s, value), Denoted(s, roots[i]);
    && Owned(t, roots[i := Some(ret)])
    && AllDenoted(t, roots[i := Some(ret)]) ==
       AllDenoted(s, roots + [Some(value)])[..|roots|][i := Some(Stored(m, known, v))]
    && (msgs.None? ==> Emitted(m, i, known, v) == [])
    && (msgs.Some? ==> Carries(msgs.value, Emitted(m, i, known, v)))
  }

  lemma KnownStays(s: Store, roots: Roots, i: nat, value: Ref)
    requires i < |roots| && AllRooted(s, roots + [Some(value)]) && roots[i].Some?
    ensures Rooted(s, roots[i])
    ensures var known := AllDenoted(s, roots + [Some(value)])[..|roots|];
      known[i := Denoted(s, roots[i])] == known
  {
    assert (roots + [Some(value)])[i] == roots[i];
  }

  lemma {:induction false} DealtWithByDiscard(cfg: Config, i: nat, s: Store, t: Store, roots: Roots, value: Ref,
                                              known: Ref)
    requires i < |cfg.monitors| == |roots| && Owned(s, roots + [Some(value)]) && roots[i] == Some(known)
    requires WellFormed(s, value) && WellFormed(s, known) && s[value].Leaf? && s[known].Leaf?
    requires !Replaces(cfg.monitors[i], Some(Denote(s, known)), Denote(s, value))
    requires t == s - Footprint(s, value)
    ensures DealtWith(cfg, i, s, t, roots, value, known, None)
  {
    hide Owned;
    OwnedIsRooted(s, roots + [Some(value)]);
    KindOfNode(s, value);
    KindOfNode(s, known);
    KnownStays(s, roots, i, value);
    hide Footprint, Denote, WellFormed, AllRooted, Printed, Changes, AllDenoted;
    OwnedAfterDiscard(s, t, roots, value);
    assert roots[i := Some(known)] == roots;
  }

  // ---------- printing what changed ----------

  /** The first two loops of process_monitor_value_v_print: the elements to print,
      compared with the known ones as far as these go, and all of those beyond. */
  method ChangedElements(v: seq<Option<Sample>>, known: seq<Option<Sample>>) returns (print_: array<Option<Sample>>)
    ensures fresh(print_) && print_[..] == Changes(v, known)
  {
    print_ := new Option<Sample>[|v|](_ => None);
    var i := 0;
    while i < |v| && i < |known|
      invariant i <= |v|
      invariant forall k :: 0 <= k < |v| ==> print_[k] == if k < i then Changes(v, known)[k] else None
    {
      if v[i].Some? {
        var update := known[i].None?
                      || known[i].value.timestamp - v[i].value.timestamp < 0
                      || Differs(known[i].value.value, v[i].value.value);
        if update {
          print_[i] := v[i];
        }
      }
      i := i + 1;
    }
    while i < |v|
      invariant |v| <= |known| ==> i == |v|
      invariant i <= |v| && (i < |v| ==> |known| <= i)
      invariant forall k :: 0 <= k < |v| ==> print_[k] == if k < i then Changes(v, known)[k] else None
    {
      print_[i] := v[i];
      i := i + 1;
    }
  }

  // ---------- the engine ----------

  class Engine {
    const cfg: Config
    const memory: Memory
    const lastKnown: array<Option<Ref>>
    const deps: array<Option<seq<int>>>
    var sent: seq<Message>

    ghost predicate Valid()
      reads this, memory, lastKnown, deps
    {
      && cfg.Valid() && memory.Valid()
      && lastKnown.Length == |cfg.monitors| == deps.Length
      && Owned(memory.store, lastKnown[..])
      && KindsHold(cfg, AllDenoted(memory.store, lastKnown[..]))
      && DepsHold()
    }

    ghost predicate DepsHold()
      reads deps
    {
      && deps.Length == |cfg.monitors|
      && forall i :: 0 <= i < deps.Length ==>
           deps[i] == match Dependencies(cfg.monitors, i) case None => None case Some(d) => Some(Terminated(d))
    }

    /** The last known values, seen as values. */
    ghost function Known(): Slots
      reads this, memory, lastKnown, deps
      requires Valid()
    {
      AllDenoted(memory.store, lastKnown[..])
    }

    constructor (cfg: Config)
      requires cfg.Valid()
      ensures Valid() && fresh(memory) && fresh(lastKnown) && fresh(deps)
      ensures this.cfg == cfg && Known() == NothingKnown(cfg) && sent == []
    {
      this.cfg := cfg;
      memory := new Memory();
      lastKnown := new Option<Ref>[|cfg.monitors|](_ => None);
      sent := [];
      var positions := GetMonitorsDependencies(cfg.monitors);
      deps := positions;
      new;
      assert forall i :: 0 <= i < |cfg.monitors| ==> lastKnown[..][i] == None;
    }

    /** process_sensor_monitor: a new value in memory of its own, or none. */
    method ProcessSensorMonitor(i: nat, vars: Option<seq<Option<Ref>>>, input: Input) returns (value: Option<Ref>)
      requires cfg.Valid() && memory.Valid() && i < |cfg.monitors|
      requires vars.Some? ==> AllRooted(memory.store, vars.value)
      requires vars.Some? <==> Dependencies(cfg.monitors, i).Some?
      requires vars.Some? ==> |vars.value| == |Dependencies(cfg.monitors, i).value|
      modifies memory
      ensures memory.Valid() && SameOn(old(memory.store), memory.store, old(memory.store).Keys)
      ensures value.None? ==> memory.store == old(memory.store)
      ensures value.Some? ==>
                && WellFormed(memory.store, value.value)
                && Footprint(memory.store, value.value) !! old(memory.store).Keys
                && memory.store.Keys == old(memory.store).Keys + Footprint(memory.store, value.value)
      ensures Denoted(memory.store, value) ==
              Produced(cfg, i, if vars.None? then None else Some(AllDenoted(old(memory.store), vars.value)), input)
    {
      var m := cfg.monitors[i];
      var result: Option<Value>;
      match m.source {
        case External =>
          var text, number := input.text, input.number;
          if text == "" {
            text, number := "0", Finite(0.0);
          }
          if m.split.None? {
            result := Some(Scalar(Sample(input.now, number)));
          } else {
            var children, split := ProcessVectorMonitor(text, m.split.value, m.splitOp, m.timestampGiven, input.now);
            result := Some(Vector(children[..], split));
          }
        case Operation(_, names) =>
          DependencyLaws(cfg.monitors, i);
          var loaded: Option<Variables> := None;
          if vars.Some? {
            loaded := Some(LoadAll(memory.store, vars.value));
          }
          result := GetOpResult(m, loaded, cfg.eval, input.now);
      }
      value := None;
      if result.Some? {
        var r := memory.NewValue(result.value);
        value := Some(r);
      }
    }

    /** process_monitor_value_v: print what changed, let the two vectors exchange
        their elements in place, and free the new one, which now holds the old
        elements. */
    method ProcessMonitorValueV(i: nat, value: Ref, known: Ref, ghost roots: Roots) returns (msgs: Option<Batch>)
      requires memory.Valid() && i < |cfg.monitors| == |roots| && roots[i] == Some(known)
      requires Owned(memory.store, roots + [Some(value)])
      requires WellFormed(memory.store, value) && WellFormed(memory.store, known)
      requires memory.store[value].Tree? && memory.store[known].Tree?
      modifies memory
      ensures memory.Valid() && Owned(memory.store, roots)
      ensures var v, k := Denote(old(memory.store), value), Denote(old(memory.store), known);
        && AllDenoted(memory.store, roots) ==
           AllDenoted(old(memory.store), roots + [Some(value)])[..|roots|][i := Some(Vector(v.children, k.split))]
        && msgs.Some? == cfg.monitors[i].send
        && (msgs.Some? ==> Carries(msgs.value, Printed(i, Vector(Changes(v.children, k.children), v.split))))
    {
      hide Footprint, Printed, Changes, Part, Apart, Covered, Rooted;
      var v, k := Denote(memory.store, value), Denote(memory.store, known);
      msgs := None;
      if cfg.monitors[i].send {
        var changed := ChangedElements(v.children, k.children);
        var buf, count := PrintMonitorValue(i, Vector(changed[..], v.split));
        msgs := Some(buf[..count]);
      }
      ghost var s := memory.store;
      memory.SwapElements(known, value);
      ghost var t := memory.store;
      OwnedAfterExchangeAndDiscard(s, t, t, roots, i, known, value);
      memory.Done(value);
      OwnedAfterExchangeAndDiscard(s, t, memory.store, roots, i, known, value);
    }

    /** The update branch of process_monitor_value: print the new value and free
        the known one. */
    method ReplaceKnown(i: nat, value: Ref, known: Option<Ref>, ghost roots: Roots) returns (msgs: Option<Batch>)
      requires memory.Valid() && i < |cfg.monitors| == |roots| && roots[i] == known
      requires Owned(memory.store, roots + [Some(value)])
      requires WellFormed(memory.store, value) && Rooted(memory.store, known)
      modifies memory
      ensures memory.Valid() && Owned(memory.store, roots[i := Some(value)])
      ensures AllDenoted(memory.store, roots[i := Some(value)]) ==
              AllDenoted(old(memory.store), roots + [Some(value)])[..|roots|]
                        [i := Some(Denote(old(memory.store), value))]
      ensures msgs.Some? == cfg.monitors[i].send
      ensures msgs.Some? ==> Carries(msgs.value, Printed(i, Denote(old(memory.store), value)))
    {
      hide Footprint, Denote, WellFormed, Printed, Apart, Covered;
      ghost var s := memory.store;
      msgs := None;
      if cfg.monitors[i].send {
        var buf, count := PrintMonitorValue(i, Denote(memory.store, value));
        msgs := Some(buf[..count]);
      }
      if known.Some? {
        memory.Done(known.value);
      }
      OwnedAfterReplace(s, memory.store, roots, i, value);
    }

    /** process_monitor_value: decide between the new value and the last known
        one, free the one that loses, and say what is to be sent. */
    method ProcessMonitorValue(i: nat, value: Ref, known: Option<Ref>, ghost roots: Roots)
      returns (ret: Ref, msgs: Option<Batch>)
      requires memory.Valid() && i < |cfg.monitors| == |roots| && roots[i] == known
      requires Owned(memory.store, roots + [Some(value)])
      requires WellFormed(memory.store, value) && Rooted(memory.store, known)
      requires known.Some? ==> (memory.store[known.value].Tree? <==> memory.store[value].Tree?)
      modifies memory
      ensures memory.Valid()
      ensures DealtWith(cfg, i, old(memory.store), memory.store, roots, value, ret, msgs)
    {
      hide Owned;
      ghost var s := memory.store;
      KindOfNode(s, value);
      if known.Some? {
        KindOfNode(s, known.value);
      }
      hide Footprint, Denote, WellFormed, Printed, Changes, Carries, AllRooted, AllDenoted;
      var update := known.None? || !cfg.monitors[i].timestampGiven
                    || (memory.store[value].Leaf? &&
                        Newer(memory.store[known.value].sample, memory.store[value].sample));
      if update {
        msgs := ReplaceKnown(i, value, known, roots);
        ret := value;
      } else if memory.store[value].Tree? {
        msgs := ProcessMonitorValueV(i, value, known.value, roots);
        ret := known.value;
        assert roots[i := Some(ret)] == roots;
      } else {
        memory.Done(value);
        msgs, ret := None, known.value;
        DealtWithByDiscard(cfg, i, s, memory.store, roots, value, ret);
      }
    }

    /** worker_process_sensor_send_array */
    method SendArray(batch: Batch, ghost msgs: seq<Message>)
      requires Carries(batch, msgs)
      modifies this`sent
      ensures sent == old(sent) + msgs
    {
      for k := 0 to |batch|
        invariant sent == old(sent) + msgs[..k]
      {
        sent := sent + [batch[k].value];
        assert msgs[..k + 1] == msgs[..k] + [msgs[k]];
      }
      assert msgs[..|batch|] == msgs;
    }

    /** worker_process_sensor_send_list: drain the list of batches. */
    method SendList(batches: seq<Batch>, ghost msgs: seq<Message>)
      requires ListCarries(batches, msgs)
      modifies this`sent
      ensures sent == old(sent) + msgs
    {
      var list := batches;
      while |list| > 0
        invariant |list| <= |batches| <= 1 && (|list| == 1 ==> list == batches && sent == old(sent))
        invariant |list| == 0 ==> sent == old(sent) + msgs
      {
        var batch := list[0];
        list := list[1..];
        SendArray(batch, msgs);
      }
    }

    /** The pointers to the values of the variables of monitor i. */
    method Selection(i: nat, current: array<Option<Ref>>) returns (vars: Option<Roots>)
      requires Valid() && i < |cfg.monitors|
      requires current != lastKnown && current[..] == lastKnown[..]
      ensures vars.Some? <==> Dependencies(cfg.monitors, i).Some?
      ensures vars.Some? ==>
              |vars.value| == |Dependencies(cfg.monitors, i).value| && AllRooted(memory.store, vars.value)
      ensures (if vars.None? then None else Some(AllDenoted(memory.store, vars.value))) ==
              VariablesOf(cfg.monitors, Known(), i)
    {
      OwnedIsRooted(memory.store, lastKnown[..]);
      hide Owned, KindsHold;
      vars := None;
      if deps[i].Some? {
        DependencyLaws(cfg.monitors, i);
        ghost var d := Dependencies(cfg.monitors, i).value;
        var selected := SelectValues(current, deps[i].value, d);
        vars := Some(selected[..]);
        SelectionDenotes(memory.store, lastKnown[..], d);
      }
    }

    /** The new value of monitor i takes its place, or is dropped. */
    method Settle(i: nat, value: Ref, ghost s: Store, ghost input: Input) returns (list: seq<Batch>)
      requires cfg.Valid() && memory.Valid() && DepsHold() && i < |cfg.monitors| == lastKnown.Length
      requires Owned(s, lastKnown[..]) && Owned(memory.store, lastKnown[..] + [Some(value)])
      requires AllRooted(s, lastKnown[..]) && AllRooted(memory.store, lastKnown[..] + [Some(value)])
      requires KindsHold(cfg, AllDenoted(s, lastKnown[..])) && SameOn(s, memory.store, s.Keys)
      requires WellFormed(memory.store, value)
      requires AllDenoted(memory.store, lastKnown[..] + [Some(value)]) ==
               AllDenoted(s, lastKnown[..]) + [Some(Denote(memory.store, value))]
      requires NewValue(cfg, AllDenoted(s, lastKnown[..]), i, input) == Some(Denote(memory.store, value))
      modifies memory, lastKnown
      ensures Valid() && lastKnown[..] == old(lastKnown[..])[i := lastKnown[i]]
      ensures Known() == Step(cfg, AllDenoted(s, old(lastKnown[..])), i, input).slots
      ensures ListCarries(list, Step(cfg, AllDenoted(s, old(lastKnown[..])), i, input).sent)
    {
      hide Owned, KindsHold, AllRooted, AllDenoted, Denote, WellFormed, NewValue, Step, Carries;
      ghost var roots, t := lastKnown[..], memory.store;
      NewMeetsItsKind(cfg, s, t, roots, i, value, input);
      var ret, msgs := ProcessMonitorValue(i, value, lastKnown[i], roots);
      StepIsDealtWith(cfg, i, s, t, memory.store, roots, value, ret, msgs, input);
      hide DealtWith;
      lastKnown[i] := Some(ret);
      list := if msgs.Some? then [msgs.value] else [];
      assert lastKnown[..] == roots[i := Some(ret)];
      OwnedIsRooted(memory.store, lastKnown[..]);
      StepKeepsKinds(cfg, AllDenoted(s, roots), i, input);
    }

    /** The body of the loop over the monitors. At its start the values of this
        iteration are the last known ones, slot by slot, and so they are at its
        end; what the monitor emitted has been sent by then. */
    method Turn(i: nat, current: array<Option<Ref>>, input: Input)
      requires Valid() && i < |cfg.monitors|
      requires current != lastKnown && current[..] == lastKnown[..]
      modifies this`sent, memory, lastKnown, current
      ensures Valid() && current[..] == lastKnown[..]
      ensures Known() == Step(cfg, old(Known()), i, input).slots
      ensures sent == old(sent) + Step(cfg, old(Known()), i, input).sent
    {
      ghost var roots, s, slots := lastKnown[..], memory.store, Known();
      OwnedIsRooted(s, roots);
      hide Owned, Step, KindsHold, WellFormed, Denote, Footprint;
      var vars := Selection(i, current);
      var value := ProcessSensorMonitor(i, vars, input);
      ghost var t := memory.store;
      if value.Some? {
        OwnedWithNew(s, t, roots, value.value);
        OwnedIsRooted(t, roots + [Some(value.value)]);
        var list := Settle(i, value.value, s, input);
        current[i] := lastKnown[i];
        assert current[..] == roots[i := lastKnown[i]];
        SendList(list, Step(cfg, slots, i, input).sent);
      } else {
        NothingProduced(cfg, slots, i, input);
      }
    }

    /** The values of this iteration, which are the last known ones at first. */
    method CurrentValues() returns (current: array<Option<Ref>>)
      ensures fresh(current) && current[..] == lastKnown[..]
    {
      current := new Option<Ref>[lastKnown.Length](_ => None);
      for i := 0 to lastKnown.Length
        invariant forall j :: 0 <= j < i ==> current[j] == lastKnown[j]
        modifies current
      {
        current[i] := lastKnown[i];
      }
      assert current[..] == lastKnown[..];
    }

    /** process_monitors_array: one turn for each monitor of a sensor that is
        ready. */
    method ProcessMonitorsArray(poll: Poll) returns (aok: bool)
      requires Valid() && |poll.inputs| == |cfg.monitors|
      modifies this`sent, memory, lastKnown
      ensures Valid() && aok == poll.ready
      ensures Known() == PollOnce(cfg, old(Known()), poll).slots
      ensures sent == old(sent) + PollOnce(cfg, old(Known()), poll).sent
    {
      aok := poll.ready;
      hide Owned, KindsHold, DepsHold, AllDenoted;
      ghost var slots := Known();
      assert cfg.Valid() && |slots| == |cfg.monitors|;
      var current := CurrentValues();
      hide Valid, Known;
      if aok {
        TakeTurns(current, poll.inputs, slots);
      }
    }

    method TakeTurns(current: array<Option<Ref>>, inputs: seq<Input>, ghost slots: Slots)
      requires cfg.Valid() && |inputs| == |cfg.monitors| == |slots|
      requires Valid() && Known() == slots && current != lastKnown && current[..] == lastKnown[..]
      modifies this`sent, memory, lastKnown, current
      ensures Valid() && Known() == Turns(cfg, slots, inputs, |cfg.monitors|).slots
      ensures sent == old(sent) + Turns(cfg, slots, inputs, |cfg.monitors|).sent
    {
      hide Valid, Known, Step;
      for i := 0 to |cfg.monitors|
        invariant Valid() && current[..] == lastKnown[..]
        invariant Known() == Turns(cfg, slots, inputs, i).slots
        invariant sent == old(sent) + Turns(cfg, slots, inputs, i).sent
      {
        NextTurn(cfg, slots, inputs, i);
        Turn(i, current, inputs[i]);
      }
    }
  }

  lemma SelectionDenotes(s: Store, roots: Roots, d: seq<nat>)
    requires AllRooted(s, roots) && forall k :: 0 <= k < |d| ==> d[k] < |roots|
    ensures AllRooted(s, Selected(roots, d))
    ensures AllDenoted(s, Selected(roots, d)) == Selected(AllDenoted(s, roots), d)
  {
  }

  lemma NewMeetsItsKind(cfg: Config, s: Store, t: Store, roots: Roots, i: nat, value: Ref, input: Input)
    requires cfg.Valid() && i < |cfg.monitors| == |roots| && AllRooted(s, roots)
    requires KindsHold(cfg, AllDenoted(s, roots)) && SameOn(s, t, s.Keys) && WellFormed(t, value)
    requires NewValue(cfg, AllDenoted(s, roots), i, input) == Some(Denote(t, value))
    ensures Rooted(t, roots[i])
    ensures roots[i].Some? ==> (t[roots[i].value].Tree? <==> t[value].Tree?)
  {
    NewValueKind(cfg, AllDenoted(s, roots), i, input);
    assert Rooted(s, roots[i]);
    PartIsLive(s, roots[i]);
    RootUnaffected(s, t, roots[i]);
    assert AllDenoted(s, roots)[i] == Denoted(s, roots[i]);
  }

  lemma StepIsDealtWith(cfg: Config, i: nat, s: Store, t: Store, u: Store, roots: Roots, value: Ref, ret: Ref,
                        msgs: Option<Batch>, input: Input)
    requires cfg.Valid() && i < |cfg.monitors| == |roots| && AllRooted(s, roots) && AllRooted(t, roots + [Some(value)])
    requires Rooted(t, roots[i]) && WellFormed(t, value)
    requires AllDenoted(t, roots + [Some(value)]) == AllDenoted(s, roots) + [Some(Denote(t, value))]
    requires NewValue(cfg, AllDenoted(s, roots), i, input) == Some(Denote(t, value))
    requires DealtWith(cfg, i, t, u, roots, value, ret, msgs)
    ensures Owned(u, roots[i := Some(ret)])
    ensures AllDenoted(u, roots[i := Some(ret)]) == Step(cfg, AllDenoted(s, roots), i, input).slots
    ensures var sent := Step(cfg, AllDenoted(s, roots), i, input).sent;
      if msgs.None? then sent == [] else Carries(msgs.value, sent)
  {
    hide Owned, Rooted, WellFormed, Denote, Printed, Stored, Emitted, Carries;
    var all := roots + [Some(value)];
    assert all[i] == roots[i];
    assert AllDenoted(t, all)[i] == Denoted(t, roots[i]) == AllDenoted(s, roots)[i];
    assert AllDenoted(t, all)[..|roots|] == AllDenoted(s, roots);
  }

  lemma NothingProduced(cfg: Config, slots: Slots, i: nat, input: Input)
    requires cfg.Valid() && i < |cfg.monitors| == |slots| && NewValue(cfg, slots, i, input).None?
    ensures Step(cfg, slots, i, input) == Outcome(slots, [])
  {
  }

  /** Read the values that a selection points to. */
  function LoadAll(s: Store, roots: Roots): (r: Variables)
    requires AllRooted(s, roots)
    ensures r == AllDenoted(s, roots)
  {
    seq(|roots|, i requires 0 <= i < |roots| =>
      assert Rooted(s, roots[i]);
      if roots[i].Some? then Some(Denote(s, roots[i].value)) else None)
  }
}
