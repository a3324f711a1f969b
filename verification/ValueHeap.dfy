/** Monitor values as they lie in memory (rb_value.c): allocated one by one, and
    freed by hand.

    Memory is a map from addresses to blocks, and freeing removes an address.
    Every read is a lookup, so that a read of freed memory, a second free or a
    free of something that was never allocated would be a lookup that fails. */
module ValueHeap {
  import opened Wrappers
  import opened Values

  type Ref = nat

  /** A single value, the array of pointers of a vector, or the vector itself. */
  datatype Node =
    | Leaf(sample: Sample)
    | Block(slots: seq<Option<Ref>>)
    | Tree(count: nat, children: Ref, split: Option<Ref>)

  type Store = map<Ref, Node>

  predicate IsLeaf(s: Store, r: Ref) { r in s && s[r].Leaf? }

  predicate AreLeaves(s: Store, slots: seq<Option<Ref>>) {
    && (forall i :: 0 <= i < |slots| && slots[i].Some? ==> IsLeaf(s, slots[i].value))
    && (forall i, j :: 0 <= i < j < |slots| && slots[i].Some? && slots[j].Some? ==> slots[i].value != slots[j].value)
  }

  function Targets(slots: seq<Option<Ref>>): set<Ref> {
    set i | 0 <= i < |slots| && slots[i].Some? :: slots[i].value
  }

  function OptionSet(r: Option<Ref>): set<Ref> { if r.Some? then {r.value} else {} }

  /** r is the address of a value all of whose parts are there, without sharing. */
  predicate WellFormed(s: Store, r: Ref) {
    r in s &&
    match s[r]
    case Leaf(_) => true
    case Block(_) => false
    case Tree(count, children, split) =>
      && children in s && s[children].Block? && |s[children].slots| == count
      && AreLeaves(s, s[children].slots)
      && (split.Some? ==> IsLeaf(s, split.value) && split.value !in Targets(s[children].slots))
  }

  /** All addresses that belong to the value at r. */
  function Footprint(s: Store, r: Ref): set<Ref>
    requires WellFormed(s, r)
  {
    match s[r]
    case Leaf(_) => {r}
    case Tree(_, children, split) => {r, children} + Targets(s[children].slots) + OptionSet(split)
  }

  function Samples(s: Store, slots: seq<Option<Ref>>): seq<Option<Sample>>
    requires AreLeaves(s, slots)
  {
    seq(|slots|, i requires 0 <= i < |slots| => if slots[i].Some? then Some(s[slots[i].value].sample) else None)
  }

  /** The value at r. */
  function Denote(s: Store, r: Ref): Value
    requires WellFormed(s, r)
  {
    match s[r]
    case Leaf(sample) => Scalar(sample)
    case Tree(_, children, split) =>
      Vector(Samples(s, s[children].slots), if split.Some? then Some(s[split.value].sample) else None)
  }

  ghost predicate SameOn(s: Store, t: Store, refs: set<Ref>) {
    forall r :: r in refs ==> r in s && r in t && s[r] == t[r]
  }

  /** A value is not affected by what happens outside of its footprint. */
  lemma Unaffected(s: Store, t: Store, r: Ref)
    requires WellFormed(s, r) && SameOn(s, t, Footprint(s, r))
    ensures WellFormed(t, r) && Footprint(t, r) == Footprint(s, r) && Denote(t, r) == Denote(s, r)
  {
    assert r in Footprint(s, r);
    if s[r].Tree? {
      var slots := s[s[r].children].slots;
      assert s[r].children in Footprint(s, r);
      assert forall i :: 0 <= i < |slots| && slots[i].Some? ==> slots[i].value in Targets(slots);
      assert Samples(t, slots) == Samples(s, slots);
    }
  }

  /** The in-place swap: two vectors exchange their element arrays and counts,
      and each keeps its own split result. */
  function Swapped(s: Store, a: Ref, b: Ref): Store
    requires a in s && b in s && s[a].Tree? && s[b].Tree?
  {
    s[a := Tree(s[b].count, s[b].children, s[a].split)][b := Tree(s[a].count, s[a].children, s[b].split)]
  }

  /** Memory with its allocator. Addresses are never used twice, so each one that
      was ever handed out is either live or freed, and freed once. */
  class Memory {
    var store: Store
    var next: Ref
    ghost var freed: set<Ref>

    ghost predicate Valid()
      reads this
    {
      && freed !! store.Keys
      && (forall r: Ref :: r in store || r in freed <==> r < next)
    }

    constructor ()
      ensures Valid() && store == map[] && freed == {}
    {
      store, next, freed := map[], 0, {};
    }

    method Alloc(node: Node) returns (r: Ref)
      requires Valid()
      modifies this
      ensures Valid() && r !in old(store) && store == old(store)[r := node] && freed == old(freed)
      ensures r == old(next) && next == r + 1
    {
      r := next;
      store, next := store[r := node], next + 1;
    }

    method Free(r: Ref)
      requires Valid() && r in store
      modifies this
      ensures Valid() && store == old(store) - {r} && freed == old(freed) + {r} && next == old(next)
    {
      store := store - {r};
      freed := freed + {r};
    }

    /** rb_monitor_value_done: free the elements, the split result, the array and
        then the value itself. Exactly its footprint goes away. */
    method Done(r: Ref)
      requires Valid() && WellFormed(store, r)
      modifies this
      ensures Valid() && store == old(store) - Footprint(old(store), r)
      ensures freed == old(freed) + Footprint(old(store), r) && next == old(next)
      decreases store[r].Tree?
    {
      if store[r].Tree? {
        ghost var before, gone := store, freed;
        var count, children, split := store[r].count, store[r].children, store[r].split;
        ghost var slots := store[children].slots;
        for i := 0 to count
          invariant Valid() && next == old(next)
          invariant store == before - Targets(slots[..i]) && freed == gone + Targets(slots[..i])
        {
          TargetsExtend(slots, i);
          KeptByTargets(before, slots, i, r);
          var child := store[children].slots[i];
          if child.Some? {
            Done(child.value);
          }
        }
        assert slots[..count] == slots;
        if split.Some? {
          Done(split.value);
        }
        Free(children);
      }
      Free(r);
    }

    /** The two swaps of process_monitor_value_v. */
    method SwapElements(a: Ref, b: Ref)
      requires Valid() && a in store && b in store && store[a].Tree? && store[b].Tree?
      modifies this
      ensures Valid() && freed == old(freed) && next == old(next)
      ensures store == Swapped(old(store), a, b)
    {
      var count := store[a].count;
      store := store[a := store[a].(count := store[b].count)];
      store := store[b := store[b].(count := count)];
      var children := store[a].children;
      store := store[a := store[a].(children := store[b].children)];
      store := store[b := store[b].(children := children)];
    }

    /** Allocate the elements of a vector that are there. */
    method NewChildren(children: seq<Option<Sample>>) returns (slots: seq<Option<Ref>>)
      requires Valid()
      modifies this
      ensures Valid() && freed == old(freed)
      ensures AreLeaves(store, slots) && Samples(store, slots) == children
      ensures Targets(slots) !! old(store).Keys && store.Keys == old(store).Keys + Targets(slots)
      ensures SameOn(old(store), store, old(store).Keys)
    {
      slots := [];
      for i := 0 to |children|
        invariant Valid() && freed == old(freed) && |slots| == i
        invariant AreLeaves(store, slots) && Samples(store, slots) == children[..i]
        invariant Targets(slots) !! old(store).Keys && store.Keys == old(store).Keys + Targets(slots)
        invariant SameOn(old(store), store, old(store).Keys)
      {
        var child: Option<Ref> := None;
        ghost var s := store;
        if children[i].Some? {
          var leaf := Alloc(Leaf(children[i].value));
          child := Some(leaf);
        }
        SlotAdded(s, store, slots, child);
        slots := slots + [child];
        assert children[..i + 1] == children[..i] + [children[i]];
      }
      assert children[..|children|] == children;
    }

    /** new_monitor_value_array, and process_novector_monitor for a single value. */
    method NewValue(v: Value) returns (r: Ref)
      requires Valid()
      modifies this
      ensures Valid() && freed == old(freed)
      ensures WellFormed(store, r) && Denote(store, r) == v
      ensures Footprint(store, r) !! old(store).Keys && store.Keys == old(store).Keys + Footprint(store, r)
      ensures SameOn(old(store), store, old(store).Keys)
    {
      match v {
        case Scalar(sample) =>
          r := Alloc(Leaf(sample));
        case Vector(children, split) =>
          var slots := NewChildren(children);
          ghost var leaves := store;
          var result: Option<Ref> := None;
          if split.Some? {
            var leaf := Alloc(Leaf(split.value));
            result := Some(leaf);
          }
          ghost var withSplit := store;
          var block := Alloc(Block(slots));
          r := Alloc(Tree(|children|, block, result));
          TreeBuilt(leaves, withSplit, store, slots, block, r, result);
      }
    }
  }

  /** A tree over fresh blocks denotes what was put into them. */
  lemma TreeBuilt(leaves: Store, withSplit: Store, t: Store, slots: seq<Option<Ref>>, block: Ref, r: Ref,
                  split: Option<Ref>)
    requires AreLeaves(leaves, slots) && SameOn(leaves, withSplit, leaves.Keys)
    requires split.Some? ==> split.value !in leaves && IsLeaf(withSplit, split.value)
    requires block !in withSplit && r !in withSplit && r != block
    requires t == withSplit[block := Block(slots)][r := Tree(|slots|, block, split)]
    ensures WellFormed(t, r) && Footprint(t, r) == {r, block} + Targets(slots) + OptionSet(split)
    ensures Denote(t, r) ==
            Vector(Samples(leaves, slots), if split.Some? then Some(withSplit[split.value].sample) else None)
  {
    assert AreLeaves(t, slots);
    assert forall x :: x in Targets(slots) ==> x in leaves;
    assert Samples(t, slots) == Samples(leaves, slots);
  }

  lemma TargetsExtend(slots: seq<Option<Ref>>, i: nat)
    requires i < |slots|
    ensures Targets(slots[..i + 1]) == Targets(slots[..i]) + OptionSet(slots[i])
  {
    var a, b := Targets(slots[..i + 1]), Targets(slots[..i]) + OptionSet(slots[i]);
    forall r | r in b
      ensures r in a
    {
      if r in OptionSet(slots[i]) {
        assert slots[..i + 1][i] == Some(r);
      } else {
        var k :| 0 <= k < i && slots[..i][k] == Some(r);
        assert slots[..i + 1][k] == Some(r);
      }
    }
  }

  /** While the first i elements of a vector are freed, the rest stays. */
  lemma KeptByTargets(s: Store, slots: seq<Option<Ref>>, i: nat, r: Ref)
    requires WellFormed(s, r) && s[r].Tree? && slots == s[s[r].children].slots && i < |slots|
    ensures s[r].children !in Targets(slots[..i]) && r !in Targets(slots[..i])
    ensures slots[i].Some? ==> slots[i].value !in Targets(slots[..i])
  {
    assert forall k :: 0 <= k < i ==> slots[..i][k] == slots[k];
  }

  lemma SlotAdded(s: Store, t: Store, slots: seq<Option<Ref>>, child: Option<Ref>)
    requires AreLeaves(s, slots) && SameOn(s, t, s.Keys)
    requires child.Some? ==> child.value !in s && IsLeaf(t, child.value)
    ensures AreLeaves(t, slots + [child]) && Targets(slots + [child]) == Targets(slots) + OptionSet(child)
    ensures Samples(t, slots + [child]) ==
            Samples(s, slots) + [if child.Some? then Some(t[child.value].sample) else None]
  {
    var all := slots + [child];
    assert all[..|slots|] == slots && all[..|slots| + 1] == all;
    TargetsExtend(all, |slots|);
  }
}
