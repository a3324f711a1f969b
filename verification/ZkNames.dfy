/** Node names and child lists (rb_zk.c): the searches that decide who leads and
    which element is next, and the paths that they work on. */
module ZkNames {
  import opened Wrappers
  import opened CStrings
  import opened Numerals

  /** A child list as the client library returns it; an entry may be null. */
  type Names = seq<Option<string>>

  // ---------- paths ----------

  /** The part of a path after its last slash. */
  function BaseName(path: string): Option<string> {
    match StrRChr(path, '/')
    case None => None
    case Some(i) => Some(path[i + 1..])
  }

  /** parent_node: the path up to its last slash, or all of it if it has none. */
  function Parent(path: string): (r: string)
    ensures |r| <= |path|
  {
    match StrRChr(path, '/')
    case None => path
    case Some(i) => path[..i]
  }

  function Child(parent: string, name: string): string { parent + "/" + name }

  /** A child's path splits into what it was put together from. */
  lemma {:induction false} ChildSplits(parent: string, name: string)
    requires '/' !in name
    ensures BaseName(Child(parent, name)) == Some(name)
    ensures Parent(Child(parent, name)) == parent
    decreases |name|
  {
    LastSlash(parent, name);
    var path := Child(parent, name);
    assert path[|parent| + 1..] == name && path[..|parent|] == parent;
  }

  lemma {:induction false} LastSlash(parent: string, name: string)
    requires '/' !in name
    ensures StrRChr(parent + "/" + name, '/') == Some(|parent|)
    decreases |name|
  {
    var path := parent + "/" + name;
    if name != "" {
      LastSlash(parent, name[..|name| - 1]);
      assert path[..|path| - 1] == parent + "/" + name[..|name| - 1];
      assert path[|path| - 1] == name[|name| - 1];
    } else {
      assert path[|path| - 1] == '/';
    }
  }

  /** Sequence numbers are signed and have 32 bits; here a node that would get
      one beyond the largest is not created. */
  const SEQUENCE_LIMIT := 0x8000_0000

  lemma LimitFits()
    ensures SEQUENCE_LIMIT < Pow10(10)
  {
    assert Pow10(5) == 100000;
    assert Pow10(10) == 100000 * Pow10(5);
  }

  /** The name that the server gives to a sequential node. */
  function SequenceName(prefix: string, n: nat): string
    requires n < SEQUENCE_LIMIT
  {
    LimitFits();
    prefix + Padded(n, 10)
  }

  /** Names under one prefix are ordered as their numbers are. */
  lemma SequenceOrder(prefix: string, m: nat, n: nat)
    requires m < SEQUENCE_LIMIT && n < SEQUENCE_LIMIT
    ensures Before(SequenceName(prefix, m), SequenceName(prefix, n)) <==> m < n
    ensures SequenceName(prefix, m) == SequenceName(prefix, n) <==> m == n
  {
    LimitFits();
    PaddedOrder(m, n, 10);
    BeforeUnderPrefix(prefix, Padded(m, 10), Padded(n, 10));
    assert SequenceName(prefix, m)[|prefix|..] == Padded(m, 10);
    assert SequenceName(prefix, n)[|prefix|..] == Padded(n, 10);
  }

  lemma SequenceNameHasNoSlash(prefix: string, n: nat)
    requires n < SEQUENCE_LIMIT && '/' !in prefix
    ensures '/' !in SequenceName(prefix, n)
  {
    LimitFits();
    var digits := Padded(n, 10);
    forall i | 0 <= i < |digits|
      ensures digits[i] != '/'
    {
      DigitsAreDigits(digits, 0, i);
    }
  }

  // ---------- the two searches ----------

  ghost predicate Listed(names: Names, name: string) { Some(name) in names }

  /** b is the greatest listed name below own, or nothing if there is none. */
  ghost predicate IsGreatestBelow(names: Names, own: string, b: Option<string>) {
    && (b.Some? ==> Listed(names, b.value) && Before(b.value, own))
    && (forall name :: Listed(names, name) && Before(name, own) ==> b.Some? && !Before(b.value, name))
  }

  /** m is the least listed name, or nothing if there is none. */
  ghost predicate IsLeast(names: Names, m: Option<string>) {
    && (m.Some? ==> Listed(names, m.value))
    && (forall name :: Listed(names, name) ==> m.Some? && !Before(name, m.value))
  }

  /** The search for the predecessor of own, over the first n entries. */
  function BelowAmong(names: Names, own: string, n: nat): Option<string>
    requires n <= |names|
  {
    if n == 0 then None
    else
      var best, name := BelowAmong(names, own, n - 1), names[n - 1];
      if name.Some? && Before(name.value, own) && (best.None? || Before(best.value, name.value)) then name else best
  }

  function Below(names: Names, own: string): Option<string> { BelowAmong(names, own, |names|) }

  /** leader_previous_string. A path without a slash has no predecessor. */
  function Previous(names: Names, path: string): Option<string> {
    match BaseName(path)
    case None => None
    case Some(own) => Below(names, own)
  }

  method LeaderPreviousString(strings: Names, myStr: string) returns (befStr: Option<string>)
    ensures befStr == Previous(strings, myStr)
  {
    befStr := None;
    var slash := StrRChr(myStr, '/');
    var own: Option<string> := None;
    if slash.Some? {
      own := Some(myStr[slash.value + 1..]);
    }
    for i := 0 to |strings|
      invariant befStr == if own.None? then None else BelowAmong(strings, own.value, i)
    {
      if strings[i].None? {
        continue;
      }
      if own.Some? {
        if Before(strings[i].value, own.value) && (befStr.None? || Before(befStr.value, strings[i].value)) {
          befStr := strings[i];
        }
      }
    }
  }

  /** The search for the least of the first n entries. */
  function LeastAmong(names: Names, n: nat): Option<string>
    requires n <= |names|
  {
    if n == 0 then None
    else
      var best, name := LeastAmong(names, n - 1), names[n - 1];
      if name.Some? && (best.None? || Before(name.value, best.value)) then name else best
  }

  function Least(names: Names): Option<string> { LeastAmong(names, |names|) }

  /** min_str */
  method MinStr(strings: Names) returns (minStr: Option<string>)
    ensures minStr == Least(strings)
  {
    minStr := None;
    for i := 0 to |strings|
      invariant minStr == LeastAmong(strings, i)
    {
      if strings[i].None? {
        continue;
      }
      if minStr.None? || Before(strings[i].value, minStr.value) {
        minStr := strings[i];
      }
    }
  }

  lemma NotBeforeIsTransitive(a: string, b: string, c: string)
    requires !Before(a, b) && !Before(b, c)
    ensures !Before(a, c)
  {
    BeforeIsTotal(a, b);
    BeforeIsTotal(b, c);
    BeforeIsTotal(a, c);
    if Before(a, c) && Before(b, a) {
      BeforeIsTransitive(b, a, c);
    }
  }

  lemma {:induction false} BelowAmongIsGreatest(names: Names, own: string, n: nat)
    requires n <= |names|
    ensures IsGreatestBelow(names[..n], own, BelowAmong(names, own, n))
    decreases n
  {
    if n > 0 {
      BelowAmongIsGreatest(names, own, n - 1);
      var best, b, last := BelowAmong(names, own, n - 1), BelowAmong(names, own, n), names[n - 1];
      assert names[..n] == names[..n - 1] + [last];
      forall name | Listed(names[..n], name) && Before(name, own)
        ensures b.Some? && !Before(b.value, name)
      {
        BeforeIsTotal(name, name);
        if Some(name) != last && best != b {
          if best.Some? {
            BeforeIsTotal(best.value, b.value);
            NotBeforeIsTransitive(b.value, best.value, name);
          }
        }
      }
    }
  }

  lemma {:induction false} LeastAmongIsLeast(names: Names, n: nat)
    requires n <= |names|
    ensures IsLeast(names[..n], LeastAmong(names, n))
    decreases n
  {
    if n > 0 {
      LeastAmongIsLeast(names, n - 1);
      var best, m, last := LeastAmong(names, n - 1), LeastAmong(names, n), names[n - 1];
      assert names[..n] == names[..n - 1] + [last];
      forall name | Listed(names[..n], name)
        ensures m.Some? && !Before(name, m.value)
      {
        BeforeIsTotal(name, name);
        if Some(name) != last {
          assert Listed(names[..n - 1], name);
          if best != m {
            BeforeIsTotal(best.value, m.value);
            NotBeforeIsTransitive(name, best.value, m.value);
          }
        }
      }
    }
  }

  /** For every child list, in any order and with null entries: the predecessor
      search returns the greatest name below the own one, and nothing else is. */
  lemma BelowIsGreatest(names: Names, own: string, b: Option<string>)
    ensures IsGreatestBelow(names, own, b) <==> b == Below(names, own)
  {
    BelowAmongIsGreatest(names, own, |names|);
    assert names[..|names|] == names;
    var r := Below(names, own);
    if IsGreatestBelow(names, own, b) && b != r {
      BeforeIsTotal(b.value, r.value);
      assert false;
    }
  }

  lemma LeastIsLeast(names: Names, m: Option<string>)
    ensures IsLeast(names, m) <==> m == Least(names)
  {
    LeastAmongIsLeast(names, |names|);
    assert names[..|names|] == names;
    var r := Least(names);
    if IsLeast(names, m) && m != r {
      BeforeIsTotal(m.value, r.value);
      assert false;
    }
  }

  /** The two searches agree: there is no predecessor exactly when the own name,
      which is listed, is the least one. */
  lemma SearchesAgree(names: Names, path: string)
    requires BaseName(path).Some? && Listed(names, BaseName(path).value)
    ensures Previous(names, path) == None <==> Least(names) == BaseName(path)
  {
    var own := BaseName(path).value;
    BelowIsGreatest(names, own, Below(names, own));
    LeastIsLeast(names, Least(names));
    BeforeIsTotal(own, Least(names).value);
  }

  /** The order and the null entries of a list do not matter. */
  lemma OrderIsNoMatter(names: Names, others: Names, own: string)
    requires forall name :: Listed(names, name) <==> Listed(others, name)
    ensures Below(names, own) == Below(others, own) && Least(names) == Least(others)
  {
    BelowIsGreatest(names, own, Below(names, own));
    BelowIsGreatest(others, own, Below(names, own));
    LeastIsLeast(names, Least(names));
    LeastIsLeast(others, Least(names));
  }

  // ---------- creating a node with its ancestors ----------

  /** What the server does with a request to create a plain node: the node exists
      already, its parent is missing, the request fails for another reason, or it
      is created. */
  function Created(nodes: set<string>, path: string, refused: set<string>): set<string> {
    if path in nodes || Parent(path) !in nodes || path in refused then nodes else nodes + {path}
  }

  /** The beginnings of a path that end before a slash other than its first
      character, and the path itself. */
  function Ancestors(path: string): set<string> {
    set i | 1 <= i <= |path| && (i == |path| || path[i] == '/') :: path[..i]
  }

  /** The ancestors that are shorter than n characters. */
  function AncestorsBelow(path: string, n: nat): set<string> {
    set i | 1 <= i < n && i <= |path| && (i == |path| || path[i] == '/') :: path[..i]
  }

  /** rb_zk_create_recursive_node: ancestors first, each request whatever came of
      the one before. Nothing but the node and its ancestors comes to exist, and
      each of these does if it is not refused and its parent is there by then. So
      all of them exist in the end if none is refused. */
  method CreateRecursiveNode(nodes: set<string>, refused: set<string>, node: string) returns (after: set<string>)
    requires node != "" && node[0] == '/' && "" in nodes
    ensures nodes <= after <= nodes + Ancestors(node)
    ensures forall a :: a in Ancestors(node) ==> (a in after <==> a in nodes || (a !in refused && Parent(a) in after))
    ensures refused !! Ancestors(node) ==> after == nodes + Ancestors(node)
  {
    after := nodes;
    var lastPathPrinted := false;
    var cursor := StrChr(node, 1, '/');
    ghost var done := 1;
    while cursor.Some? || !lastPathPrinted
      invariant cursor.Some? ==> !lastPathPrinted && done <= cursor.value < |node| && node[cursor.value] == '/'
      invariant cursor.Some? ==> '/' !in node[done..cursor.value]
      invariant cursor.None? && !lastPathPrinted ==> done <= |node| && '/' !in node[done..]
      invariant 1 <= done && (lastPathPrinted ==> done == |node| + 1)
      invariant done > 1 ==> done - 1 <= |node| && (done - 1 == |node| || node[done - 1] == '/')
      invariant nodes <= after <= nodes + AncestorsBelow(node, done)
      invariant Settled(nodes, refused, AncestorsBelow(node, done), after)
      invariant refused !! Ancestors(node) ==> after == nodes + AncestorsBelow(node, done)
      decreases |node| + 1 - done
    {
      var path := if cursor.Some? then node[..cursor.value] else node;
      assert path == node[..|path|];
      ParentIsDone(nodes, node, done, |path|);
      NextAncestor(node, done, |path|);
      StaysSettled(nodes, refused, node, done, after, path);
      after := Created(after, path, refused);
      if cursor.Some? {
        done := cursor.value + 1;
        cursor := StrChr(node, cursor.value + 1, '/');
      } else {
        done := |node| + 1;
        lastPathPrinted := true;
      }
    }
  }

  /** Each of these paths exists exactly if it did before, or was not refused below
      a parent that exists. */
  ghost predicate Settled(nodes: set<string>, refused: set<string>, paths: set<string>, after: set<string>) {
    forall a :: a in paths ==> (a in after <==> a in nodes || (a !in refused && Parent(a) in after))
  }

  lemma StaysSettled(nodes: set<string>, refused: set<string>, node: string, done: nat, after: set<string>,
                     path: string)
    requires done <= |path| && nodes <= after <= nodes + AncestorsBelow(node, done) && Parent(path) != path
    requires Settled(nodes, refused, AncestorsBelow(node, done), after)
    ensures Settled(nodes, refused, AncestorsBelow(node, done) + {path}, Created(after, path, refused))
  {
    forall a | a in AncestorsBelow(node, done)
      ensures |a| < done && a != path && Parent(a) != path
    {
    }
  }

  /** When everything shorter than `done` exists, and no slash follows before the
      next beginning ends, then the parent of that beginning exists. */
  lemma ParentIsDone(nodes: set<string>, node: string, done: nat, end: nat)
    requires node != "" && node[0] == '/' && "" in nodes && 1 <= done <= end <= |node|
    requires '/' !in node[done..end] && (done > 1 ==> node[done - 1] == '/')
    ensures Parent(node[..end]) in nodes + AncestorsBelow(node, done) && Parent(node[..end]) != node[..end]
  {
    var path := node[..end];
    assert path == node[..done - 1] + "/" + node[done..end];
    LastSlash(node[..done - 1], node[done..end]);
    assert Parent(path) == node[..done - 1];
  }

  lemma NextAncestor(node: string, done: nat, end: nat)
    requires 1 <= done <= end <= |node| && '/' !in node[done..end]
    requires end == |node| || node[end] == '/'
    ensures AncestorsBelow(node, end + 1) == AncestorsBelow(node, done) + {node[..end]}
  {
    forall i | done <= i < end
      ensures node[i] != '/'
    {
      assert node[done..end][i - done] == node[i];
    }
  }
}
