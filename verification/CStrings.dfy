/** The C library string functions that the monitor relies on.

    A C string is a Dafny `string` and a pointer into it is an index, so that
    `|s|` is the position of the terminating NUL. */
module CStrings {
  import opened Wrappers

  /** strcmp(a, b) < 0 */
  predicate Before(a: string, b: string)
    decreases |a|
  {
    b != "" && (a == "" || a[0] < b[0] || (a[0] == b[0] && Before(a[1..], b[1..])))
  }

  lemma {:induction false} BeforeIsTransitive(a: string, b: string, c: string)
    requires Before(a, b) && Before(b, c)
    ensures Before(a, c)
    decreases |a|
  {
    if a != "" && a[0] == b[0] == c[0] {
      BeforeIsTransitive(a[1..], b[1..], c[1..]);
    }
  }

  /** Exactly one of "less", "equal" and "greater" holds. */
  lemma {:induction false} BeforeIsTotal(a: string, b: string)
    ensures a == b ==> !Before(a, b)
    ensures Before(a, b) ==> !Before(b, a)
    ensures a == b || Before(a, b) || Before(b, a)
    decreases |a|
  {
    if a != "" && b != "" && a[0] == b[0] {
      BeforeIsTotal(a[1..], b[1..]);
      assert a == [a[0]] + a[1..] && b == [b[0]] + b[1..];
    }
  }

  /** A common prefix does not change the order. */
  lemma {:induction false} BeforeUnderPrefix(p: string, a: string, b: string)
    ensures Before(p + a, p + b) <==> Before(a, b)
    decreases |p|
  {
    if p == "" {
      assert p + a == a && p + b == b;
    } else {
      assert (p + a)[1..] == p[1..] + a && (p + b)[1..] == p[1..] + b;
      BeforeUnderPrefix(p[1..], a, b);
    }
  }

  /** Between strings of one length the last character decides only on a tie. */
  lemma {:induction false} BeforeOnLastChar(a: string, x: char, b: string, y: char)
    requires |a| == |b|
    ensures Before(a + [x], b + [y]) <==> Before(a, b) || (a == b && x < y)
    decreases |a|
  {
    if a == "" {
      assert a + [x] == [x] && b + [y] == [y];
    } else {
      assert (a + [x])[1..] == a[1..] + [x] && (b + [y])[1..] == b[1..] + [y];
      BeforeOnLastChar(a[1..], x, b[1..], y);
      assert a == [a[0]] + a[1..] && b == [b[0]] + b[1..];
    }
  }

  predicate MatchesAt(s: string, i: nat, pat: string) {
    i + |pat| <= |s| && s[i..i + |pat|] == pat
  }

  /** strstr(s + from, pat): the first match at or after `from`. */
  function StrStr(s: string, from: nat, pat: string): (r: Option<nat>)
    requires from <= |s|
    ensures r.Some? ==> from <= r.value && r.value + |pat| <= |s|
    decreases |s| - from
  {
    if MatchesAt(s, from, pat) then Some(from)
    else if from == |s| then None
    else StrStr(s, from + 1, pat)
  }

  lemma {:induction false} StrStrIsFirst(s: string, from: nat, pat: string)
    requires from <= |s|
    ensures var r := StrStr(s, from, pat);
      && (r.Some? ==> MatchesAt(s, r.value, pat))
      && (forall i: nat :: from <= i && (r.Some? ==> i < r.value) ==> !MatchesAt(s, i, pat))
    decreases |s| - from
  {
    if !MatchesAt(s, from, pat) && from < |s| {
      StrStrIsFirst(s, from + 1, pat);
    }
  }

  /** A separator that shares no character with a stretch of text cannot be
      found inside that stretch, so the search ends right after it. */
  lemma {:induction false} StrStrSkips(s: string, from: nat, end: nat, pat: string)
    requires from <= end <= |s| && pat != ""
    requires forall i :: from <= i < end ==> s[i] !in pat
    requires end == |s| || MatchesAt(s, end, pat)
    ensures StrStr(s, from, pat) == if end == |s| then None else Some(end)
    decreases end - from
  {
    if from < end {
      if from + |pat| <= |s| {
        assert s[from..from + |pat|][0] == s[from] != pat[0];
      }
      StrStrSkips(s, from + 1, end, pat);
    }
  }

  /** strchr(s + from, c) */
  function StrChr(s: string, from: nat, c: char): (r: Option<nat>)
    requires from <= |s|
    ensures r.Some? ==> from <= r.value < |s| && s[r.value] == c && c !in s[from..r.value]
    ensures r.None? ==> c !in s[from..]
    decreases |s| - from
  {
    if from == |s| then None
    else if s[from] == c then Some(from)
    else StrChr(s, from + 1, c)
  }

  /** strrchr(s, c) */
  function StrRChr(s: string, c: char): (r: Option<nat>)
    ensures r.Some? ==> r.value < |s| && s[r.value] == c && c !in s[r.value + 1..]
    ensures r.None? ==> c !in s
    decreases |s|
  {
    if s == "" then None
    else if s[|s| - 1] == c then Some(|s| - 1)
    else
      var r := StrRChr(s[..|s| - 1], c);
      assert r.Some? ==> s[r.value + 1..] == s[..|s| - 1][r.value + 1..] + [s[|s| - 1]];
      assert s == s[..|s| - 1] + [s[|s| - 1]];
      r
  }
}
