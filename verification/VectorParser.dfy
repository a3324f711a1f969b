/** Reading the answer of a vector monitor (rb_sensor_monitor.c). */
module VectorParser {
  import opened Wrappers
  import opened Numbers
  import opened CStrings
  import opened Numerals
  import opened Values

  const TIMESTAMP_SEP := ":"

  // ---------- the two scans ----------

  /** How often the separator is found, never reusing a character. */
  function Occurrences(text: string, from: nat, sep: string): nat
    requires from <= |text| && sep != ""
    decreases |text| - from
  {
    match StrStr(text, from, sep)
    case None => 0
    case Some(i) => 1 + Occurrences(text, i + |sep|, sep)
  }

  /** vector_elements: the first scan, which only counts. */
  method VectorElements(text: string, sep: string) returns (n: nat)
    requires sep != ""
    ensures n == 1 + Occurrences(text, 0, sep)
  {
    hide StrStr;
    n := 1;
    var haystack := 0;
    var found := StrStr(text, haystack, sep);
    while found.Some?
      invariant haystack <= |text| && found == StrStr(text, haystack, sep)
      invariant n + Occurrences(text, haystack, sep) == 1 + Occurrences(text, 0, sep)
      decreases |text| - haystack
    {
      haystack := found.value + |sep|;
      n := n + 1;
      found := StrStr(text, haystack, sep);
    }
  }

  /** extract_vector_value, applied to the text from `pos` on. A stamped element
      needs its timestamp separator before the end of the element; a timestamp
      of zero, or none at all, stands for the current time. The number itself
      is not limited to the element, and one that overflows is an error. */
  function ExtractValue(text: string, pos: nat, sep: string, stamped: bool, now: int): Option<Sample>
    requires pos <= |text|
  {
    var found := StrStr(text, pos, sep);
    var end := if found.Some? then found.value else |text|;
    if !stamped then Reading(now, ScanNumber(text, pos))
    else
      var colon := StrStr(text, pos, TIMESTAMP_SEP);
      if colon.None? || colon.value >= end then None
      else
        var t := ScanTimestamp(text, pos);
        Reading(if t != 0 then t else now, ScanNumber(text, colon.value + |TIMESTAMP_SEP|))
  }

  function Reading(timestamp: int, number: Number): Option<Sample> {
    if number.Finite? && Overflows(number.r) then None else Some(Sample(timestamp, number))
  }

  /** What the filling loop stores for the element that starts at `pos`. */
  function Element(text: string, pos: nat, sep: string, stamped: bool, now: int): Option<Sample>
    requires pos <= |text|
  {
    if text[pos..] == sep then None else ExtractValue(text, pos, sep, stamped, now)
  }

  /** Where the elements of the text from `from` on start. */
  function Starts(text: string, from: nat, sep: string): (r: seq<nat>)
    requires from <= |text| && sep != ""
    ensures r != [] && r[0] == from
    decreases |text| - from
  {
    var found := StrStr(text, from, sep);
    [from] + if found.None? then [] else Starts(text, found.value + |sep|, sep)
  }

  /** The search from a ends right before b. */
  ghost predicate LeadsTo(text: string, sep: string, a: nat, b: nat) {
    a <= |text| && StrStr(text, a, sep).Some? && StrStr(text, a, sep).value + |sep| == b
  }

  /** The search from one start leads to the next one, and fails after the last. */
  ghost predicate IsScan(text: string, sep: string, starts: seq<nat>) {
    && (forall k :: 0 <= k < |starts| ==> starts[k] <= |text|)
    && (forall k, l :: 0 <= k && l == k + 1 && l < |starts| ==> LeadsTo(text, sep, starts[k], starts[l]))
    && (starts != [] ==> StrStr(text, starts[|starts| - 1], sep).None?)
  }

  lemma {:induction false} ScanGrows(text: string, from: nat, sep: string, rest: seq<nat>)
    requires rest != [] && IsScan(text, sep, rest) && LeadsTo(text, sep, from, rest[0])
    ensures IsScan(text, sep, [from] + rest)
  {
    hide StrStr, LeadsTo;
    var starts := [from] + rest;
    assert from <= |text| by { FromIsInside(text, sep, from, rest[0]); }
    forall k, l | 0 <= k && l == k + 1 && l < |starts|
      ensures LeadsTo(text, sep, starts[k], starts[l])
    {
      if k > 0 {
        var p, q := k - 1, l - 1;
        assert q == p + 1 && starts[k] == rest[p] && starts[l] == rest[q];
      }
    }
    assert starts[|starts| - 1] == rest[|rest| - 1];
  }

  lemma FromIsInside(text: string, sep: string, a: nat, b: nat)
    requires LeadsTo(text, sep, a, b)
    ensures a <= |text|
  {
  }

  lemma {:induction false} StartsIsScan(text: string, from: nat, sep: string)
    requires from <= |text| && sep != ""
    ensures IsScan(text, sep, Starts(text, from, sep))
    decreases |text| - from
  {
    hide StrStr;
    var found := StrStr(text, from, sep);
    if found.Some? {
      hide IsScan;
      var rest := Starts(text, found.value + |sep|, sep);
      StartsIsScan(text, found.value + |sep|, sep);
      ScanGrows(text, from, sep, rest);
    }
  }

  /** The elements of the text from `from` on. */
  function Elements(text: string, from: nat, sep: string, stamped: bool, now: int): seq<Option<Sample>>
    requires from <= |text| && sep != ""
  {
    var starts := Starts(text, from, sep);
    StartsIsScan(text, from, sep);
    seq(|starts|, k requires 0 <= k < |starts| => Element(text, starts[k], sep, stamped, now))
  }

  function ParseVector(text: string, sep: string, op: Option<SplitOp>, stamped: bool, now: int): Value
    requires sep != ""
  {
    var children := Elements(text, 0, sep, stamped, now);
    Vector(children, SplitResult(op, children, now))
  }

  /** The two scans of one text agree on the number of elements. */
  lemma {:induction false} ScansAgree(text: string, from: nat, sep: string)
    requires from <= |text| && sep != ""
    ensures |Starts(text, from, sep)| == 1 + Occurrences(text, from, sep)
    decreases |text| - from
  {
    var found := StrStr(text, from, sep);
    if found.Some? {
      ScansAgree(text, found.value + |sep|, sep);
    }
  }

  /** An empty separator is found where the search starts, so that neither scan
      would ever advance: the parser needs a separator that is not empty. */
  lemma EmptySeparatorNeverAdvances(text: string, from: nat)
    requires from <= |text|
    ensures StrStr(text, from, "") == Some(from)
  {
    assert text[from..from] == "";
  }

  function ReadAll(starts: seq<nat>, read: nat -> Option<Sample>): seq<Option<Sample>> {
    seq(|starts|, k requires 0 <= k < |starts| => read(starts[k]))
  }

  /** The second scan: it fills the array that the first one has sized with what
      `read` makes of the text from each start on, and keeps the running count
      and sum of the elements that are there. Every write is in bounds, and the
      final count is the size of the array. */
  method FillVector(text: string, sep: string, read: nat -> Option<Sample>, ghost starts: seq<nat>)
    returns (children: array<Option<Sample>>, meanCount: nat, sum: Number)
    requires sep != "" && starts != [] && starts[0] == 0 && IsScan(text, sep, starts)
    requires |starts| == 1 + Occurrences(text, 0, sep)
    ensures fresh(children) && children[..] == ReadAll(starts, read)
    ensures meanCount == Count(children[..], children.Length) && sum == Sum(children[..], children.Length)
  {
    hide StrStr;
    ghost var values := ReadAll(starts, read);
    var n := VectorElements(text, sep);
    children := new Option<Sample>[n](_ => None);
    meanCount, sum := 0, Finite(0.0);
    var count := 0;
    var tok: Option<nat> := Some(0);
    while tok.Some?
      invariant count <= n && (tok.Some? <==> count < n)
      invariant tok.Some? ==> starts[count] == tok.value + if count > 0 then |sep| else 0
      invariant forall k :: 0 <= k < n ==> children[k] == if k < count then values[k] else None
      invariant meanCount == Count(values, count) && sum == Sum(values, count)
      decreases n - count
    {
      var pos := tok.value;
      if count > 0 {
        pos := pos + |sep|;
      }
      assert pos == starts[count] && (count + 1 < n ==> starts[count + 1] <= |text|);
      var value := read(pos);
      if value.Some? {
        children[count] := value;
        sum := Plus(sum, value.value.value);
        meanCount := meanCount + 1;
      }
      tok := StrStr(text, pos, sep);
      count := count + 1;
    }
    assert children[..] == values;
  }

  /** process_vector_monitor */
  method ProcessVectorMonitor(text: string, sep: string, op: Option<SplitOp>, stamped: bool, now: int)
    returns (children: array<Option<Sample>>, split: Option<Sample>)
    requires sep != ""
    ensures fresh(children)
    ensures Vector(children[..], split) == ParseVector(text, sep, op, stamped, now)
  {
    ghost var starts := Starts(text, 0, sep);
    StartsIsScan(text, 0, sep);
    ScansAgree(text, 0, sep);
    var read := (pos: nat) => if pos <= |text| then Element(text, pos, sep, stamped, now) else None;
    var meanCount, sum;
    children, meanCount, sum := FillVector(text, sep, read, starts);
    assert children[..] == Elements(text, 0, sep, stamped, now);
    split := None;
    if op.Some? && meanCount > 0 {
      split := Some(Sample(now, if op.value == SumOp then sum else Over(sum, meanCount)));
    }
  }

  /** Where the number of an element is looked for, if it has its timestamp. */
  function NumberAt(text: string, pos: nat, stamped: bool): (r: nat)
    requires pos <= |text|
    ensures r <= |text|
  {
    var colon := StrStr(text, pos, TIMESTAMP_SEP);
    if stamped && colon.Some? then colon.value + |TIMESTAMP_SEP| else pos
  }

  /** Exactly when an element is missing: its text runs up to the end and is a
      bare separator, or it should be stamped and has no timestamp separator of
      its own, or its number overflows. In particular a blank element without
      timestamps is not missing unless it is the last but one and everything after
      it is blank too. */
  lemma MissingElements(text: string, pos: nat, sep: string, stamped: bool, now: int)
    requires pos <= |text|
    ensures Element(text, pos, sep, stamped, now).None? <==>
            || text[pos..] == sep
            || (stamped &&
                var end := if StrStr(text, pos, sep).Some? then StrStr(text, pos, sep).value else |text|;
                forall i: nat :: pos <= i < end ==> text[i] != ':')
            || (var number := ScanNumber(text, NumberAt(text, pos, stamped)); number.Finite? && Overflows(number.r))
  {
    StrStrIsFirst(text, pos, TIMESTAMP_SEP);
    forall i: nat | pos <= i < |text|
      ensures MatchesAt(text, i, TIMESTAMP_SEP) <==> text[i] == ':'
    {
      assert text[i..i + 1] == [text[i]];
    }
  }

  /** Exactly when a blank element without timestamps is read as zero. The number
      scan goes on into the separator and what follows it, so it depends on the
      digits that are found there: they must all be zeros, or there must be none. */
  lemma BlankIsZeroIff(text: string, pos: nat, sep: string, now: int)
    requires pos <= |text| && (pos == |text| || MatchesAt(text, pos, sep)) && text[pos..] != sep
    ensures Element(text, pos, sep, false, now) == Some(Sample(now, Finite(0.0))) <==> ScansZeros(text, pos)
  {
    ScanIsZeroIff(text, pos);
    SmallIsInRange(0.0);
  }

  /** No number starts with this character, nor with a space or sign before it, and
      neither does a word for infinity or for no number. */
  predicate StartsNothing(c: char) { !IsSpace(c) && !IsDigit(c) && c !in "+-.iInN" }

  /** With a separator that starts no number it always is. */
  lemma UsualBlankIsZero(text: string, pos: nat, sep: string, now: int)
    requires sep != "" && StartsNothing(sep[0])
    requires pos <= |text| && (pos == |text| || MatchesAt(text, pos, sep)) && text[pos..] != sep
    ensures Element(text, pos, sep, false, now) == Some(Sample(now, Finite(0.0)))
  {
    if pos < |text| {
      MatchChar(text, pos, sep, 0);
    }
    BlankIsZeroIff(text, pos, sep, now);
  }

  /** A case in which it is not: between the spaces of "1  2" the scan finds the 2. */
  lemma BlankBeforeSpaceIsNotZero(now: int)
    ensures |Starts("1  2", 0, " ")| > 1 && Starts("1  2", 0, " ")[1] == 2
    ensures Element("1  2", 2, " ", false, now) != Some(Sample(now, Finite(0.0)))
  {
    assert "1  2"[2..] == " 2" != " " && "1  2"[2..3] == " ";
    TwoBehindSpace();
    SecondStart();
    hide StrStr, ScansZeros, Starts, Element;
    BlankIsZeroIff("1  2", 2, " ", now);
  }

  lemma TwoBehindSpace()
    ensures !ScansZeros("1  2", 2)
  {
    assert SkipSpaces("1  2", 2) == 3 && DecimalDigits("1  2", 3).b == 4;
  }

  lemma SecondStart()
    ensures |Starts("1  2", 0, " ")| > 1 && Starts("1  2", 0, " ")[1] == 2
  {
    assert "1  2"[0..1] == "1" && "1  2"[1..2] == " ";
    assert StrStr("1  2", 1, " ") == Some(1) && StrStr("1  2", 0, " ") == Some(1);
  }

  // ---------- round trip ----------

  /** An element as a script prints it: a numeral, maybe with a timestamp, where zero
      stands for the current time. */
  datatype Field = Field(stamp: Option<nat>, number: Numeral) {
    ghost predicate Valid(stamped: bool) {
      number.Valid() && stamp.Some? == stamped
    }

    function Prefix(): string { if stamp.Some? then Decimal(stamp.value) + TIMESTAMP_SEP else "" }

    function Text(): string { Prefix() + number.Text() }

    function Meaning(now: int): Sample {
      Sample(if stamp.Some? && stamp.value > 0 then stamp.value else now, Finite(number.Value()))
    }
  }

  function Join(fields: seq<Field>, sep: string): string
    requires fields != []
  {
    if |fields| == 1 then fields[0].Text() else fields[0].Text() + sep + Join(fields[1..], sep)
  }

  ghost predicate Joinable(fields: seq<Field>, sep: string, stamped: bool) {
    && fields != [] && sep != ""
    && (forall k :: 0 <= k < |fields| ==> fields[k].Valid(stamped))
    && (forall k, c :: 0 <= k < |fields| && c in sep ==> c !in fields[k].Text())
  }

  /** A separator that no numeral goes on with. */
  predicate EndsNumerals(sep: string)
    requires sep != ""
  {
    EndsNumeral(sep[0])
  }

  /** Behind every field of the text comes something that leaves its number as it
      is: nothing, or a separator, and then fields, that a number scan would not
      take for more of the number, or only for zeros. */
  ghost predicate AllHarmless(text: string, from: nat, fields: seq<Field>, sep: string)
    requires fields != [] && sep != "" && from <= |text| && text[from..] == Join(fields, sep)
    decreases |fields|
  {
    JoinStarts(text, from, fields, sep);
    var end := from + |fields[0].Text()|;
    && Harmless(fields[0].number, text, end)
    && (|fields| > 1 ==> AllHarmless(text, end + |sep|, fields[1..], sep))
  }

  /** No number of the fields overflows. */
  ghost predicate AllInRange(fields: seq<Field>) {
    forall k :: 0 <= k < |fields| ==> !Overflows(fields[k].number.Value())
  }

  function Meanings(fields: seq<Field>, now: int): seq<Option<Sample>> {
    seq(|fields|, k requires 0 <= k < |fields| => Some(fields[k].Meaning(now)))
  }

  lemma NumeralTextLaws(n: Numeral)
    requires n.Valid()
    ensures n.Text() != "" && (n.point ==> '.' in n.Text())
  {
    if n.point {
      assert n.Text()[(if n.negative then 1 else 0) + |n.whole|] == '.';
    }
  }

  /** A field ends where the search for the next separator ends. */
  lemma FieldEnds(text: string, pos: nat, f: Field, sep: string)
    requires f.number.Valid() && sep != "" && (forall c :: c in sep ==> c !in f.Text())
    requires MatchesAt(text, pos, f.Text())
    requires pos + |f.Text()| == |text| || MatchesAt(text, pos + |f.Text()|, sep)
    ensures text[pos..] != sep
    ensures StrStr(text, pos, sep) == if pos + |f.Text()| == |text| then None else Some(pos + |f.Text()|)
    ensures MatchesAt(text, pos + |f.Prefix()|, f.number.Text()) && f.Text() != ""
  {
    hide StrStr, Decimal, Numeral.Text;
    NumeralTextLaws(f.number);
    MatchSplits(text, pos, f.Prefix(), f.number.Text());
    TextWithoutSeparator(text, pos, f.Text(), sep);
  }

  lemma TextWithoutSeparator(text: string, pos: nat, t: string, sep: string)
    requires t != "" && sep != "" && (forall c :: c in sep ==> c !in t)
    requires MatchesAt(text, pos, t)
    requires pos + |t| == |text| || MatchesAt(text, pos + |t|, sep)
    ensures text[pos..] != sep
    ensures StrStr(text, pos, sep) == if pos + |t| == |text| then None else Some(pos + |t|)
  {
    forall i | pos <= i < pos + |t|
      ensures text[i] !in sep
    {
      MatchChar(text, pos, t, i - pos);
    }
    StrStrSkips(text, pos, pos + |t|, sep);
    assert text[pos..][0] == text[pos];
  }

  /** A timestamp is found in front of its number. */
  lemma StampIsRead(text: string, pos: nat, t: nat)
    requires MatchesAt(text, pos, Decimal(t) + TIMESTAMP_SEP)
    ensures StrStr(text, pos, TIMESTAMP_SEP) == Some(pos + |Decimal(t)|)
    ensures ScanTimestamp(text, pos) == t
  {
    hide StrStr, Decimal, ScanTimestamp;
    var d := Decimal(t);
    MatchSplits(text, pos, d, TIMESTAMP_SEP);
    var colon := pos + |d|;
    MatchChar(text, colon, TIMESTAMP_SEP, 0);
    forall i | pos <= i < colon
      ensures text[i] !in TIMESTAMP_SEP
    {
      MatchChar(text, pos, d, i - pos);
      DigitsAreDigits(d, 0, i - pos);
    }
    StrStrSkips(text, pos, colon, TIMESTAMP_SEP);
    TimestampReadsDecimal(text, pos, t);
  }

  /** One field is read back if and only if what follows it is harmless, and its
      number does not overflow. */
  lemma FieldIsReadIff(text: string, pos: nat, f: Field, sep: string, stamped: bool, now: int)
    requires f.Valid(stamped) && sep != "" && (forall c :: c in sep ==> c !in f.Text())
    requires MatchesAt(text, pos, f.Text())
    requires pos + |f.Text()| == |text| || MatchesAt(text, pos + |f.Text()|, sep)
    ensures Element(text, pos, sep, stamped, now) == Some(f.Meaning(now)) <==>
            Harmless(f.number, text, pos + |f.Text()|) && !Overflows(f.number.Value())
  {
    hide ScanNumber, StrStr, ScanTimestamp, Decimal, Numeral.Text, Numeral.Value, Harmless, Overflows;
    FieldEnds(text, pos, f, sep);
    ScanReadsNumeralIff(text, pos + |f.Prefix()|, f.number);
    NumeralTextLaws(f.number);
    if stamped {
      MatchSplits(text, pos, f.Prefix(), f.number.Text());
      StampIsRead(text, pos, f.stamp.value);
    }
  }

  /** All fields are read back, wherever the list starts in the text, if and only
      if what follows each of them is harmless, and no number overflows. */
  lemma {:induction false} RoundTripFromIff(text: string, from: nat, fields: seq<Field>, sep: string, stamped: bool,
                                            now: int)
    requires Joinable(fields, sep, stamped)
    requires from <= |text| && text[from..] == Join(fields, sep)
    ensures Elements(text, from, sep, stamped, now) == Meanings(fields, now) <==>
            AllHarmless(text, from, fields, sep) && AllInRange(fields)
    decreases |fields|
  {
    hide Element, StrStr, Starts, Field.Text, Field.Meaning, Harmless, Overflows, Numeral.Value, Join;
    var f, tail := fields[0], fields[1..];
    JoinStarts(text, from, fields, sep);
    FieldEnds(text, from, f, sep);
    FieldIsReadIff(text, from, f, sep, stamped, now);
    ElementsUnfold(text, from, sep, stamped, now);
    if |fields| > 1 {
      var next := from + |f.Text()| + |sep|;
      RoundTripFromIff(text, next, tail, sep, stamped, now);
      assert Meanings(fields, now) == [Some(f.Meaning(now))] + Meanings(tail, now);
      assert fields == [f] + tail;
      FirstAndRest(Element(text, from, sep, stamped, now), Elements(text, next, sep, stamped, now),
                   Some(f.Meaning(now)), Meanings(tail, now));
    } else {
      assert Meanings(fields, now) == [Some(f.Meaning(now))] + [];
      FirstAndRest(Element(text, from, sep, stamped, now), [], Some(f.Meaning(now)), []);
    }
  }

  lemma FirstAndRest(a: Option<Sample>, s: seq<Option<Sample>>, b: Option<Sample>, t: seq<Option<Sample>>)
    ensures [a] + s == [b] + t <==> a == b && s == t
  {
    if [a] + s == [b] + t {
      assert ([a] + s)[0] == ([b] + t)[0];
      assert ([a] + s)[1..] == ([b] + t)[1..];
    }
  }

  lemma ElementsUnfold(text: string, from: nat, sep: string, stamped: bool, now: int)
    requires from <= |text| && sep != ""
    ensures Elements(text, from, sep, stamped, now) ==
            [Element(text, from, sep, stamped, now)] +
            match StrStr(text, from, sep)
            case None => []
            case Some(i) => Elements(text, i + |sep|, sep, stamped, now)
  {
    hide Element, StrStr;
  }

  lemma JoinStarts(text: string, from: nat, fields: seq<Field>, sep: string)
    requires fields != [] && sep != "" && from <= |text| && text[from..] == Join(fields, sep)
    ensures MatchesAt(text, from, fields[0].Text())
    ensures var end := from + |fields[0].Text()|;
      if |fields| == 1 then end == |text|
      else MatchesAt(text, end, sep) && text[end + |sep|..] == Join(fields[1..], sep)
  {
    var t := fields[0].Text();
    if |fields| > 1 {
      var j := Join(fields[1..], sep);
      assert text[from..from + |t + sep + j|] == t + sep + j;
      MatchSplits(text, from, t + sep, j);
      MatchSplits(text, from, t, sep);
    }
  }

  /** Parser round trip, for every list of fields and every separator that shares
      no character with them: parsing the joined text gives back exactly the
      fields, in order, none missing, and the fold of them, if and only if what
      follows each field is harmless, and no number overflows. */
  lemma RoundTripIff(fields: seq<Field>, sep: string, op: Option<SplitOp>, stamped: bool, now: int)
    requires Joinable(fields, sep, stamped)
    ensures ParseVector(Join(fields, sep), sep, op, stamped, now) ==
            Vector(Meanings(fields, now), SplitResult(op, Meanings(fields, now), now)) <==>
            AllHarmless(Join(fields, sep), 0, fields, sep) && AllInRange(fields)
  {
    RoundTripFromIff(Join(fields, sep), 0, fields, sep, stamped, now);
  }

  /** A separator that no numeral goes on with is always harmless. */
  lemma {:induction false} SeparatorIsHarmless(text: string, from: nat, fields: seq<Field>, sep: string)
    requires fields != [] && sep != "" && from <= |text| && text[from..] == Join(fields, sep)
    requires |fields| == 1 || EndsNumerals(sep)
    ensures AllHarmless(text, from, fields, sep)
    decreases |fields|
  {
    hide Harmless, Field.Text;
    JoinStarts(text, from, fields, sep);
    var f, end := fields[0], from + |fields[0].Text()|;
    if |fields| > 1 {
      MatchChar(text, end, sep, 0);
      SeparatorIsHarmless(text, end + |sep|, fields[1..], sep);
    }
    EndIsHarmless(f.number, text, end);
  }

  /** With such a separator, as usual ones are, the round trip holds for all numbers
      that do not overflow. */
  lemma UsualSeparatorRoundTrip(fields: seq<Field>, sep: string, op: Option<SplitOp>, stamped: bool, now: int)
    requires Joinable(fields, sep, stamped)
    requires AllInRange(fields) && (|fields| == 1 || EndsNumerals(sep))
    ensures ParseVector(Join(fields, sep), sep, op, stamped, now) ==
            Vector(Meanings(fields, now), SplitResult(op, Meanings(fields, now), now))
  {
    SeparatorIsHarmless(Join(fields, sep), 0, fields, sep);
    RoundTripIff(fields, sep, op, stamped, now);
  }

  const ONE := Field(None, Numeral(false, "1", false, ""))
  const TWO := Field(None, Numeral(false, "2", false, ""))

  /** A case that fails: "1.2" split at "." is read as 1.2 and 2, not as 1 and 2. */
  lemma PointSeparatorMisreads(text: string, sep: string, now: int)
    requires sep == "." && text == Join([ONE, TWO], sep)
    ensures text == "1.2" && Joinable([ONE, TWO], sep, false)
    ensures Element(text, 0, sep, false, now) == Some(Sample(now, Finite(1.2))) != Some(ONE.Meaning(now))
  {
    hide *;
    JoinOfTwo(sep);
    OnePointTwo();
    OneIsOne(now);
    SmallIsInRange(1.2);
    ReadingInRange(now, 1.2);
    UnstampedElement(text, sep, now);
  }

  lemma ReadingInRange(timestamp: int, r: real)
    requires !Overflows(r)
    ensures Reading(timestamp, Finite(r)) == Some(Sample(timestamp, Finite(r)))
  {
  }

  lemma OneIsOne(now: int)
    ensures ONE.Meaning(now) == Sample(now, Finite(1.0))
  {
    assert RunValue("1", 0, 1) == 1;
  }

  lemma UnstampedElement(text: string, sep: string, now: int)
    requires text != sep
    ensures Element(text, 0, sep, false, now) == Reading(now, ScanNumber(text, 0))
  {
    hide StrStr, ScanNumber;
    assert text[0..] == text;
  }

  lemma OnePointTwo()
    ensures ScanNumber("1.2", 0) == Finite(1.2)
  {
    OnePointTwoDigits();
    OnePointTwoValue();
    hide DecimalDigits, DecimalValue, HexDigits, DigitRun;
    assert Shifted(1.2, 0) == 1.2;
  }

  lemma OnePointTwoDigits()
    ensures DecimalDigits("1.2", 0) == Digits(0, 1, 2, 3)
  {
  }

  lemma OnePointTwoValue()
    ensures DecimalValue("1.2", Digits(0, 1, 2, 3)) == 1.2
  {
    assert RunValue("1.2", 0, 1) == 1 && FractionValue("1.2", 2, 3) == 0.2;
  }

  /** One that does not, although the point continues the numeral: "1.;2" split at
      ".;" is read as 1 and 2, because "1." is 1. */
  lemma PointAloneIsHarmless(now: int)
    ensures Joinable([ONE, TWO], ".;", false) && !EndsNumerals(".;")
    ensures Elements("1.;2", 0, ".;", false, now) == Meanings([ONE, TWO], now)
  {
    hide StrStr, Harmless, Elements, Starts, Joinable;
    JoinOfTwo(".;");
    OnePointIsOne();
    assert "1.;2"[0..] == "1.;2" && "1.;2"[3..] == Join([TWO], ".;");
    assert AllHarmless("1.;2", 3, [TWO], ".;");
    assert AllHarmless("1.;2", 0, [ONE, TWO], ".;");
    RoundTripFromIff("1.;2", 0, [ONE, TWO], ".;", false, now);
  }

  lemma OnePointIsOne()
    ensures Harmless(ONE.number, "1.;2", 1) && Harmless(TWO.number, "1.;2", 4)
  {
  }

  lemma JoinOfTwo(sep: string)
    requires sep != "" && '1' !in sep && '2' !in sep
    ensures ONE.Text() == "1" && TWO.Text() == "2" && [ONE, TWO][1..] == [TWO] && Join([TWO], sep) == "2"
    ensures Join([ONE, TWO], sep) == "1" + sep + "2" && Joinable([ONE, TWO], sep, false)
  {
    assert [ONE, TWO][1..] == [TWO];
  }
}
