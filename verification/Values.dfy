/** Monitor values, their split results and the messages they are printed as
    (rb_value.c). */
module Values {
  import opened Wrappers
  import opened Numbers

  /** A reading of one quantity. */
  datatype Sample = Sample(timestamp: int, value: Number)

  /** struct monitor_value: one sample, or a vector whose elements may be
      missing together with the result of its split operation. */
  datatype Value =
    | Scalar(sample: Sample)
    | Vector(children: seq<Option<Sample>>, split: Option<Sample>)

  datatype SplitOp = SumOp | MeanOp

  /** A message about one monitor, or about one instance of a vector monitor. */
  datatype Message = Message(monitor: nat, instance: Option<nat>, sample: Sample)

  // ---------- split results ----------

  /** How many of the first n elements are there. */
  function Count(children: seq<Option<Sample>>, n: nat): nat
    requires n <= |children|
  {
    if n == 0 then 0 else Count(children, n - 1) + if children[n - 1].Some? then 1 else 0
  }

  /** The sum of those of the first n elements that are there. */
  function Sum(children: seq<Option<Sample>>, n: nat): Number
    requires n <= |children|
  {
    if n == 0 then Finite(0.0)
    else
      var before := Sum(children, n - 1);
      if children[n - 1].Some? then Plus(before, children[n - 1].value.value) else before
  }

  function SplitResult(op: Option<SplitOp>, children: seq<Option<Sample>>, now: int): Option<Sample> {
    var count, sum := Count(children, |children|), Sum(children, |children|);
    if op.None? || count == 0 then None
    else Some(Sample(now, if op.value == SumOp then sum else Over(sum, count)))
  }

  lemma {:induction false} CountIsPositive(children: seq<Option<Sample>>, n: nat)
    requires n <= |children|
    ensures Count(children, n) > 0 <==> exists i :: 0 <= i < n && children[i].Some?
    decreases n
  {
    if n > 0 {
      CountIsPositive(children, n - 1);
    }
  }

  /** All of the first n elements that are there are finite. */
  predicate AllFinite(children: seq<Option<Sample>>, n: nat)
    requires n <= |children|
  {
    forall k :: 0 <= k < n && children[k].Some? ==> children[k].value.value.Finite?
  }

  lemma {:induction false} SumIsFiniteIff(children: seq<Option<Sample>>, n: nat)
    requires n <= |children|
    ensures Sum(children, n).Finite? <==> AllFinite(children, n)
    decreases n
  {
    if n > 0 {
      SumIsFiniteIff(children, n - 1);
    }
  }

  /** The value of an element that is there and finite. */
  function RealAt(children: seq<Option<Sample>>, k: nat): real
    requires k < |children| && children[k].Some? && children[k].value.value.Finite?
  {
    children[k].value.value.r
  }

  /** A sum lies between the least and the greatest element, times their number. */
  lemma {:induction false} SumBetween(children: seq<Option<Sample>>, n: nat) returns (lo: nat, hi: nat)
    requires n <= |children| && Count(children, n) > 0 && AllFinite(children, n)
    ensures lo < n && hi < n && children[lo].Some? && children[hi].Some? && Sum(children, n).Finite?
    ensures Scaled(Count(children, n), RealAt(children, lo)) <= Sum(children, n).r
    ensures Sum(children, n).r <= Scaled(Count(children, n), RealAt(children, hi))
    decreases n
  {
    var m := n - 1;
    if children[m].None? {
      lo, hi := SumBetween(children, m);
    } else if Count(children, m) == 0 {
      lo, hi := m, m;
      NothingSumsToZero(children, m);
    } else {
      var x := RealAt(children, m);
      lo, hi := SumBetween(children, m);
      ScaledGrows(Count(children, m), x, RealAt(children, lo));
      ScaledGrows(Count(children, m), RealAt(children, hi), x);
      if x < RealAt(children, lo) {
        lo := m;
      }
      if RealAt(children, hi) < x {
        hi := m;
      }
    }
  }

  lemma {:induction false} NothingSumsToZero(children: seq<Option<Sample>>, n: nat)
    requires n <= |children| && Count(children, n) == 0
    ensures Sum(children, n) == Finite(0.0)
    decreases n
  {
    if n > 0 {
      NothingSumsToZero(children, n - 1);
    }
  }

  /** n times x, as repeated addition. */
  function Scaled(n: nat, x: real): real {
    if n == 0 then 0.0 else Scaled(n - 1, x) + x
  }

  lemma {:induction false} ScaledGrows(n: nat, x: real, y: real)
    ensures x <= y ==> Scaled(n, x) <= Scaled(n, y)
    decreases n
  {
    if n > 0 {
      ScaledGrows(n - 1, x, y);
    }
  }

  lemma {:induction false} ScaledGrowsStrictly(n: nat, x: real, y: real)
    ensures n > 0 && x < y ==> Scaled(n, x) < Scaled(n, y)
    decreases n
  {
    if n > 0 {
      ScaledGrowsStrictly(n - 1, x, y);
    }
  }

  lemma {:induction false} ScaledIsProduct(n: nat, x: real)
    ensures Scaled(n, x) == n as real * x
    decreases n
  {
    if n > 0 {
      ScaledIsProduct(n - 1, x);
      assert n as real * x == (n - 1) as real * x + x;
    }
  }

  /** A mean times the number of elements is their sum, and if the sum lies
      between two multiples then the mean lies between what they are multiples of. */
  lemma MeanLaws(sum: real, count: nat, lo: real, hi: real)
    requires count > 0 && Scaled(count, lo) <= sum <= Scaled(count, hi)
    ensures var mean := sum / count as real; Scaled(count, mean) == sum && lo <= mean <= hi
  {
    var q := sum / count as real;
    ScaledIsProduct(count, q);
    assert count as real * q == sum;
    ScaledGrowsStrictly(count, q, lo);
    ScaledGrowsStrictly(count, hi, q);
  }

  /** What a split result is worth. It exists exactly when an operation is set
      and some element is there, and is finite exactly when all elements are. A
      sum is the sum of the elements that are there; a finite mean times their
      number is that sum, and lies between two of them, and any other mean is the
      sum itself. */
  lemma SplitResultLaws(op: Option<SplitOp>, children: seq<Option<Sample>>, now: int)
    ensures SplitResult(op, children, now).Some? <==>
            op.Some? && exists i :: 0 <= i < |children| && children[i].Some?
    ensures SplitResult(op, children, now).Some? ==>
              var r := SplitResult(op, children, now).value;
              var n, sum := Count(children, |children|), Sum(children, |children|);
              && r.timestamp == now
              && (r.value.Finite? <==> AllFinite(children, |children|))
              && (sum.Finite? <==> AllFinite(children, |children|))
              && (op == Some(SumOp) || !r.value.Finite? ==> r.value == sum)
              && (op == Some(MeanOp) && r.value.Finite? ==>
                    && Scaled(n, r.value.r) == sum.r
                    && exists i, j ::
                         && 0 <= i < |children| && 0 <= j < |children| && children[i].Some? && children[j].Some?
                         && RealAt(children, i) <= r.value.r <= RealAt(children, j))
  {
    var n, sum := Count(children, |children|), Sum(children, |children|);
    CountIsPositive(children, |children|);
    SumIsFiniteIff(children, |children|);
    if op == Some(MeanOp) && n > 0 && sum.Finite? {
      var lo, hi := SumBetween(children, |children|);
      MeanLaws(sum.r, n, RealAt(children, lo), RealAt(children, hi));
    }
  }

  /** Nothing sums up to zero, one element to its own value, and two vectors one
      after the other to what both sum up to. */
  lemma SumLaws(c: seq<Option<Sample>>, d: seq<Option<Sample>>, s: Sample)
    ensures Sum([], 0) == Finite(0.0) && Sum([Some(s)], 1) == s.value
    ensures Sum(c + d, |c + d|) == Plus(Sum(c, |c|), Sum(d, |d|))
    ensures Count(c + d, |c + d|) == Count(c, |c|) + Count(d, |d|)
  {
    SumOfJoin(c, d, |d|);
    PlusLaws(Finite(0.0), s.value, s.value);
    assert Sum([Some(s)], 0) == Finite(0.0);
  }

  lemma {:induction false} SumOfJoin(c: seq<Option<Sample>>, d: seq<Option<Sample>>, n: nat)
    requires n <= |d|
    ensures Sum(c + d, |c| + n) == Plus(Sum(c, |c|), Sum(d, n))
    ensures Count(c + d, |c| + n) == Count(c, |c|) + Count(d, n)
    decreases n
  {
    if n == 0 {
      SumOfPrefix(c, d, |c|);
      PlusLaws(Sum(c, |c|), Finite(0.0), Finite(0.0));
    } else {
      SumOfJoin(c, d, n - 1);
      if d[n - 1].Some? {
        PlusLaws(Sum(c, |c|), Sum(d, n - 1), d[n - 1].value.value);
      }
    }
  }

  lemma {:induction false} SumOfPrefix(c: seq<Option<Sample>>, d: seq<Option<Sample>>, n: nat)
    requires n <= |c|
    ensures Sum(c + d, n) == Sum(c, n) && Count(c + d, n) == Count(c, n)
    decreases n
  {
    if n > 0 {
      SumOfPrefix(c, d, n - 1);
    }
  }

  // ---------- printing ----------

  /** The messages of those of the first n elements that are there. */
  function PrintedChildren(monitor: nat, children: seq<Option<Sample>>, n: nat): seq<Message>
    requires n <= |children|
  {
    if n == 0 then []
    else PrintedChildren(monitor, children, n - 1)
         + if children[n - 1].Some? then [Message(monitor, Some(n - 1), children[n - 1].value)] else []
  }

  /** The messages for a value. */
  function Printed(monitor: nat, v: Value): seq<Message> {
    match v
    case Scalar(s) => [Message(monitor, None, s)]
    case Vector(children, split) =>
      PrintedChildren(monitor, children, |children|)
      + if split.Some? then [Message(monitor, None, split.value)] else []
  }

  ghost predicate IsPrintOf(msgs: seq<Message>, monitor: nat, children: seq<Option<Sample>>, n: nat)
    requires n <= |children|
  {
    && |msgs| == Count(children, n)
    && (forall k :: 0 <= k < |msgs| ==>
          && msgs[k].monitor == monitor && msgs[k].instance.Some? && msgs[k].instance.value < n
          && children[msgs[k].instance.value] == Some(msgs[k].sample))
    && (forall k, l :: 0 <= k < l < |msgs| ==> msgs[k].instance.value < msgs[l].instance.value)
    && (forall i: nat :: i < n && children[i].Some? ==> exists k :: 0 <= k < |msgs| && msgs[k].instance == Some(i))
  }

  /** Printing is an order-preserving filter: the messages are exactly the
      elements that are there, in order, each labelled with its own position in
      the vector, followed by the split result if there is one. */
  lemma {:induction false} PrintedIsFilter(monitor: nat, children: seq<Option<Sample>>, n: nat)
    requires n <= |children|
    ensures IsPrintOf(PrintedChildren(monitor, children, n), monitor, children, n)
    decreases n
  {
    if n > 0 {
      PrintedIsFilter(monitor, children, n - 1);
      hide IsPrintOf;
      PrintOneMore(PrintedChildren(monitor, children, n - 1), monitor, children, n - 1);
    }
  }

  /** A single value is one message about the monitor as a whole. A vector is a
      message for each element that is there, and one about the whole, behind
      them, if and only if it has a split result. */
  lemma PrintedLaws(monitor: nat, v: Value)
    ensures var msgs := Printed(monitor, v);
      match v
      case Scalar(s) => msgs == [Message(monitor, None, s)]
      case Vector(children, split) =>
        var n := Count(children, |children|);
        && |msgs| == n + (if split.Some? then 1 else 0)
        && IsPrintOf(msgs[..n], monitor, children, |children|)
        && (split.Some? ==> msgs[n] == Message(monitor, None, split.value))
  {
    if v.Vector? {
      PrintedIsFilter(monitor, v.children, |v.children|);
      var msgs := PrintedChildren(monitor, v.children, |v.children|);
      assert Printed(monitor, v)[..|msgs|] == msgs;
    }
  }

  lemma {:induction false} PrintOneMore(before: seq<Message>, monitor: nat, children: seq<Option<Sample>>, n: nat)
    requires n < |children| && IsPrintOf(before, monitor, children, n)
    ensures IsPrintOf(before + if children[n].Some? then [Message(monitor, Some(n), children[n].value)] else [],
                      monitor, children, n + 1)
  {
    var msgs := before + if children[n].Some? then [Message(monitor, Some(n), children[n].value)] else [];
    forall i: nat | i < n + 1 && children[i].Some?
      ensures exists k :: 0 <= k < |msgs| && msgs[k].instance == Some(i)
    {
      if i < n {
        var k :| 0 <= k < |before| && before[k].instance == Some(i);
        assert msgs[k].instance == Some(i);
      } else {
        assert msgs[|before|].instance == Some(i);
      }
    }
  }

  lemma {:induction false} PrintedHas(monitor: nat, children: seq<Option<Sample>>, n: nat, msg: Message)
    requires n <= |children|
    ensures msg in PrintedChildren(monitor, children, n) <==>
              && msg.monitor == monitor && msg.instance.Some? && msg.instance.value < n
              && children[msg.instance.value] == Some(msg.sample)
    decreases n
  {
    if n > 0 {
      PrintedHas(monitor, children, n - 1, msg);
    }
  }

  /** print_monitor_value: fill a message buffer of the greatest size needed and
      report how much of it was used. */
  method PrintMonitorValue(monitor: nat, v: Value) returns (buf: array<Option<Message>>, count: nat)
    ensures fresh(buf)
    ensures count == |Printed(monitor, v)| <= buf.Length
    ensures forall k :: 0 <= k < count ==> buf[k] == Some(Printed(monitor, v)[k])
    ensures forall k :: count <= k < buf.Length ==> buf[k].None?
  {
    if v.Scalar? {
      buf := new Option<Message>[1](_ => None);
      buf[0] := Some(Message(monitor, None, v.sample));
      count := 1;
      return;
    }
    var children := v.children;
    buf := new Option<Message>[|children| + if v.split.Some? then 1 else 0](_ => None);
    count := 0;
    for i := 0 to |children|
      invariant count == |PrintedChildren(monitor, children, i)| <= i
      invariant forall k :: 0 <= k < count ==> buf[k] == Some(PrintedChildren(monitor, children, i)[k])
      invariant forall k :: count <= k < buf.Length ==> buf[k].None?
    {
      if children[i].Some? {
        buf[count] := Some(Message(monitor, Some(i), children[i].value));
        count := count + 1;
      }
    }
    if v.split.Some? {
      buf[count] := Some(Message(monitor, None, v.split.value));
      count := count + 1;
    }
  }
}
