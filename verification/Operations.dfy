/** Operations over other monitors (rb_sensor_monitor.c). */
module Operations {
  import opened Wrappers
  import opened Numbers
  import opened Values
  import opened Monitors

  /** libmatheval: the value of a formula when each name is bound to the value
      at the same position. */
  type Evaluator = (string, seq<string>, seq<Number>) -> Number

  type Variables = seq<Option<Value>>

  /** The length that every vector among the variables has to have: that of the
      first variable that is there, which is zero when that one is a scalar. */
  function ExpectedSize(vars: Variables): nat {
    if vars == [] then 0
    else if vars[0].None? then ExpectedSize(vars[1..])
    else if vars[0].value.Vector? then |vars[0].value.children|
    else 0
  }

  predicate SizesAgree(vars: Variables) {
    forall i :: 0 <= i < |vars| && vars[i].Some? && vars[i].value.Vector? ==>
      |vars[i].value.children| == ExpectedSize(vars)
  }

  predicate AllScalar(vars: Variables) {
    forall i :: 0 <= i < |vars| ==> vars[i].Some? && vars[i].value.Scalar?
  }

  function ScalarValues(vars: Variables): seq<Number>
    requires AllScalar(vars)
  {
    seq(|vars|, k requires 0 <= k < |vars| => vars[k].value.sample.value)
  }

  /** children[pos] of a value. A single value has no children, and nothing is
      said of what would be found where a vector has them. */
  function ChildAt(v: Value, pos: nat): Option<Sample> {
    match v
    case Scalar(_) => None
    case Vector(children, _) => if pos < |children| then children[pos] else None
  }

  /** The scan over the variables from number v on: the guard, and then the child
      that `child` finds. Nothing, if any variable fails. */
  function ElementValues(vars: Variables, child: Value -> Option<Sample>, v: nat): Option<seq<Number>>
    requires v <= |vars|
    decreases |vars| - v
  {
    if v == |vars| then Some([])
    else if vars[v].None? || !vars[v].value.Scalar? || child(vars[v].value).None? then None
    else
      match ElementValues(vars, child, v + 1)
      case None => None
      case Some(rest) => Some([child(vars[v].value).value.value] + rest)
  }

  /** rb_monitor_op_value0 */
  function Evaluated(m: Monitor, values: seq<Number>, eval: Evaluator, now: int): Option<Sample>
    requires m.source.Operation?
  {
    var number := eval(m.source.formula, m.source.vars, values);
    if IsNormal(number) then Some(Sample(now, number)) else None
  }

  /** rb_monitor_op_vector_i: one element of an operation over vectors. */
  function OpElement(m: Monitor, vars: Variables, pos: nat, eval: Evaluator, now: int): Option<Sample>
    requires m.source.Operation?
  {
    match ElementValues(vars, (v: Value) => ChildAt(v, pos), 0)
    case None => None
    case Some(values) => Evaluated(m, values, eval, now)
  }

  function OpResult(m: Monitor, vars: Option<Variables>, eval: Evaluator, now: int): Option<Value>
    requires m.source.Operation?
  {
    if vars.None? || vars.value == [] || !SizesAgree(vars.value) || vars.value[0].None? then None
    else
      match vars.value[0].value
      case Vector(c, _) =>
        var children := Tabulated(|c|, (pos: nat) => OpElement(m, vars.value, pos, eval, now));
        Some(Vector(children, SplitResult(m.splitOp, children, now)))
      case Scalar(_) =>
        if !AllScalar(vars.value) then None
        else
          match Evaluated(m, ScalarValues(vars.value), eval, now)
          case None => None
          case Some(sample) => Some(Scalar(sample))
  }

  // ---------- the environment of the evaluator ----------

  /** struct libmatheval_vars: a table of names with gaps for the variables that
      are missing, and the number of those that are there. */
  datatype Environment = Environment(names: seq<Option<string>>, count: nat)

  function CountSome(vars: Variables, n: nat): (c: nat)
    requires n <= |vars|
    ensures c <= n
  {
    if n == 0 then 0 else CountSome(vars, n - 1) + if vars[n - 1].Some? then 1 else 0
  }

  lemma {:induction false} CountAll(vars: Variables, n: nat)
    requires n <= |vars| && forall k :: 0 <= k < n ==> vars[k].Some?
    ensures CountSome(vars, n) == n
    decreases n
  {
    if n > 0 {
      CountAll(vars, n - 1);
    }
  }

  lemma {:induction false} FirstDecidesSize(vars: Variables, first: nat)
    requires first < |vars| && vars[first].Some? && forall k :: 0 <= k < first ==> vars[k].None?
    ensures ExpectedSize(vars) == if vars[first].value.Vector? then |vars[first].value.children| else 0
    decreases first
  {
    if first > 0 {
      FirstDecidesSize(vars[1..], first - 1);
    }
  }

  /** op_libmatheval_vars: the table, or nothing when two vectors differ in
      length from what the first variable asks for. */
  method OpLibmathevalVars(vars: Variables, names: seq<string>) returns (env: Option<Environment>)
    requires |names| == |vars|
    ensures env.Some? <==> SizesAgree(vars)
    ensures env.Some? ==>
              && |env.value.names| == |vars| && env.value.count == CountSome(vars, |vars|)
              && forall i :: 0 <= i < |vars| ==>
                   env.value.names[i] == if vars[i].Some? then Some(names[i]) else None
  {
    var table := new Option<string>[|vars|](_ => None);
    var expected, count := 0, 0;
    for i := 0 to |vars|
      invariant count == CountSome(vars, i) && (count == 0 <==> forall k :: 0 <= k < i ==> vars[k].None?)
      invariant count == 0 ==> expected == 0
      invariant count > 0 ==> expected == ExpectedSize(vars)
      invariant forall k :: 0 <= k < |vars| ==>
        table[k] == if k < i && vars[k].Some? then Some(names[k]) else None
      invariant forall k :: 0 <= k < i && vars[k].Some? && vars[k].value.Vector? ==>
        |vars[k].value.children| == ExpectedSize(vars)
    {
      if vars[i].Some? {
        table[i] := Some(names[i]);
        if count == 0 {
          FirstDecidesSize(vars, i);
          if vars[i].value.Vector? {
            expected := |vars[i].value.children|;
          }
        } else if vars[i].value.Vector? && |vars[i].value.children| != expected {
          return None;
        }
        count := count + 1;
      }
    }
    return Some(Environment(table[..], count));
  }

  /** rb_monitor_op_value: bind the value of every variable and evaluate. The
      evaluator is only reached with a table without gaps. */
  method OpValue(m: Monitor, vars: Variables, env: Environment, eval: Evaluator, now: int) returns (r: Option<Value>)
    requires m.source.Operation? && |m.source.vars| == |vars| == |env.names| && env.count == CountSome(vars, |vars|)
    requires forall i :: 0 <= i < |vars| ==>
      env.names[i] == if vars[i].Some? then Some(m.source.vars[i]) else None
    ensures r == if !AllScalar(vars) then None
                 else var number := eval(m.source.formula, m.source.vars, ScalarValues(vars));
                      if IsNormal(number) then Some(Scalar(Sample(now, number))) else None
  {
    var values := new Number[|vars|](_ => Finite(0.0));
    for v := 0 to |vars|
      invariant forall k :: 0 <= k < v ==>
        vars[k].Some? && vars[k].value.Scalar? && values[k] == vars[k].value.sample.value
    {
      if vars[v].None? || !vars[v].value.Scalar? {
        return None;
      }
      values[v] := vars[v].value.sample.value;
    }
    CountAll(vars, |vars|);
    var names := seq(env.count, k requires 0 <= k < env.count => env.names[k].value);
    assert names == m.source.vars && values[..env.count] == ScalarValues(vars);
    var number := eval(m.source.formula, names, values[..env.count]);
    if !IsNormal(number) {
      return None;
    }
    return Some(Scalar(Sample(now, number)));
  }

  function Tabulated(size: nat, element: nat -> Option<Sample>): seq<Option<Sample>> {
    seq(size, i requires 0 <= i < size => element(i))
  }

  /** rb_monitor_op_vector: the same fold as for a vector that was read, over
      whatever `element` yields at each position. */
  method OpVector(size: nat, element: nat -> Option<Sample>, op: Option<SplitOp>, now: int)
    returns (children: array<Option<Sample>>, split: Option<Sample>)
    ensures fresh(children) && children[..] == Tabulated(size, element)
    ensures split == SplitResult(op, Tabulated(size, element), now)
  {
    ghost var values := Tabulated(size, element);
    children := new Option<Sample>[size](_ => None);
    var sum, count := Finite(0.0), 0;
    for i := 0 to size
      invariant forall k :: 0 <= k < i ==> children[k] == values[k]
      invariant count == Count(values, i) && sum == Sum(values, i)
    {
      children[i] := element(i);
      if children[i].Some? {
        sum := Plus(sum, children[i].value.value);
        count := count + 1;
      }
    }
    assert children[..] == values;
    split := None;
    if op.Some? && count > 0 {
      split := Some(Sample(now, if op.value == SumOp then sum else Over(sum, count)));
    }
  }

  /** rb_monitor_get_op_result */
  method GetOpResult(m: Monitor, vars: Option<Variables>, eval: Evaluator, now: int) returns (r: Option<Value>)
    requires m.source.Operation? && (vars.Some? ==> |vars.value| == |m.source.vars|)
    ensures r == OpResult(m, vars, eval, now)
  {
    if vars.None? || |vars.value| == 0 {
      return None;
    }
    var env := OpLibmathevalVars(vars.value, m.source.vars);
    if env.None? || vars.value[0].None? {
      return None;
    }
    match vars.value[0].value {
      case Vector(c, _) =>
        var element := (pos: nat) => OpElement(m, vars.value, pos, eval, now);
        var children, split := OpVector(|c|, element, m.splitOp, now);
        assert children[..] == Tabulated(|c|, (pos: nat) => OpElement(m, vars.value, pos, eval, now));
        return Some(Vector(children[..], split));
      case Scalar(_) =>
        r := OpValue(m, vars.value, env.value, eval, now);
    }
  }

  /** rb_monitor_op_vector_i as it runs, however children are found: their values
      are collected in the order of the variables, and the first variable that
      the guard rejects, or that has no such child, ends it. */
  method OpVectorI(m: Monitor, vars: Variables, find: Value -> Option<Sample>, eval: Evaluator, now: int)
    returns (r: Option<Sample>)
    requires m.source.Operation?
    ensures r == match ElementValues(vars, find, 0)
                 case None => None
                 case Some(values) => Evaluated(m, values, eval, now)
  {
    var values := [];
    BeforeNothing(ElementValues(vars, find, 0));
    for v := 0 to |vars|
      invariant ElementValues(vars, find, 0) == Before(values, ElementValues(vars, find, v))
    {
      if vars[v].None? || !vars[v].value.Scalar? {
        return None;
      }
      var child := find(vars[v].value);
      if child.None? {
        return None;
      }
      BeforeMore(values, child.value.value, ElementValues(vars, find, v + 1));
      values := values + [child.value.value];
    }
    assert values + [] == values;
    r := Evaluated(m, values, eval, now);
  }

  ghost function Before(values: seq<Number>, rest: Option<seq<Number>>): Option<seq<Number>> {
    if rest.None? then None else Some(values + rest.value)
  }

  lemma BeforeNothing(rest: Option<seq<Number>>)
    ensures Before([], rest) == rest
  {
    if rest.Some? {
      assert [] + rest.value == rest.value;
    }
  }

  lemma BeforeMore(values: seq<Number>, x: Number, rest: Option<seq<Number>>)
    ensures Before(values, Before([x], rest)) == Before(values + [x], rest)
  {
    if rest.Some? {
      assert values + ([x] + rest.value) == values + [x] + rest.value;
    }
  }

  /** The guard lets nothing but single values pass; and if all variables pass and
      have a child, the values are those of the children, in order. */
  lemma {:induction false} GuardRejectsVectors(vars: Variables, child: Value -> Option<Sample>, v: nat)
    requires v <= |vars|
    ensures ElementValues(vars, child, v).Some? <==> forall k :: v <= k < |vars| ==>
            vars[k].Some? && vars[k].value.Scalar? && child(vars[k].value).Some?
    ensures ElementValues(vars, child, v).Some? ==>
              var values := ElementValues(vars, child, v).value;
              && |values| == |vars| - v
              && forall k :: v <= k < |vars| ==> values[k - v] == child(vars[k].value).value.value
    decreases |vars| - v
  {
    if v < |vars| {
      GuardRejectsVectors(vars, child, v + 1);
    }
  }

  /** So an operation over vectors yields nothing: an operation with a vector
      among its variables has no elements; it is a vector of missing elements,
      without a split result, when its first variable is one and the sizes of all
      agree, and otherwise nothing at all. */
  lemma VectorOperationYieldsNothing(m: Monitor, vars: Variables, eval: Evaluator, now: int)
    requires m.source.Operation? && exists k :: 0 <= k < |vars| && vars[k].Some? && vars[k].value.Vector?
    ensures forall pos :: OpElement(m, vars, pos, eval, now).None?
    ensures OpResult(m, Some(vars), eval, now) ==
            if SizesAgree(vars) && vars[0].Some? && vars[0].value.Vector?
            then Some(Vector(seq(|vars[0].value.children|, _ => None), None)) else None
  {
    forall pos
      ensures OpElement(m, vars, pos, eval, now).None?
    {
      GuardRejectsVectors(vars, (v: Value) => ChildAt(v, pos), 0);
    }
    if SizesAgree(vars) && vars[0].Some? && vars[0].value.Vector? {
      var children := OpResult(m, Some(vars), eval, now).value.children;
      assert children == seq(|vars[0].value.children|, _ => None);
      CountIsPositive(children, |children|);
    }
  }
}
