/**
 * The expression language: data, never code. A partial evaluator with typed errors and
 * short-circuiting, behind a structural gate on depth and node count.
 */
module Expression {
  import opened Common
  import opened Text

  datatype Scalar = Str(s: string) | Num(n: real) | Bool(b: bool) | Null

  datatype Operator = Eq | Neq | Gt | Gte | Lt | Lte | Contains | StartsWith | EndsWith

  datatype Expression =
    | Literal(value: Scalar)
    | Ref(path: string)
    | Exists(path: string)
    | Not(operand: Expression)
    | And(operands: seq<Expression>)
    | Or(operands: seq<Expression>)
    | Compare(op: Operator, left: Expression, right: Expression)
    | In(subject: Expression, members: seq<Scalar>)

  /** A value in an evaluation context; the context itself is an object. */
  datatype ContextValue =
    | Leaf(scalar: Scalar)
    | Undefined
    | Object(fields: map<string, ContextValue>)
    | Array(items: seq<ContextValue>)

  type Context = map<string, ContextValue>

  datatype EvaluationError =
    | UnknownReference(path: string)
    | TypeMismatch(op: Operator)
    | NotBoolean
    | DepthExceeded(limit: nat)
    | NodesExceeded(limit: nat)

  type Evaluation<T> = Result<T, EvaluationError>

  const MAX_EXPRESSION_DEPTH: nat := 32
  const MAX_EXPRESSION_NODES: nat := 512

  // ---------------------------------------------------------------------------
  // Path lookup
  // ---------------------------------------------------------------------------

  function Field(v: ContextValue, segment: string): ContextValue {
    if v.Object? && segment in v.fields then v.fields[segment] else Undefined
  }

  function Follow(v: ContextValue, segments: seq<string>): ContextValue
    decreases |segments|
  {
    if segments == [] then v else Follow(Field(v, segments[0]), segments[1..])
  }

  function Resolve(c: Context, path: string): ContextValue {
    Follow(Object(c), SplitDots(path))
  }

  lemma {:induction false} FollowUndefined(segments: seq<string>)
    ensures Follow(Undefined, segments) == Undefined
  {
    if segments != [] { FollowUndefined(segments[1..]); }
  }

  /** The lookup loop. */
  method ResolvePath(c: Context, path: string) returns (current: ContextValue)
    ensures current == Resolve(c, path)
  {
    current := Object(c);
    var segments := SplitDots(path);
    for i := 0 to |segments|
      invariant Follow(current, segments[i..]) == Resolve(c, path)
    {
      assert segments[i..][0] == segments[i] && segments[i..][1..] == segments[i + 1..];
      if !current.Object? {
        FollowUndefined(segments[i + 1..]);
        return Undefined;
      }
      current := if segments[i] in current.fields then current.fields[segments[i]] else Undefined;
    }
  }

  // ---------------------------------------------------------------------------
  // Evaluation
  // ---------------------------------------------------------------------------

  predicate Includes(s: string, t: string) {
    |t| <= |s| && (s[..|t|] == t || (s != "" && Includes(s[1..], t)))
  }

  predicate IsOrdering(op: Operator) { op.Gt? || op.Gte? || op.Lt? || op.Lte? }

  /** An ordering operator, given whether the left side is less and whether it is greater. */
  predicate Order(op: Operator, less: bool, greater: bool)
    requires IsOrdering(op)
  {
    if op.Gt? then greater else if op.Gte? then !less else if op.Lt? then less else !greater
  }

  function CompareScalars(op: Operator, l: Scalar, r: Scalar): Evaluation<bool> {
    if op.Eq? then Ok(l == r)
    else if op.Neq? then Ok(l != r)
    else if l.Str? && r.Str? then
      Ok(if IsOrdering(op) then Order(op, LexLess(l.s, r.s), LexLess(r.s, l.s))
         else if op.Contains? then Includes(l.s, r.s)
         else if op.StartsWith? then r.s <= l.s
         else |r.s| <= |l.s| && l.s[|l.s| - |r.s|..] == r.s)
    else if IsOrdering(op) && l.Num? && r.Num? then Ok(Order(op, l.n < r.n, l.n > r.n))
    else Err(TypeMismatch(op))
  }

  function EvaluateValue(e: Expression, c: Context): Evaluation<Scalar>
    decreases e, if e.Ref? then 0 else 1
  {
    match e
    case Literal(v) => Ok(v)
    case Ref(path) =>
      (match Resolve(c, path)
       case Undefined => Err(UnknownReference(path))
       case Leaf(v) => Ok(v)
       case _ => Err(TypeMismatch(Eq)))
    case _ =>
      var b := EvaluateNode(e, c);
      if b.Ok? then Ok(Bool(b.value)) else Err(b.error)
  }

  function EvaluateNode(e: Expression, c: Context): Evaluation<bool>
    decreases e, if e.Ref? then 1 else 0
  {
    match e
    case Literal(v) => if v.Bool? then Ok(v.b) else Err(NotBoolean)
    case Ref(path) =>
      var v := EvaluateValue(e, c);
      if v.Err? then Err(v.error) else if v.value.Bool? then Ok(v.value.b) else Err(NotBoolean)
    case Exists(path) =>
      var raw := Resolve(c, path);
      Ok(raw != Undefined && raw != Leaf(Null))
    case Not(x) =>
      var r := EvaluateNode(x, c);
      if r.Ok? then Ok(!r.value) else r
    case And(xs) => EvaluateUntil(xs, c, false)
    case Or(xs) => EvaluateUntil(xs, c, true)
    case Compare(op, l, r) =>
      var lv := EvaluateValue(l, c);
      if lv.Err? then Err(lv.error)
      else
        var rv := EvaluateValue(r, c);
        if rv.Err? then Err(rv.error) else CompareScalars(op, lv.value, rv.value)
    case In(x, members) =>
      var v := EvaluateValue(x, c);
      if v.Err? then Err(v.error) else Ok(v.value in members)
  }

  /** Operands left to right, stopping at the first error or the first operand worth `stop`. */
  function EvaluateUntil(xs: seq<Expression>, c: Context, stop: bool): Evaluation<bool>
    decreases xs
  {
    if xs == [] then Ok(!stop)
    else
      var r := EvaluateNode(xs[0], c);
      if r.Err? || r.value == stop then r else EvaluateUntil(xs[1..], c, stop)
  }

  // ---------------------------------------------------------------------------
  // Structural limits
  // ---------------------------------------------------------------------------

  function Nodes(e: Expression): nat {
    match e
    case Literal(_) | Ref(_) | Exists(_) => 1
    case Not(x) => 1 + Nodes(x)
    case In(x, _) => 1 + Nodes(x)
    case Compare(_, l, r) => 1 + Nodes(l) + Nodes(r)
    case And(xs) => 1 + NodesAll(xs)
    case Or(xs) => 1 + NodesAll(xs)
  }

  function NodesAll(xs: seq<Expression>): nat {
    if xs == [] then 0 else Nodes(xs[0]) + NodesAll(xs[1..])
  }

  function Max(a: int, b: int): int { if a < b then b else a }

  function Depth(e: Expression): (d: nat)
    ensures d >= 1
  {
    match e
    case Literal(_) | Ref(_) | Exists(_) => 1
    case Not(x) => 1 + Depth(x)
    case In(x, _) => 1 + Depth(x)
    case Compare(_, l, r) => 1 + Max(Depth(l), Depth(r))
    case And(xs) => 1 + DepthAll(xs)
    case Or(xs) => 1 + DepthAll(xs)
  }

  /** The depth of the deepest of several expressions, 0 when there is none. */
  function DepthAll(xs: seq<Expression>): nat {
    if xs == [] then 0 else Max(Depth(xs[0]), DepthAll(xs[1..]))
  }

  lemma {:induction false} DepthAtMostNodes(e: Expression)
    ensures 1 <= Depth(e) <= Nodes(e)
  {
    match e
    case Literal(_) | Ref(_) | Exists(_) =>
    case Not(x) => DepthAtMostNodes(x);
    case In(x, _) => DepthAtMostNodes(x);
    case Compare(_, l, r) => DepthAtMostNodes(l); DepthAtMostNodes(r);
    case And(xs) => DepthAtMostNodesAll(xs);
    case Or(xs) => DepthAtMostNodesAll(xs);
  }

  lemma {:induction false} DepthAtMostNodesAll(xs: seq<Expression>)
    ensures DepthAll(xs) <= NodesAll(xs)
  {
    if xs != [] { DepthAtMostNodes(xs[0]); DepthAtMostNodesAll(xs[1..]); }
  }

  /** `measureExpression`: a walk that counts nodes in a shared variable. */
  class Measurement {
    var nodes: nat

    constructor ()
      ensures nodes == 0
    {
      nodes := 0;
    }

    method Walk(e: Expression, depth: int) returns (deepest: int)
      modifies this
      ensures nodes == old(nodes) + Nodes(e)
      ensures deepest == depth + Depth(e) - 1
      decreases e
    {
      nodes := nodes + 1;
      match e
      case Literal(_) | Ref(_) | Exists(_) =>
        deepest := depth;
      case Not(x) =>
        deepest := Walk(x, depth + 1);
      case In(x, _) =>
        deepest := Walk(x, depth + 1);
      case Compare(_, l, r) =>
        var a := Walk(l, depth + 1);
        var b := Walk(r, depth + 1);
        deepest := Max(a, b);
      case And(xs) =>
        deepest := WalkAll(xs, depth);
      case Or(xs) =>
        deepest := WalkAll(xs, depth);
    }

    method WalkAll(xs: seq<Expression>, depth: int) returns (deepest: int)
      modifies this
      ensures nodes == old(nodes) + NodesAll(xs)
      ensures deepest == depth + DepthAll(xs)
      decreases xs
    {
      deepest := depth;
      for i := 0 to |xs|
        invariant nodes + NodesAll(xs[i..]) == old(nodes) + NodesAll(xs)
        invariant Max(deepest, depth + DepthAll(xs[i..])) == depth + DepthAll(xs) && deepest >= depth
      {
        assert xs[i..][0] == xs[i] && xs[i..][1..] == xs[i + 1..];
        var d := Walk(xs[i], depth + 1);
        deepest := Max(deepest, d);
      }
    }
  }

  method MeasureExpression(e: Expression) returns (depth: int, nodes: nat)
    ensures depth == Depth(e) && nodes == Nodes(e)
  {
    var m := new Measurement();
    depth := m.Walk(e, 1);
    nodes := m.nodes;
  }

  /** The public entry: limits first, so no recursion starts on an oversized expression. */
  function Evaluate(e: Expression, c: Context): Evaluation<bool> {
    if Depth(e) > MAX_EXPRESSION_DEPTH then Err(DepthExceeded(MAX_EXPRESSION_DEPTH))
    else if Nodes(e) > MAX_EXPRESSION_NODES then Err(NodesExceeded(MAX_EXPRESSION_NODES))
    else EvaluateNode(e, c)
  }

  // ---------------------------------------------------------------------------
  // Context extension
  // ---------------------------------------------------------------------------

  predicate ExistsFree(e: Expression) {
    match e
    case Literal(_) | Ref(_) => true
    case Exists(_) => false
    case Not(x) => ExistsFree(x)
    case In(x, _) => ExistsFree(x)
    case Compare(_, l, r) => ExistsFree(l) && ExistsFree(r)
    case And(xs) => forall x | x in xs :: ExistsFree(x)
    case Or(xs) => forall x | x in xs :: ExistsFree(x)
  }

  /** Every path that resolves to a scalar in `c` resolves to the same scalar in `d`. */
  ghost predicate Keeps(c: Context, d: Context) {
    forall path :: Resolve(c, path).Leaf? ==> Resolve(d, path) == Resolve(c, path)
  }

  /** Facts added anywhere, at any depth, without changing a scalar that was there. */
  predicate Grows(v: ContextValue, w: ContextValue)
    decreases v
  {
    match v
    case Leaf(_) => w == v
    case Undefined | Array(_) => true
    case Object(f) => w.Object? && forall k | k in f :: k in w.fields && Grows(f[k], w.fields[k])
  }

  lemma {:induction false} GrowsFollow(v: ContextValue, w: ContextValue, segments: seq<string>)
    requires Grows(v, w) && Follow(v, segments).Leaf?
    ensures Follow(w, segments) == Follow(v, segments)
    decreases |segments|
  {
    if segments != [] {
      var s := segments[0];
      if v.Object? && s in v.fields {
        GrowsFollow(v.fields[s], w.fields[s], segments[1..]);
      } else {
        FollowUndefined(segments[1..]);
      }
    }
  }

  /** Adding facts to a context keeps every path it could already resolve to a scalar. */
  lemma GrowingKeepsScalars(c: Context, d: Context)
    requires Grows(Object(c), Object(d))
    ensures Keeps(c, d)
  {
    forall path | Resolve(c, path).Leaf? ensures Resolve(d, path) == Resolve(c, path) {
      GrowsFollow(Object(c), Object(d), SplitDots(path));
    }
  }

  lemma {:induction false} NodeIsStable(e: Expression, c: Context, d: Context)
    requires ExistsFree(e) && Keeps(c, d) && EvaluateNode(e, c).Ok?
    ensures EvaluateNode(e, d) == EvaluateNode(e, c)
    decreases e, if e.Ref? then 1 else 0
  {
    match e
    case Literal(_) | Exists(_) =>
    case Ref(_) => ValueIsStable(e, c, d);
    case Not(x) => NodeIsStable(x, c, d);
    case And(xs) => UntilIsStable(xs, c, d, false);
    case Or(xs) => UntilIsStable(xs, c, d, true);
    case Compare(_, l, r) => ValueIsStable(l, c, d); ValueIsStable(r, c, d);
    case In(x, _) => ValueIsStable(x, c, d);
  }

  lemma {:induction false} ValueIsStable(e: Expression, c: Context, d: Context)
    requires ExistsFree(e) && Keeps(c, d) && EvaluateValue(e, c).Ok?
    ensures EvaluateValue(e, d) == EvaluateValue(e, c)
    decreases e, if e.Ref? then 0 else 1
  {
    if !e.Literal? && !e.Ref? { NodeIsStable(e, c, d); }
  }

  lemma {:induction false} UntilIsStable(xs: seq<Expression>, c: Context, d: Context, stop: bool)
    requires (forall x | x in xs :: ExistsFree(x)) && Keeps(c, d) && EvaluateUntil(xs, c, stop).Ok?
    ensures EvaluateUntil(xs, d, stop) == EvaluateUntil(xs, c, stop)
    decreases xs
  {
    if xs != [] {
      NodeIsStable(xs[0], c, d);
      if EvaluateNode(xs[0], c).value != stop { UntilIsStable(xs[1..], c, d, stop); }
    }
  }

  /**
   * An `exists`-free expression that evaluates without error gives the same boolean in every context
   * that keeps the scalars already there, through every nesting and short-circuit.
   */
  lemma EvaluationIsStable(e: Expression, c: Context, d: Context)
    requires ExistsFree(e) && Keeps(c, d) && Evaluate(e, c).Ok?
    ensures Evaluate(e, d) == Evaluate(e, c)
  {
    NodeIsStable(e, c, d);
  }

  /** `exists` is the one construct that reads absence: a new fact flips it. */
  lemma ExistsIsNotStable()
    ensures Keeps(map[], map["a" := Leaf(Bool(true))])
    ensures Evaluate(Exists("a"), map[]) == Ok(false)
    ensures Evaluate(Exists("a"), map["a" := Leaf(Bool(true))]) == Ok(true)
  {
    GrowingKeepsScalars(map[], map["a" := Leaf(Bool(true))]);
    assert SplitDots("a") == ["a"] by {
      assert "a"[1..] == "";
      assert SplitDots("a") == [['a'] + [""][0]] + [""][1..];
    }
    var c: Context := map[];
    var d: Context := map["a" := Leaf(Bool(true))];
    assert Follow(Object(c), ["a"]) == Follow(Field(Object(c), "a"), ["a"][1..]) == Undefined;
    assert Follow(Object(d), ["a"]) == Follow(Field(Object(d), "a"), ["a"][1..]) == Leaf(Bool(true));
  }

  // ---------------------------------------------------------------------------
  // Cost
  // ---------------------------------------------------------------------------

  /** What an evaluation costs: evaluator calls made, and evaluator frames open at once at the worst moment. */
  datatype Cost = Cost(calls: nat, frames: nat) {
    /** The cost of a call whose body costs this. */
    function Call(): Cost { Cost(1 + calls, 1 + frames) }

    function Then(next: Cost): Cost {
      Cost(calls + next.calls, if frames < next.frames then next.frames else frames)
    }
  }

  const Free: Cost := Cost(0, 0)

  function ValueCost(e: Expression, c: Context): Cost
    decreases e, if e.Ref? then 0 else 1
  {
    if e.Literal? || e.Ref? then Free.Call() else NodeCost(e, c).Call()
  }

  function NodeCost(e: Expression, c: Context): Cost
    decreases e, if e.Ref? then 1 else 0
  {
    match e
    case Literal(_) | Exists(_) => Free.Call()
    case Ref(_) => ValueCost(e, c).Call()
    case Not(x) => NodeCost(x, c).Call()
    case And(xs) => UntilCost(xs, c, false).Call()
    case Or(xs) => UntilCost(xs, c, true).Call()
    case Compare(_, l, r) =>
      (if EvaluateValue(l, c).Ok? then ValueCost(l, c).Then(ValueCost(r, c)) else ValueCost(l, c)).Call()
    case In(x, _) => ValueCost(x, c).Call()
  }

  function UntilCost(xs: seq<Expression>, c: Context, stop: bool): Cost
    decreases xs
  {
    if xs == [] then Free
    else
      var r := EvaluateNode(xs[0], c);
      if r.Err? || r.value == stop then NodeCost(xs[0], c)
      else NodeCost(xs[0], c).Then(UntilCost(xs[1..], c, stop))
  }

  /** The evaluator as written, counting its calls and its open frames. */
  class Evaluator {
    var calls: nat
    var open: nat
    var deepest: nat

    constructor ()
      ensures Valid() && calls == 0 && open == 0 && deepest == 0
    {
      calls, open, deepest := 0, 0, 0;
    }

    ghost predicate Valid()
      reads this
    {
      open <= deepest
    }

    twostate predicate Spent(cost: Cost)
      reads this
    {
      && calls == old(calls) + cost.calls
      && open == old(open) && Valid()
      && deepest == Max(old(deepest), old(open) + cost.frames)
    }

    method Enter()
      modifies this
      ensures calls == old(calls) + 1 && open == old(open) + 1 && deepest == Max(old(deepest), open)
    {
      calls, open := calls + 1, open + 1;
      if deepest < open { deepest := open; }
    }

    method Value(e: Expression, c: Context) returns (r: Evaluation<Scalar>)
      requires Valid()
      modifies this
      ensures r == EvaluateValue(e, c) && Spent(ValueCost(e, c))
      decreases e, if e.Ref? then 0 else 1
    {
      Enter();
      match e {
        case Literal(v) => r := Ok(v);
        case Ref(path) =>
          var raw := ResolvePath(c, path);
          match raw {
            case Undefined => r := Err(UnknownReference(path));
            case Leaf(v) => r := Ok(v);
            case _ => r := Err(TypeMismatch(Eq));
          }
        case _ =>
          var b := Node(e, c);
          match b {
            case Ok(v) => r := Ok(Bool(v));
            case Err(error) => r := Err(error);
          }
      }
      open := open - 1;
    }

    method Node(e: Expression, c: Context) returns (r: Evaluation<bool>)
      requires Valid()
      modifies this
      ensures r == EvaluateNode(e, c) && Spent(NodeCost(e, c))
      decreases e, if e.Ref? then 1 else 0
    {
      Enter();
      match e {
        case Literal(v) => r := if v.Bool? then Ok(v.b) else Err(NotBoolean);
        case Ref(path) =>
          var v := Value(e, c);
          r := if v.Err? then Err(v.error) else if v.value.Bool? then Ok(v.value.b) else Err(NotBoolean);
        case Exists(path) =>
          var raw := ResolvePath(c, path);
          r := Ok(raw != Undefined && raw != Leaf(Null));
        case Not(x) =>
          var b := Node(x, c);
          r := if b.Ok? then Ok(!b.value) else b;
        case And(xs) => r := Until(xs, c, false);
        case Or(xs) => r := Until(xs, c, true);
        case Compare(op, left, right) =>
          var lv := Value(left, c);
          if lv.Err? {
            r := Err(lv.error);
          } else {
            var rv := Value(right, c);
            r := if rv.Err? then Err(rv.error) else CompareScalars(op, lv.value, rv.value);
          }
        case In(x, members) =>
          var v := Value(x, c);
          r := if v.Err? then Err(v.error) else Ok(v.value in members);
      }
      open := open - 1;
    }

    /** The operand loop of `and` and `or`, with its early returns. */
    method Until(xs: seq<Expression>, c: Context, stop: bool) returns (r: Evaluation<bool>)
      requires Valid()
      modifies this
      ensures r == EvaluateUntil(xs, c, stop) && Spent(UntilCost(xs, c, stop))
      decreases xs
    {
      for i := 0 to |xs|
        invariant EvaluateUntil(xs[i..], c, stop) == EvaluateUntil(xs, c, stop)
        invariant open == old(open) && Valid()
        invariant calls + UntilCost(xs[i..], c, stop).calls == old(calls) + UntilCost(xs, c, stop).calls
        invariant Max(deepest, old(open) + UntilCost(xs[i..], c, stop).frames)
                  == Max(old(deepest), old(open) + UntilCost(xs, c, stop).frames)
      {
        assert xs[i..][0] == xs[i] && xs[i..][1..] == xs[i + 1..];
        r := Node(xs[i], c);
        if r.Err? || r.value == stop {
          return;
        }
      }
      return Ok(!stop);
    }
  }

  lemma {:induction false} NodeCostBound(e: Expression, c: Context)
    ensures NodeCost(e, c).calls <= 2 * Nodes(e) - (if e.Ref? then 0 else 1)
    ensures NodeCost(e, c).frames <= 2 * Depth(e) - (if e.Ref? then 0 else 1)
    decreases e, if e.Ref? then 1 else 0
  {
    match e
    case Literal(_) | Exists(_) =>
    case Ref(_) =>
    case Not(x) => NodeCostBound(x, c);
    case And(xs) => UntilCostBound(xs, c, false);
    case Or(xs) => UntilCostBound(xs, c, true);
    case Compare(_, l, r) => ValueCostBound(l, c); ValueCostBound(r, c);
    case In(x, _) => ValueCostBound(x, c);
  }

  lemma {:induction false} ValueCostBound(e: Expression, c: Context)
    ensures ValueCost(e, c).calls <= 2 * Nodes(e) && ValueCost(e, c).frames <= 2 * Depth(e)
    decreases e, if e.Ref? then 0 else 1
  {
    if !e.Literal? && !e.Ref? { NodeCostBound(e, c); }
  }

  lemma {:induction false} UntilCostBound(xs: seq<Expression>, c: Context, stop: bool)
    ensures UntilCost(xs, c, stop).calls <= 2 * NodesAll(xs) && UntilCost(xs, c, stop).frames <= 2 * DepthAll(xs)
    decreases xs
  {
    if xs != [] {
      NodeCostBound(xs[0], c);
      UntilCostBound(xs[1..], c, stop);
    }
  }

  /** Evaluation never costs more than two calls per node and two frames per level; the gate caps both. */
  lemma GatedCost(e: Expression, c: Context)
    ensures NodeCost(e, c).calls <= 2 * Nodes(e) && NodeCost(e, c).frames <= 2 * Depth(e)
    ensures Depth(e) <= MAX_EXPRESSION_DEPTH && Nodes(e) <= MAX_EXPRESSION_NODES ==>
              NodeCost(e, c).calls <= 1024 && NodeCost(e, c).frames <= 64
  {
    NodeCostBound(e, c);
  }

  /** An expression over either limit is refused before the evaluator is entered at all. */
  method EvaluateCounted(e: Expression, c: Context) returns (r: Evaluation<bool>, calls: nat, frames: nat)
    ensures r == Evaluate(e, c)
    ensures calls <= 1024 && frames <= 64
    ensures Depth(e) > MAX_EXPRESSION_DEPTH || Nodes(e) > MAX_EXPRESSION_NODES ==> calls == 0 && r.Err?
  {
    var depth, nodes := MeasureExpression(e);
    if depth > MAX_EXPRESSION_DEPTH {
      return Err(DepthExceeded(MAX_EXPRESSION_DEPTH)), 0, 0;
    }
    if nodes > MAX_EXPRESSION_NODES {
      return Err(NodesExceeded(MAX_EXPRESSION_NODES)), 0, 0;
    }
    var evaluator := new Evaluator();
    r := evaluator.Node(e, c);
    GatedCost(e, c);
    calls, frames := evaluator.calls, evaluator.deepest;
  }
}
