/**
 * What expressions mean: each connective, comparison and lookup as a law about results, whatever the
 * evaluator does to find them.
 */
module ExpressionLaws {
  import opened Common
  import opened Text
  import opened Expression

  /** Within both structural limits. */
  predicate Fits(e: Expression) { Depth(e) <= 32 && Nodes(e) <= 512 }

  lemma FitsIsEvaluated(e: Expression, c: Context)
    requires Fits(e)
    ensures Evaluate(e, c) == EvaluateNode(e, c)
  {
  }

  /** The operands of an expression within the limits are within them. */
  lemma {:induction false} OperandFits(xs: seq<Expression>, k: nat)
    requires k < |xs|
    ensures Depth(xs[k]) <= DepthAll(xs) && Nodes(xs[k]) <= NodesAll(xs)
  {
    if k > 0 { OperandFits(xs[1..], k - 1); }
  }

  lemma OperandsFit(xs: seq<Expression>)
    requires Fits(And(xs)) || Fits(Or(xs))
    ensures forall k | 0 <= k < |xs| :: Fits(xs[k])
  {
    forall k | 0 <= k < |xs| ensures Fits(xs[k]) { OperandFits(xs, k); }
  }

  // ---------------------------------------------------------------------------
  // Limits
  // ---------------------------------------------------------------------------

  /** Deeper than 32 or larger than 512 nodes is refused, depth first, and nothing else is ever refused for its size. */
  lemma LimitsAreExact(e: Expression, c: Context)
    ensures Evaluate(e, c) == Err(DepthExceeded(32)) <==> Depth(e) > 32
    ensures Evaluate(e, c) == Err(NodesExceeded(512)) <==> Depth(e) <= 32 && Nodes(e) > 512
  {
    NeverForSize(e, c);
  }

  /** What an expression is built from. */
  function Operands(e: Expression): seq<Expression> {
    match e
    case Literal(_) | Ref(_) | Exists(_) => []
    case Not(x) => [x]
    case In(x, _) => [x]
    case Compare(_, l, r) => [l, r]
    case And(xs) => xs
    case Or(xs) => xs
  }

  function Total(xs: seq<Expression>): nat { if xs == [] then 0 else Total(xs[..|xs| - 1]) + Nodes(xs[|xs| - 1]) }

  /** A node counts once with all its operands, and lies one level above its deepest one. */
  lemma SizeMeans(e: Expression)
    ensures Nodes(e) == 1 + Total(Operands(e))
    ensures forall k | 0 <= k < |Operands(e)| :: Depth(Operands(e)[k]) < Depth(e)
    ensures Depth(e) == 1 || exists k :: 0 <= k < |Operands(e)| && Depth(Operands(e)[k]) == Depth(e) - 1
  {
    var xs := Operands(e);
    TotalIsAll(xs);
    forall k | 0 <= k < |xs| ensures Depth(xs[k]) <= DepthAll(xs) { OperandFits(xs, k); }
    if e.Compare? {
      assert xs[1..][0] == e.right && xs[1..][1..] == [];
      assert NodesAll(xs) == Nodes(e.left) + NodesAll(xs[1..]);
      assert xs[if Depth(e.left) < Depth(e.right) then 1 else 0] in xs;
    } else if xs != [] {
      var k := Deepest(xs);
      assert Depth(xs[k]) == DepthAll(xs);
      assert |xs| == 1 ==> xs[1..] == [];
    }
  }

  lemma {:induction false} Deepest(xs: seq<Expression>) returns (k: nat)
    requires xs != []
    ensures k < |xs| && Depth(xs[k]) == DepthAll(xs)
  {
    k := 0;
    assert xs[1..] == [] ==> DepthAll(xs[1..]) == 0;
    if Depth(xs[0]) < DepthAll(xs) {
      k := Deepest(xs[1..]);
      k := k + 1;
    }
  }

  lemma {:induction false} TotalIsAll(xs: seq<Expression>)
    ensures Total(xs) == NodesAll(xs)
  {
    if xs != [] {
      var last, earlier := xs[|xs| - 1], xs[..|xs| - 1];
      TotalIsAll(earlier);
      NodesSnoc(earlier, last);
      assert xs == earlier + [last];
    }
  }

  lemma {:induction false} NodesSnoc(xs: seq<Expression>, x: Expression)
    ensures NodesAll(xs + [x]) == NodesAll(xs) + Nodes(x)
  {
    if xs == [] {
      assert ([] + [x])[1..] == [];
    } else {
      assert (xs + [x])[1..] == xs[1..] + [x];
      NodesSnoc(xs[1..], x);
    }
  }

  predicate IsSize(e: EvaluationError) { e.DepthExceeded? || e.NodesExceeded? }

  lemma {:induction false} NeverForSize(e: Expression, c: Context)
    ensures EvaluateNode(e, c).Err? ==> !IsSize(EvaluateNode(e, c).error)
    decreases e, 1
  {
    match e
    case Literal(_) | Ref(_) | Exists(_) =>
    case Not(x) => NeverForSize(x, c);
    case And(xs) => NeverForSizeUntil(xs, c, false);
    case Or(xs) => NeverForSizeUntil(xs, c, true);
    case Compare(_, l, r) => ValueNeverForSize(l, c); ValueNeverForSize(r, c);
    case In(x, _) => ValueNeverForSize(x, c);
  }

  lemma ValueNeverForSize(e: Expression, c: Context)
    ensures EvaluateValue(e, c).Err? ==> !IsSize(EvaluateValue(e, c).error)
    decreases e, 2
  {
    NeverForSize(e, c);
  }

  lemma {:induction false} NeverForSizeUntil(xs: seq<Expression>, c: Context, stop: bool)
    ensures EvaluateUntil(xs, c, stop).Err? ==> !IsSize(EvaluateUntil(xs, c, stop).error)
    decreases xs
  {
    if xs != [] {
      NeverForSize(xs[0], c);
      NeverForSizeUntil(xs[1..], c, stop);
    }
  }

  // ---------------------------------------------------------------------------
  // Connectives
  // ---------------------------------------------------------------------------

  /** `not` gives the opposite boolean, and an error as it is. */
  lemma NotMeans(x: Expression, c: Context)
    requires Fits(Not(x))
    ensures forall b :: Evaluate(Not(x), c) == Ok(b) <==> Evaluate(x, c) == Ok(!b)
    ensures forall e :: Evaluate(Not(x), c) == Err(e) <==> Evaluate(x, c) == Err(e)
  {
  }

  /** The operand at `k` settles the matter: it is worth `r`, and all before it are worth `pass`. */
  predicate Settles(xs: seq<Expression>, c: Context, pass: bool, k: nat, r: Evaluation<bool>) {
    k < |xs| && Evaluate(xs[k], c) == r && forall j | 0 <= j < k :: Evaluate(xs[j], c) == Ok(pass)
  }

  /** `and` is true exactly when all are; false, or in error, exactly when some operand is after only true ones. */
  lemma AndMeans(xs: seq<Expression>, c: Context)
    requires Fits(And(xs))
    ensures Evaluate(And(xs), c) == Ok(true) <==> forall k | 0 <= k < |xs| :: Evaluate(xs[k], c) == Ok(true)
    ensures Evaluate(And(xs), c) == Ok(false) <==> exists k: nat :: Settles(xs, c, true, k, Ok(false))
    ensures forall e :: Evaluate(And(xs), c) == Err(e) <==> exists k: nat :: Settles(xs, c, true, k, Err(e))
  {
    OperandsFit(xs);
    UntilMeans(xs, c, false, true);
  }

  /** `or` is false exactly when all are; true, or in error, exactly when some operand is after only false ones. */
  lemma OrMeans(xs: seq<Expression>, c: Context)
    requires Fits(Or(xs))
    ensures Evaluate(Or(xs), c) == Ok(false) <==> forall k | 0 <= k < |xs| :: Evaluate(xs[k], c) == Ok(false)
    ensures Evaluate(Or(xs), c) == Ok(true) <==> exists k: nat :: Settles(xs, c, false, k, Ok(true))
    ensures forall e :: Evaluate(Or(xs), c) == Err(e) <==> exists k: nat :: Settles(xs, c, false, k, Err(e))
  {
    OperandsFit(xs);
    UntilMeans(xs, c, true, false);
  }

  /** The loop passes over operands up to `k`, which settles it, or over all. */
  lemma {:induction false} UntilEnds(xs: seq<Expression>, c: Context, stop: bool) returns (k: nat)
    requires forall j | 0 <= j < |xs| :: Fits(xs[j])
    ensures k <= |xs| && forall j | 0 <= j < k :: Evaluate(xs[j], c) == Ok(!stop)
    ensures k == |xs| ==> EvaluateUntil(xs, c, stop) == Ok(!stop)
    ensures k < |xs| ==> EvaluateUntil(xs, c, stop) == Evaluate(xs[k], c) != Ok(!stop)
  {
    k := 0;
    if xs != [] && Evaluate(xs[0], c) == Ok(!stop) {
      k := UntilEnds(xs[1..], c, stop);
      k := k + 1;
      assert forall j | 0 < j < |xs| :: xs[j] == xs[1..][j - 1];
    }
  }

  lemma UntilMeans(xs: seq<Expression>, c: Context, stop: bool, pass: bool)
    requires pass == !stop && forall k | 0 <= k < |xs| :: Fits(xs[k])
    ensures var r := EvaluateUntil(xs, c, stop);
            && (r == Ok(pass) <==> forall k | 0 <= k < |xs| :: Evaluate(xs[k], c) == Ok(pass))
            && (r == Ok(stop) <==> exists k: nat :: Settles(xs, c, pass, k, Ok(stop)))
            && (forall e :: r == Err(e) <==> exists k: nat :: Settles(xs, c, pass, k, Err(e)))
  {
    var r := EvaluateUntil(xs, c, stop);
    var k := UntilEnds(xs, c, stop);
    if k < |xs| { assert Settles(xs, c, pass, k, r); }
    forall q: nat, s | Settles(xs, c, pass, q, s) && s != Ok(pass) ensures k < |xs| && s == r {
      assert q == k;
    }
  }

  // ---------------------------------------------------------------------------
  // Values
  // ---------------------------------------------------------------------------

  /** The scalar an operand stands for: a literal's own, what its path holds, or the boolean it evaluates to. */
  ghost predicate Stands(e: Expression, c: Context, v: Scalar) {
    match e
    case Literal(u) => v == u
    case Ref(path) => Resolve(c, path) == Leaf(v)
    case _ => v.Bool? && Evaluate(e, c) == Ok(v.b)
  }

  lemma ValueStands(e: Expression, c: Context)
    requires Fits(e)
    ensures forall v :: EvaluateValue(e, c) == Ok(v) <==> Stands(e, c, v)
    ensures e.Ref? && Resolve(c, e.path) == Undefined ==> EvaluateValue(e, c) == Err(UnknownReference(e.path))
    ensures e.Ref? && (Resolve(c, e.path).Object? || Resolve(c, e.path).Array?) ==>
              EvaluateValue(e, c) == Err(TypeMismatch(Eq))
    ensures !e.Literal? && !e.Ref? ==> forall x :: EvaluateValue(e, c) == Err(x) <==> Evaluate(e, c) == Err(x)
  {
  }

  /** Alone, a literal or a reference must be a boolean; `exists` asks for anything but nothing and null. */
  lemma LeavesMean(e: Expression, c: Context)
    ensures e.Literal? || e.Ref? ==> forall b :: Evaluate(e, c) == Ok(b) <==> Stands(e, c, Bool(b))
    ensures (e.Literal? || e.Ref?) && (exists v :: Stands(e, c, v) && !v.Bool?) ==> Evaluate(e, c) == Err(NotBoolean)
    ensures e.Ref? && Resolve(c, e.path) == Undefined ==> Evaluate(e, c) == Err(UnknownReference(e.path))
    ensures e.Exists? ==> Evaluate(e, c) == Ok(Resolve(c, e.path) !in {Undefined, Leaf(Null)})
  {
    if e.Literal? || e.Ref? || e.Exists? {
      assert Fits(e);
      ValueStands(e, c);
    }
  }

  /** Membership, in a value's own kind. */
  lemma InMeans(x: Expression, members: seq<Scalar>, c: Context, v: Scalar)
    requires Fits(In(x, members)) && Stands(x, c, v)
    ensures Evaluate(In(x, members), c) == Ok(exists k :: 0 <= k < |members| && members[k] == v)
  {
    ValueStands(x, c);
  }

  // ---------------------------------------------------------------------------
  // Comparisons
  // ---------------------------------------------------------------------------

  /** The left side is looked at first, and an operand in error decides. */
  lemma CompareFails(op: Operator, l: Expression, r: Expression, c: Context)
    requires Fits(Compare(op, l, r))
    ensures EvaluateValue(l, c).Err? ==> Evaluate(Compare(op, l, r), c) == Err(EvaluateValue(l, c).error)
    ensures EvaluateValue(l, c).Ok? && EvaluateValue(r, c).Err? ==>
              Evaluate(Compare(op, l, r), c) == Err(EvaluateValue(r, c).error)
  {
  }

  ghost predicate Compares(l: Expression, r: Expression, c: Context, a: Scalar, b: Scalar) {
    Stands(l, c, a) && Stands(r, c, b) && forall op :: Fits(Compare(op, l, r))
  }

  function Result(op: Operator, l: Expression, r: Expression, c: Context): Evaluation<bool> {
    Evaluate(Compare(op, l, r), c)
  }

  lemma Compared(l: Expression, r: Expression, c: Context, a: Scalar, b: Scalar, op: Operator)
    requires Compares(l, r, c, a, b)
    ensures Result(op, l, r, c) == CompareScalars(op, a, b)
  {
    assert Fits(Compare(op, l, r));
    ValueStands(l, c);
    ValueStands(r, c);
  }

  /** Equality is defined across all kinds, and `neq` is its opposite. */
  lemma EqualityMeans(l: Expression, r: Expression, c: Context, a: Scalar, b: Scalar)
    requires Compares(l, r, c, a, b)
    ensures Result(Eq, l, r, c) == Ok(a == b) && Result(Neq, l, r, c) == Ok(a != b)
  {
    Compared(l, r, c, a, b, Eq);
    Compared(l, r, c, a, b, Neq);
  }

  /** Numbers are ordered as the reals are. */
  lemma NumbersAreOrdered(l: Expression, r: Expression, c: Context, a: Scalar, b: Scalar)
    requires Compares(l, r, c, a, b) && a.Num? && b.Num?
    ensures Result(Lt, l, r, c) == Ok(a.n < b.n) && Result(Gt, l, r, c) == Ok(a.n > b.n)
    ensures Result(Lte, l, r, c) == Ok(a.n <= b.n) && Result(Gte, l, r, c) == Ok(a.n >= b.n)
  {
    Compared(l, r, c, a, b, Lt);
    Compared(l, r, c, a, b, Gt);
    Compared(l, r, c, a, b, Lte);
    Compared(l, r, c, a, b, Gte);
  }

  /**
   * Exactly one of less, equal and greater holds of two numbers or two strings; the other orderings and `neq` are
   * their opposites.
   */
  lemma OrderIsTotal(l: Expression, r: Expression, c: Context, a: Scalar, b: Scalar)
    requires Compares(l, r, c, a, b) && ((a.Num? && b.Num?) || (a.Str? && b.Str?))
    ensures forall op :: Result(op, l, r, c).Ok? || op in {Contains, StartsWith, EndsWith}
    ensures var lt, eq, gt := Result(Lt, l, r, c), Result(Eq, l, r, c), Result(Gt, l, r, c);
            && (lt == Ok(true) || eq == Ok(true) || gt == Ok(true))
            && !(lt == eq == Ok(true)) && !(lt == gt == Ok(true)) && !(eq == gt == Ok(true))
            && (Result(Gte, l, r, c) == Ok(true) <==> lt == Ok(false))
            && (Result(Lte, l, r, c) == Ok(true) <==> gt == Ok(false))
            && (Result(Neq, l, r, c) == Ok(true) <==> eq == Ok(false))
  {
    forall op ensures Result(op, l, r, c) == CompareScalars(op, a, b) { Compared(l, r, c, a, b, op); }
    if a.Str? { LexTotal(a.s, b.s); }
  }

  /** Strings are ordered by their first difference, a proper prefix before the longer string. */
  lemma StringsAreOrdered(l: Expression, r: Expression, c: Context, a: Scalar, b: Scalar)
    requires Compares(l, r, c, a, b) && a.Str? && b.Str?
    ensures Result(Lt, l, r, c) == Ok(exists i: nat :: LessAt(a.s, b.s, i))
    ensures Result(Gt, l, r, c) == Ok(exists i: nat :: LessAt(b.s, a.s, i))
  {
    Compared(l, r, c, a, b, Lt);
    Compared(l, r, c, a, b, Gt);
    LexMeans(a.s, b.s);
    LexMeans(b.s, a.s);
  }

  /** They agree up to `i`, where the first ends or has the smaller code unit. */
  predicate LessAt(s: string, t: string, i: nat) {
    i <= |s| && i < |t| && s[..i] == t[..i] && (i == |s| || s[i] < t[i])
  }

  lemma {:induction false} LexMeans(s: string, t: string)
    ensures LexLess(s, t) <==> exists i: nat :: LessAt(s, t, i)
  {
    if LexLess(s, t) { var i := WhereLess(s, t); }
    forall i: nat | LessAt(s, t, i) ensures LexLess(s, t) { LessIsLex(s, t, i); }
  }

  lemma {:induction false} WhereLess(s: string, t: string) returns (i: nat)
    requires LexLess(s, t)
    ensures LessAt(s, t, i)
  {
    i := 0;
    if s != "" && s[0] == t[0] {
      i := WhereLess(s[1..], t[1..]);
      i := i + 1;
      assert s[..i] == [s[0]] + s[1..][..i - 1] && t[..i] == [t[0]] + t[1..][..i - 1];
    }
  }

  lemma {:induction false} LessIsLex(s: string, t: string, i: nat)
    requires LessAt(s, t, i)
    ensures LexLess(s, t)
    decreases i
  {
    if i > 0 {
      assert s[0] == s[..i][0] == t[..i][0] == t[0];
      assert s[1..][..i - 1] == s[..i][1..] == t[..i][1..] == t[1..][..i - 1];
      LessIsLex(s[1..], t[1..], i - 1);
    }
  }

  lemma {:induction false} LexTotal(s: string, t: string)
    ensures LexLess(s, t) || s == t || LexLess(t, s)
    ensures !(LexLess(s, t) && LexLess(t, s)) && !LexLess(s, s)
  {
    if s != "" {
      LexTotal(s[1..], if t != "" then t[1..] else "");
      if t != "" && s[0] == t[0] { assert s == [s[0]] + s[1..] && t == [t[0]] + t[1..]; }
    }
  }

  /** An ordering across kinds, or of anything but numbers and strings, is an error and never a coercion. */
  lemma NoOrderAcrossKinds(op: Operator, l: Expression, r: Expression, c: Context, a: Scalar, b: Scalar)
    requires Compares(l, r, c, a, b)
    ensures op in {Lt, Lte, Gt, Gte} ==>
              (Result(op, l, r, c) == Err(TypeMismatch(op)) <==> !(a.Num? && b.Num?) && !(a.Str? && b.Str?))
    ensures op in {Contains, StartsWith, EndsWith} ==>
              (Result(op, l, r, c) == Err(TypeMismatch(op)) <==> !(a.Str? && b.Str?))
  {
    Compared(l, r, c, a, b, op);
  }

  /** The text operators: somewhere, at the start, at the end. */
  lemma TextMeans(l: Expression, r: Expression, c: Context, a: Scalar, b: Scalar)
    requires Compares(l, r, c, a, b) && a.Str? && b.Str?
    ensures Result(Contains, l, r, c) == Ok(exists before, after :: a.s == before + b.s + after)
    ensures Result(StartsWith, l, r, c) == Ok(exists after :: a.s == b.s + after)
    ensures Result(EndsWith, l, r, c) == Ok(exists before :: a.s == before + b.s)
  {
    Compared(l, r, c, a, b, Contains);
    Compared(l, r, c, a, b, StartsWith);
    Compared(l, r, c, a, b, EndsWith);
    IncludesMeans(a.s, b.s);
    if b.s <= a.s { assert a.s == b.s + a.s[|b.s|..]; }
    if |b.s| <= |a.s| && a.s[|a.s| - |b.s|..] == b.s { assert a.s == a.s[..|a.s| - |b.s|] + b.s; }
  }

  lemma {:induction false} IncludesMeans(s: string, t: string)
    ensures Includes(s, t) <==> exists before, after :: s == before + t + after
  {
    if Includes(s, t) {
      if s[..|t|] == t {
        assert s == "" + t + s[|t|..];
      } else {
        IncludesMeans(s[1..], t);
        var before, after :| s[1..] == before + t + after;
        assert s == [s[0]] + before + t + after;
      }
    }
    forall before: string, after: string | s == before + t + after ensures Includes(s, t) {
      FoundAfter(before, t, after);
    }
  }

  lemma {:induction false} FoundAfter(before: string, t: string, after: string)
    ensures Includes(before + t + after, t)
  {
    var s := before + t + after;
    if before == "" {
      assert s[..|t|] == t;
    } else {
      assert s[1..] == before[1..] + t + after;
      FoundAfter(before[1..], t, after);
    }
  }

  // ---------------------------------------------------------------------------
  // Paths
  // ---------------------------------------------------------------------------

  /** A path without dots names a field of the context; before a dot, it names the object the rest is looked up in. */
  lemma PathMeans(c: Context, key: string, rest: string)
    requires '.' !in key
    ensures Resolve(c, key) == if key in c then c[key] else Undefined
    ensures Resolve(c, key + "." + rest) == if key in c && c[key].Object? then Resolve(c[key].fields, rest)
            else Undefined
  {
    SplitPlain(key);
    SplitFirst(key, rest);
    var more := SplitDots(rest);
    assert ([key] + more)[0] == key && ([key] + more)[1..] == more;
    assert [key][1..] == [];
    var v := Field(Object(c), key);
    assert Resolve(c, key) == Follow(v, []) == v;
    assert Resolve(c, key + "." + rest) == Follow(v, more);
    if !v.Object? { FollowFrom(v, more); }
  }

  /** Nothing is found below a value that is not an object. */
  lemma FollowFrom(v: ContextValue, segments: seq<string>)
    requires !v.Object? && segments != []
    ensures Follow(v, segments) == Undefined
  {
    FollowUndefined(segments[1..]);
  }

  lemma {:induction false} SplitPlain(key: string)
    requires '.' !in key
    ensures SplitDots(key) == [key]
  {
    if key != "" {
      SplitPlain(key[1..]);
      assert [key[0]] + key[1..] == key;
    }
  }

  lemma {:induction false} SplitFirst(key: string, rest: string)
    requires '.' !in key
    ensures SplitDots(key + "." + rest) == [key] + SplitDots(rest)
  {
    var s := key + "." + rest;
    if key == "" {
      assert s[0] == '.' && s[1..] == rest;
    } else {
      assert s[0] == key[0] && s[1..] == key[1..] + "." + rest;
      SplitFirst(key[1..], rest);
      assert [key[0]] + key[1..] == key;
    }
  }
}
