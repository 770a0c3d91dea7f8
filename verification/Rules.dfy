/** Rule sets over the expression language: ordered evaluation that leaves a trace. */
module Rules {
  import opened Common
  import opened Expression

  datatype Mode = FirstMatch | AllMatches

  datatype ErrorPolicy = Skip | FailClosed | Fail

  datatype Rule<T> = Rule(id: string, priority: int, when: Expression, outcome: T, enabled: Option<bool>)

  datatype RuleSet<T> = RuleSet(id: string, version: int, mode: Mode, rules: seq<Rule<T>>,
                                onError: Option<ErrorPolicy>, fallback: Option<T>)

  datatype Status = Matched | NotMatched | SkippedDisabled | Errored(error: EvaluationError)

  datatype TraceEntry = TraceEntry(ruleId: string, status: Status)

  datatype RuleSetEvaluation<T> =
    | Evaluated(ruleSetId: string, version: int, outcomes: seq<T>, usedFallback: bool, degraded: bool,
      trace: seq<TraceEntry>)
    | Threw(ruleSetId: string, ruleId: string, error: EvaluationError)

  predicate Enabled<T>(r: Rule<T>) { r.enabled != Some(false) }

  function Policy<T>(s: RuleSet<T>): ErrorPolicy {
    if s.onError.Some? then s.onError.value else FailClosed
  }

  // ---------------------------------------------------------------------------
  // Ordering
  // ---------------------------------------------------------------------------

  /** `r` was declared before everything in `sorted`, so it goes in front of its ties. */
  function Insert<T>(r: Rule<T>, sorted: seq<Rule<T>>): seq<Rule<T>> {
    if sorted == [] || r.priority <= sorted[0].priority then [r] + sorted
    else [sorted[0]] + Insert(r, sorted[1..])
  }

  function OrderRules<T>(rules: seq<Rule<T>>): seq<Rule<T>> {
    if rules == [] then [] else Insert(rules[0], OrderRules(rules[1..]))
  }

  ghost predicate Sorted<T>(rules: seq<Rule<T>>) {
    forall i, j | 0 <= i < j < |rules| :: rules[i].priority <= rules[j].priority
  }

  /** The rules of one priority, in the order given. */
  function Tier<T>(rules: seq<Rule<T>>, p: int): seq<Rule<T>> {
    if rules == [] then [] else (if rules[0].priority == p then [rules[0]] else []) + Tier(rules[1..], p)
  }

  lemma {:induction false} InsertSorts<T>(r: Rule<T>, sorted: seq<Rule<T>>)
    requires Sorted(sorted)
    ensures Sorted(Insert(r, sorted)) && |Insert(r, sorted)| == |sorted| + 1
    ensures sorted != [] && r.priority > sorted[0].priority ==> Insert(r, sorted)[0] == sorted[0]
  {
    if sorted != [] && r.priority > sorted[0].priority {
      InsertSorts(r, sorted[1..]);
      var tail := Insert(r, sorted[1..]);
      assert tail[0].priority >= sorted[0].priority;
    }
  }

  lemma {:induction false} InsertIntoTier<T>(r: Rule<T>, sorted: seq<Rule<T>>, p: int)
    ensures Tier(Insert(r, sorted), p) == (if r.priority == p then [r] else []) + Tier(sorted, p)
  {
    var after := Insert(r, sorted);
    if sorted == [] || r.priority <= sorted[0].priority {
      assert after[0] == r && after[1..] == sorted;
    } else {
      InsertIntoTier(r, sorted[1..], p);
      assert after[0] == sorted[0] && after[1..] == Insert(r, sorted[1..]);
      assert [] + Tier(sorted[1..], p) == Tier(sorted[1..], p);
    }
  }

  /** Ordering is total and stable: priorities ascend and ties keep their declaration order. */
  lemma {:induction false} OrderIsStable<T>(rules: seq<Rule<T>>, p: int)
    ensures Sorted(OrderRules(rules)) && |OrderRules(rules)| == |rules|
    ensures Tier(OrderRules(rules), p) == Tier(rules, p)
  {
    if rules != [] {
      OrderIsStable(rules[1..], p);
      InsertSorts(rules[0], OrderRules(rules[1..]));
      InsertIntoTier(rules[0], OrderRules(rules[1..]), p);
    }
  }

  function OnlyEnabled<T>(rules: seq<Rule<T>>): seq<Rule<T>> {
    if rules == [] then [] else (if Enabled(rules[0]) then [rules[0]] else []) + OnlyEnabled(rules[1..])
  }

  lemma {:induction false} FirstEnabledIsLater<T>(sorted: seq<Rule<T>>)
    requires Sorted(sorted) && OnlyEnabled(sorted) != []
    ensures sorted != [] && sorted[0].priority <= OnlyEnabled(sorted)[0].priority
  {
    if !Enabled(sorted[0]) { FirstEnabledIsLater(sorted[1..]); }
  }

  lemma {:induction false} InsertFiltered<T>(r: Rule<T>, sorted: seq<Rule<T>>)
    requires Sorted(sorted)
    ensures OnlyEnabled(Insert(r, sorted)) == if Enabled(r) then Insert(r, OnlyEnabled(sorted)) else OnlyEnabled(sorted)
  {
    var after := Insert(r, sorted);
    if sorted == [] || r.priority <= sorted[0].priority {
      assert after[0] == r && after[1..] == sorted;
      if OnlyEnabled(sorted) != [] { FirstEnabledIsLater(sorted); }
    } else {
      InsertFiltered(r, sorted[1..]);
      assert after[0] == sorted[0] && after[1..] == Insert(r, sorted[1..]);
      if Enabled(sorted[0]) {
        assert OnlyEnabled(sorted)[1..] == OnlyEnabled(sorted[1..]);
      } else {
        assert OnlyEnabled(sorted) == OnlyEnabled(sorted[1..]);
        assert OnlyEnabled(after) == OnlyEnabled(after[1..]);
      }
    }
  }

  /** Deleting disabled rules commutes with ordering. */
  lemma {:induction false} OrderFiltered<T>(rules: seq<Rule<T>>)
    ensures OrderRules(OnlyEnabled(rules)) == OnlyEnabled(OrderRules(rules))
  {
    if rules != [] {
      OrderFiltered(rules[1..]);
      OrderIsStable(rules[1..], 0);
      InsertFiltered(rules[0], OrderRules(rules[1..]));
      if Enabled(rules[0]) {
        assert OnlyEnabled(rules)[1..] == OnlyEnabled(rules[1..]);
      } else {
        assert OnlyEnabled(rules) == OnlyEnabled(rules[1..]);
      }
    }
  }

  // ---------------------------------------------------------------------------
  // Evaluation
  // ---------------------------------------------------------------------------

  /** What the loop has gathered; `thrown` names the rule whose error ended it under `Fail`. */
  datatype Scan<T> = Scan(outcomes: seq<T>, trace: seq<TraceEntry>, degraded: bool,
    thrown: Option<(string, EvaluationError)>) {
    function Then(next: Scan<T>): Scan<T> {
      Scan(outcomes + next.outcomes, trace + next.trace, degraded || next.degraded, next.thrown)
    }
  }

  function Nothing<T>(): Scan<T> { Scan([], [], false, None) }

  function StatusOf<T>(r: Rule<T>, c: Context): Status {
    if !Enabled(r) then SkippedDisabled
    else match Evaluate(r.when, c)
         case Err(e) => Errored(e)
         case Ok(b) => if b then Matched else NotMatched
  }

  /** One turn of the loop. */
  function Consider<T>(r: Rule<T>, policy: ErrorPolicy, c: Context): Scan<T> {
    var s := StatusOf(r, c);
    Scan(if s.Matched? then [r.outcome] else [], [TraceEntry(r.id, s)], s.Errored? && policy == FailClosed,
         if s.Errored? && policy == Fail then Some((r.id, s.error)) else None)
  }

  predicate Stops<T>(r: Rule<T>, mode: Mode, policy: ErrorPolicy, c: Context) {
    var s := StatusOf(r, c);
    (s.Matched? && mode == FirstMatch) || (s.Errored? && policy == Fail)
  }

  function ScanRules<T>(rules: seq<Rule<T>>, mode: Mode, policy: ErrorPolicy, c: Context): Scan<T> {
    if rules == [] then Nothing()
    else if Stops(rules[0], mode, policy, c) then Consider(rules[0], policy, c)
    else Consider(rules[0], policy, c).Then(ScanRules(rules[1..], mode, policy, c))
  }

  function Conclude<T>(s: RuleSet<T>, scan: Scan<T>): RuleSetEvaluation<T> {
    if scan.thrown.Some? then Threw(s.id, scan.thrown.value.0, scan.thrown.value.1)
    else
      var usedFallback := scan.outcomes == [] && s.fallback.Some?;
      Evaluated(s.id, s.version, if usedFallback then [s.fallback.value] else scan.outcomes, usedFallback,
        scan.degraded, scan.trace)
  }

  function EvaluateSpec<T>(s: RuleSet<T>, c: Context): RuleSetEvaluation<T> {
    Conclude(s, ScanRules(OrderRules(s.rules), s.mode, Policy(s), c))
  }

  /** One turn of the loop, on the accumulators. */
  method Turn<T>(rule: Rule<T>, policy: ErrorPolicy, mode: Mode, c: Context, soFar: Scan<T>)
      returns (s: Scan<T>, stop: bool)
    ensures s == soFar.Then(Consider(rule, policy, c)) && stop == Stops(rule, mode, policy, c)
  {
    stop := false;
    s := soFar.(thrown := None);
    if rule.enabled == Some(false) {
      s := s.(trace := s.trace + [TraceEntry(rule.id, SkippedDisabled)]);
    } else {
      var result := Evaluate(rule.when, c);
      if result.Err? {
        s := s.(trace := s.trace + [TraceEntry(rule.id, Errored(result.error))]);
        if policy == Fail {
          s := s.(thrown := Some((rule.id, result.error)));
          stop := true;
        }
        if policy == FailClosed {
          s := s.(degraded := true);
        }
      } else if !result.value {
        s := s.(trace := s.trace + [TraceEntry(rule.id, NotMatched)]);
      } else {
        s := s.(trace := s.trace + [TraceEntry(rule.id, Matched)], outcomes := s.outcomes + [rule.outcome]);
        stop := mode == FirstMatch;
      }
    }
  }

  method EvaluateRuleSet<T>(s: RuleSet<T>, c: Context) returns (r: RuleSetEvaluation<T>)
    ensures r == EvaluateSpec(s, c)
  {
    var policy := if s.onError.Some? then s.onError.value else FailClosed;
    var rules := OrderRules(s.rules);
    var scan := Nothing<T>();
    var i, stop := 0, false;
    while i < |rules| && !stop
      invariant 0 <= i <= |rules| && (!stop ==> scan.thrown.None?)
      invariant ScanRules(rules, s.mode, policy, c) == if stop then scan
                else scan.Then(ScanRules(rules[i..], s.mode, policy, c))
    {
      ghost var before := scan;
      assert rules[i..][0] == rules[i] && rules[i..][1..] == rules[i + 1..];
      scan, stop := Turn(rules[i], policy, s.mode, c, scan);
      ThenAssociates(before, Consider(rules[i], policy, c), ScanRules(rules[i + 1..], s.mode, policy, c));
      i := i + 1;
    }
    assert !stop ==> scan.Then(Nothing()) == scan;
    return Conclude(s, scan);
  }

  lemma ThenAssociates<T>(a: Scan<T>, b: Scan<T>, c: Scan<T>)
    ensures a.Then(b).Then(c) == a.Then(b.Then(c))
  {
    assert a.outcomes + b.outcomes + c.outcomes == a.outcomes + (b.outcomes + c.outcomes);
    assert a.trace + b.trace + c.trace == a.trace + (b.trace + c.trace);
  }

  // ---------------------------------------------------------------------------
  // What a trace says
  // ---------------------------------------------------------------------------

  /** The outcomes of the rules whose trace entry, at the same position, is a match. */
  function MatchedOutcomes<T>(rules: seq<Rule<T>>, trace: seq<TraceEntry>): seq<T>
    requires |trace| <= |rules|
  {
    if trace == [] then []
    else (if trace[0].status.Matched? then [rules[0].outcome] else []) + MatchedOutcomes(rules[1..], trace[1..])
  }

  predicate Clean(trace: seq<TraceEntry>) {
    forall k | 0 <= k < |trace| :: !trace[k].status.Errored?
  }

  /** The trace of a scan is the entry of its first rule, then the trace of the rest unless it stopped. */
  lemma TraceHead<T>(rules: seq<Rule<T>>, mode: Mode, policy: ErrorPolicy, c: Context)
    requires rules != []
    ensures var trace := ScanRules(rules, mode, policy, c).trace;
            var rest := if Stops(rules[0], mode, policy, c) then [] else ScanRules(rules[1..], mode, policy, c).trace;
            && trace != [] && trace[0] == TraceEntry(rules[0].id, StatusOf(rules[0], c)) && trace[1..] == rest
            && (Clean(trace) <==> !trace[0].status.Errored? && Clean(rest))
  {
    var trace := ScanRules(rules, mode, policy, c).trace;
    assert trace[0] == Consider(rules[0], policy, c).trace[0];
    assert forall k | 0 <= k < |trace| - 1 :: trace[1..][k] == trace[k + 1];
    assert forall k | 0 < k < |trace| :: trace[k] == trace[1..][k - 1];
  }

  /**
   * The trace explains the result: its entries are the first rules in order, the outcomes are exactly
   * those of its matches in order, the evaluation is degraded exactly when an error is recorded under
   * `FailClosed`, and it throws exactly when one is recorded under `Fail`.
   */
  lemma {:induction false} TraceExplains<T>(rules: seq<Rule<T>>, mode: Mode, policy: ErrorPolicy, c: Context)
    ensures var s := ScanRules(rules, mode, policy, c);
            && |s.trace| <= |rules|
            && (forall k | 0 <= k < |s.trace| :: s.trace[k] == TraceEntry(rules[k].id, StatusOf(rules[k], c)))
            && s.outcomes == MatchedOutcomes(rules, s.trace)
            && (s.degraded <==> policy == FailClosed && !Clean(s.trace))
            && (s.thrown.Some? <==> policy == Fail && !Clean(s.trace))
  {
    if rules != [] {
      TraceHead(rules, mode, policy, c);
      if !Stops(rules[0], mode, policy, c) {
        TraceExplains(rules[1..], mode, policy, c);
        var trace := ScanRules(rules, mode, policy, c).trace;
        assert forall k | 0 < k < |trace| :: trace[k] == trace[1..][k - 1] && rules[k] == rules[1..][k - 1];
      }
    }
  }

  /** In `FirstMatch` mode the trace ends at the first match and holds no other; without one it covers every rule. */
  lemma {:induction false} FirstMatchEndsTheTrace<T>(rules: seq<Rule<T>>, policy: ErrorPolicy, c: Context)
    ensures var s := ScanRules(rules, FirstMatch, policy, c);
            && (forall k | 0 <= k < |s.trace| && s.trace[k].status.Matched? :: k == |s.trace| - 1)
            && (s.outcomes == [] && s.thrown.None? ==> |s.trace| == |rules|)
            && |s.outcomes| <= 1
  {
    if rules != [] && !Stops(rules[0], FirstMatch, policy, c) {
      FirstMatchEndsTheTrace(rules[1..], policy, c);
      var s, rest := ScanRules(rules, FirstMatch, policy, c), ScanRules(rules[1..], FirstMatch, policy, c);
      assert forall k | 0 < k < |s.trace| :: s.trace[k] == rest.trace[k - 1];
    }
  }

  /** Rules behind the one that ended a scan can be changed freely. */
  lemma {:induction false} RulesBehindTheMatchDoNotMatter<T>(rules: seq<Rule<T>>, policy: ErrorPolicy, c: Context,
      others: seq<Rule<T>>)
    requires ScanRules(rules, FirstMatch, policy, c).outcomes != []
    ensures var s := ScanRules(rules, FirstMatch, policy, c);
            && |s.trace| <= |rules|
            && ScanRules(rules[..|s.trace|] + others, FirstMatch, policy, c) == s
  {
    var s := ScanRules(rules, FirstMatch, policy, c);
    TraceExplains(rules, FirstMatch, policy, c);
    var changed := rules[..|s.trace|] + others;
    assert changed[0] == rules[0];
    if !Stops(rules[0], FirstMatch, policy, c) {
      var rest := ScanRules(rules[1..], FirstMatch, policy, c);
      RulesBehindTheMatchDoNotMatter(rules[1..], policy, c, others);
      assert changed[1..] == rules[1..][..|rest.trace|] + others;
    }
  }

  function WithoutSkipped(trace: seq<TraceEntry>): seq<TraceEntry> {
    if trace == [] then []
    else (if trace[0].status.SkippedDisabled? then [] else [trace[0]]) + WithoutSkipped(trace[1..])
  }

  lemma {:induction false} ScanFiltered<T>(rules: seq<Rule<T>>, mode: Mode, policy: ErrorPolicy, c: Context)
    ensures var all, kept := ScanRules(rules, mode, policy, c), ScanRules(OnlyEnabled(rules), mode, policy, c);
            && kept.outcomes == all.outcomes && kept.degraded == all.degraded && kept.thrown == all.thrown
            && kept.trace == WithoutSkipped(all.trace)
  {
    if rules != [] {
      ScanFiltered(rules[1..], mode, policy, c);
      TraceHead(rules, mode, policy, c);
      if Enabled(rules[0]) {
        assert OnlyEnabled(rules)[0] == rules[0] && OnlyEnabled(rules)[1..] == OnlyEnabled(rules[1..]);
        TraceHead(OnlyEnabled(rules), mode, policy, c);
      } else {
        assert OnlyEnabled(rules) == OnlyEnabled(rules[1..]);
      }
    }
  }

  /** Deleting the disabled rules of a set changes nothing but their own entries in the trace. */
  lemma DisabledRulesCanBeDeleted<T>(s: RuleSet<T>, c: Context)
    ensures var all, kept := EvaluateSpec(s, c), EvaluateSpec(s.(rules := OnlyEnabled(s.rules)), c);
            if all.Threw? then kept == all
            else kept == all.(trace := WithoutSkipped(all.trace))
  {
    OrderFiltered(s.rules);
    ScanFiltered(OrderRules(s.rules), s.mode, Policy(s), c);
  }

  predicate AllExistsFree<T>(rules: seq<Rule<T>>) {
    forall k | 0 <= k < |rules| :: Enabled(rules[k]) ==> ExistsFree(rules[k].when)
  }

  lemma {:induction false} ScanIsStable<T>(rules: seq<Rule<T>>, mode: Mode, policy: ErrorPolicy, c: Context, d: Context)
    requires AllExistsFree(rules) && Keeps(c, d) && Clean(ScanRules(rules, mode, policy, c).trace)
    ensures ScanRules(rules, mode, policy, d) == ScanRules(rules, mode, policy, c)
  {
    if rules != [] {
      TraceHead(rules, mode, policy, c);
      StatusIsStable(rules[0], c, d);
      if !Stops(rules[0], mode, policy, c) { ScanIsStable(rules[1..], mode, policy, c, d); }
    }
  }

  lemma StatusIsStable<T>(r: Rule<T>, c: Context, d: Context)
    requires (Enabled(r) ==> ExistsFree(r.when)) && Keeps(c, d) && !StatusOf(r, c).Errored?
    ensures StatusOf(r, d) == StatusOf(r, c)
  {
    if Enabled(r) { EvaluationIsStable(r.when, c, d); }
  }

  lemma {:induction false} OrderKeepsRules<T>(rules: seq<Rule<T>>)
    ensures forall x | x in OrderRules(rules) :: x in rules
  {
    if rules != [] {
      OrderKeepsRules(rules[1..]);
      InsertAdds(rules[0], OrderRules(rules[1..]));
    }
  }

  lemma {:induction false} InsertAdds<T>(r: Rule<T>, sorted: seq<Rule<T>>)
    ensures forall x | x in Insert(r, sorted) :: x == r || x in sorted
  {
    if sorted != [] && r.priority > sorted[0].priority { InsertAdds(r, sorted[1..]); }
  }

  /**
   * A set of `exists`-free rules that evaluates without degrading (or throwing, or under `Skip` without
   * an error in its trace) evaluates to the very same result, trace included, in every extended context.
   */
  lemma RuleSetIsStable<T>(s: RuleSet<T>, c: Context, d: Context)
    requires AllExistsFree(s.rules) && Keeps(c, d)
    requires var r := EvaluateSpec(s, c);
             r.Evaluated? && !r.degraded && (Policy(s) == Skip ==> Clean(r.trace))
    ensures EvaluateSpec(s, d) == EvaluateSpec(s, c)
  {
    var rules := OrderRules(s.rules);
    OrderKeepsRules(s.rules);
    assert forall k | 0 <= k < |rules| :: rules[k] in rules;
    TraceExplains(rules, s.mode, Policy(s), c);
    ScanIsStable(rules, s.mode, Policy(s), c, d);
  }
}
