/** What a rule set's evaluation means, rule by rule: what its trace records, and what follows from the trace. */
module RuleSetLaws {
  import opened Common
  import opened Expression
  import opened Rules

  /** The status a rule is given, by what its condition evaluates to. */
  predicate Fitting<T>(r: Rule<T>, c: Context, s: Status) {
    match s
    case SkippedDisabled => r.enabled == Some(false)
    case Matched => r.enabled != Some(false) && Evaluate(r.when, c) == Ok(true)
    case NotMatched => r.enabled != Some(false) && Evaluate(r.when, c) == Ok(false)
    case Errored(e) => r.enabled != Some(false) && Evaluate(r.when, c) == Err(e)
  }

  /** The trace begins with the first rules in evaluation order, each under its own id with the status that fits it. */
  ghost predicate Traces<T>(rules: seq<Rule<T>>, c: Context, trace: seq<TraceEntry>) {
    |trace| <= |rules| && forall k | 0 <= k < |trace| ::
      trace[k].ruleId == rules[k].id && Fitting(rules[k], c, trace[k].status)
  }

  predicate HasMatch(trace: seq<TraceEntry>) { exists k :: 0 <= k < |trace| && trace[k].status == Matched }

  lemma ScanTraces<T>(rules: seq<Rule<T>>, mode: Mode, policy: ErrorPolicy, c: Context)
    ensures Traces(rules, c, ScanRules(rules, mode, policy, c).trace)
  {
    TraceExplains(rules, mode, policy, c);
  }

  /** The outcomes gathered are none exactly when the trace holds no match. */
  lemma {:induction false} MatchedAreMatches<T>(rules: seq<Rule<T>>, trace: seq<TraceEntry>)
    requires |trace| <= |rules|
    ensures MatchedOutcomes(rules, trace) == [] <==> !HasMatch(trace)
    ensures forall k | 0 <= k < |trace| && trace[k].status == Matched ::
            rules[k].outcome in MatchedOutcomes(rules, trace)
  {
    if trace != [] {
      MatchedAreMatches(rules[1..], trace[1..]);
      assert forall k | 0 < k < |trace| :: trace[k] == trace[1..][k - 1] && rules[k] == rules[1..][k - 1];
      if HasMatch(trace[1..]) {
        var k :| 0 <= k < |trace| - 1 && trace[1..][k].status == Matched;
        assert trace[k + 1].status == Matched;
      }
    }
  }

  /** A scan without an early end covers every rule. */
  lemma {:induction false} ScanCovers<T>(rules: seq<Rule<T>>, mode: Mode, policy: ErrorPolicy, c: Context)
    ensures var s := ScanRules(rules, mode, policy, c);
            s.thrown.None? && (mode == AllMatches || !HasMatch(s.trace)) ==> |s.trace| == |rules|
  {
    if rules != [] {
      TraceHead(rules, mode, policy, c);
      var s := ScanRules(rules, mode, policy, c);
      if Stops(rules[0], mode, policy, c) {
        assert s.trace[0].status == StatusOf(rules[0], c);
      } else {
        ScanCovers(rules[1..], mode, policy, c);
        var rest := ScanRules(rules[1..], mode, policy, c);
        if HasMatch(rest.trace) {
          var k :| 0 <= k < |rest.trace| && rest.trace[k].status == Matched;
          assert s.trace[k + 1] == rest.trace[k];
        }
      }
    }
  }

  /** The rule at `k`, enabled, is in error, and nothing before it ended the scan. */
  ghost predicate ThrowsAt<T>(rules: seq<Rule<T>>, mode: Mode, c: Context, k: nat, id: string, e: EvaluationError) {
    && k < |rules| && rules[k].id == id && Fitting(rules[k], c, Errored(e))
    && forall j | 0 <= j < k && rules[j].enabled != Some(false) ::
         Evaluate(rules[j].when, c) == Ok(false) || (mode == AllMatches && Evaluate(rules[j].when, c) == Ok(true))
  }

  lemma {:induction false} ThrownAt<T>(rules: seq<Rule<T>>, mode: Mode, c: Context) returns (k: nat)
    requires ScanRules(rules, mode, Fail, c).thrown.Some?
    ensures var (id, e) := ScanRules(rules, mode, Fail, c).thrown.value; ThrowsAt(rules, mode, c, k, id, e)
  {
    k := 0;
    if !Stops(rules[0], mode, Fail, c) {
      k := ThrownAt(rules[1..], mode, c);
      assert forall j | 0 < j < |rules| :: rules[j] == rules[1..][j - 1];
      k := k + 1;
    }
  }

  /** What an evaluation that returns says, in terms of its own trace. */
  ghost predicate Concluded<T>(s: RuleSet<T>, c: Context, r: RuleSetEvaluation<T>)
    requires r.Evaluated?
  {
    var rules := OrderRules(s.rules);
    && r.ruleSetId == s.id && r.version == s.version && Traces(rules, c, r.trace)
    && (s.mode == AllMatches || !HasMatch(r.trace) ==> |r.trace| == |rules|)
    && (s.mode == FirstMatch && HasMatch(r.trace) ==>
          r.trace[|r.trace| - 1].status == Matched && r.outcomes == [rules[|r.trace| - 1].outcome])
    && (HasMatch(r.trace) ==> r.outcomes == MatchedOutcomes(rules, r.trace) && !r.usedFallback)
    && (!HasMatch(r.trace) && s.fallback.Some? ==> r.outcomes == [s.fallback.value] && r.usedFallback)
    && (!HasMatch(r.trace) && s.fallback.None? ==> r.outcomes == [] && !r.usedFallback)
    && (r.degraded <==> (s.onError.None? || s.onError == Some(FailClosed)) && !Clean(r.trace))
    && (s.onError == Some(Fail) ==> Clean(r.trace))
  }

  /**
   * The fallback is used exactly when no rule matched; the result is degraded exactly when an error was recorded
   * and the policy is to fail closed, which it is by default; and an error is thrown only under `Fail`, for the
   * first enabled rule in error that the evaluation comes to.
   */
  lemma RuleSetMeans<T>(s: RuleSet<T>, c: Context)
    ensures var r := EvaluateSpec(s, c);
            if r.Evaluated? then Concluded(s, c, r)
            else && r.ruleSetId == s.id && s.onError == Some(Fail)
                 && exists k: nat :: ThrowsAt(OrderRules(s.rules), s.mode, c, k, r.ruleId, r.error)
  {
    var rules := OrderRules(s.rules);
    var scan := ScanRules(rules, s.mode, Policy(s), c);
    if scan.thrown.Some? {
      TraceExplains(rules, s.mode, Policy(s), c);
      var k := ThrownAt(rules, s.mode, c);
    } else {
      ScanIs(rules, s.mode, Policy(s), c, scan);
      ScanConcludes(s, c, scan);
    }
  }

  /** What the results below need of a scan that did not throw. */
  ghost predicate Explained<T>(rules: seq<Rule<T>>, mode: Mode, policy: ErrorPolicy, c: Context, s: Scan<T>) {
    && Traces(rules, c, s.trace) && s.outcomes == MatchedOutcomes(rules, s.trace)
    && (s.degraded <==> policy == FailClosed && !Clean(s.trace)) && (policy == Fail ==> Clean(s.trace))
    && (mode == AllMatches || !HasMatch(s.trace) ==> |s.trace| == |rules|)
    && (mode == FirstMatch && HasMatch(s.trace) ==>
          s.trace[|s.trace| - 1].status == Matched && s.outcomes == [rules[|s.trace| - 1].outcome])
  }

  lemma ScanIs<T>(rules: seq<Rule<T>>, mode: Mode, policy: ErrorPolicy, c: Context, scan: Scan<T>)
    requires scan == ScanRules(rules, mode, policy, c) && scan.thrown.None?
    ensures Explained(rules, mode, policy, c, scan)
  {
    ScanFacts(rules, mode, policy, c, scan);
    ScanCovers(rules, mode, policy, c);
    if mode == FirstMatch && HasMatch(scan.trace) { OneMatch(rules, policy, c, scan); }
  }

  lemma ScanFacts<T>(rules: seq<Rule<T>>, mode: Mode, policy: ErrorPolicy, c: Context, scan: Scan<T>)
    requires scan == ScanRules(rules, mode, policy, c) && scan.thrown.None?
    ensures Traces(rules, c, scan.trace) && scan.outcomes == MatchedOutcomes(rules, scan.trace)
    ensures (scan.degraded <==> policy == FailClosed && !Clean(scan.trace)) && (policy == Fail ==> Clean(scan.trace))
  {
    TraceExplains(rules, mode, policy, c);
    ScanTraces(rules, mode, policy, c);
  }

  lemma ScanConcludes<T>(s: RuleSet<T>, c: Context, scan: Scan<T>)
    requires scan.thrown.None? && Explained(OrderRules(s.rules), s.mode, Policy(s), c, scan)
    ensures Conclude(s, scan).Evaluated? && Concluded(s, c, Conclude(s, scan))
  {
    MatchedAreMatches(OrderRules(s.rules), scan.trace);
  }

  /** The one outcome of a first match is that of the last rule traced. */
  lemma OneMatch<T>(rules: seq<Rule<T>>, policy: ErrorPolicy, c: Context, scan: Scan<T>)
    requires scan == ScanRules(rules, FirstMatch, policy, c) && HasMatch(scan.trace) && |scan.trace| <= |rules|
    requires scan.outcomes == MatchedOutcomes(rules, scan.trace)
    ensures scan.trace[|scan.trace| - 1].status == Matched && scan.outcomes == [rules[|scan.trace| - 1].outcome]
  {
    FirstMatchEndsTheTrace(rules, policy, c);
    var k :| 0 <= k < |scan.trace| && scan.trace[k].status == Matched;
    assert scan.trace[k].status.Matched?;
    LastMatch(rules, scan.trace);
  }

  lemma {:induction false} LastMatch<T>(rules: seq<Rule<T>>, trace: seq<TraceEntry>)
    requires 0 < |trace| <= |rules| && trace[|trace| - 1].status == Matched
    requires forall k | 0 <= k < |trace| - 1 :: trace[k].status != Matched
    ensures MatchedOutcomes(rules, trace) == [rules[|trace| - 1].outcome]
  {
    if |trace| > 1 {
      assert forall k | 0 < k < |trace| :: trace[k] == trace[1..][k - 1] && rules[k] == rules[1..][k - 1];
      LastMatch(rules[1..], trace[1..]);
    } else {
      assert trace[1..] == [];
    }
  }
}
