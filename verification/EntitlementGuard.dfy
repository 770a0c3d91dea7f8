/**
 * `EntitlementGuard` itself: one call from cache read to cache write, tied to the steps of the machine; and
 * the batched form, which evaluates one request per key.
 */
module EntitlementGuard {
  import opened Common
  import opened Text
  import opened Quota
  import opened DecisionId
  import opened Guard

  /** How the systems around one evaluation behave. */
  datatype Ports = Ports(pick: Option<nat>, answers: Answers, audit: Reply, cache: Reply)

  /** The machine's steps for one evaluation with nothing in between; a step that does not apply changes nothing. */
  function Alone(o: Options, w: World, x: nat, r: Request, simulated: bool, p: Ports): World {
    Step(o, Step(o, Step(o, Step(o, Step(o, w, Begin(x, r, simulated)), ReadCache(x, p.pick)), Answer(x, p.answers)),
      Record(x, p.audit)), WriteCache(x, p.cache))
  }

  /** The same, as one new state. */
  function Evaluated(o: Options, w: World, r: Request, simulated: bool, p: Ports): World {
    var e, d := |w.evals|, Stamp(r, Decide(o, r, p.answers));
    if Hit(o, w, r, p) then w.(results := w.results
        + [Outcome(r, w.entries[p.pick.value].decision, true, simulated, w.entries[p.pick.value].eval)])
    else if simulated then w.(evals := w.evals + [Eval(r, p.answers, true)],
        results := w.results + [Outcome(r, d, false, true, e)])
    else
      var d' := Recorded(o, r, d, p);
      w.(evals := w.evals + [Eval(r, p.answers, false)],
         audits := w.audits + if !o.auditPort || p.audit.Refused? then [] else [Audit(e, d.allowed)],
         entries := w.entries + if !Memoizable(o, r, d') || p.cache.Refused? then [] else [Entry(e, d')],
         results := w.results + [Outcome(r, d', false, false, e)])
  }

  predicate Hit(o: Options, w: World, r: Request, p: Ports) {
    o.cachePort && r.resource.None? && p.pick.Some? && Offers(w, r, p.pick.value)
  }

  function Recorded(o: Options, r: Request, d: Decision, p: Ports): Decision {
    if o.auditPort && !p.audit.Done? then AuditFailure(r) else d
  }

  predicate Memoizable(o: Options, r: Request, d: Decision) {
    o.cachePort && r.resource.None? && d.source != "guard_error" && d.source != "audit_failure"
  }

  lemma AloneIsEvaluated(o: Options, w: World, x: nat, r: Request, simulated: bool, p: Ports)
    requires w.work == map[]
    ensures Alone(o, w, x, r, simulated, p) == Evaluated(o, w, r, simulated, p)
  {
    var w1 := Step(o, w, Begin(x, r, simulated));
    var w2 := Step(o, w1, ReadCache(x, p.pick));
    assert w1.work - {x} == map[];
    if !Hit(o, w, r, p) {
      assert w2.work - {x} == map[] && w2.work[x] == Work(r, simulated, Deciding);
      AloneDeciding(o, w, w2, x, r, simulated, p);
    }
  }

  /**
   * One evaluation the cache has nothing for, from request to result: it allows exactly when the decision point
   * allows, a policy that applies lets the request through, no quota it is metered against is used up, and the
   * decision of a real evaluation could be recorded.
   */
  lemma UncachedMeans(o: Options, w: World, x: nat, r: Request, simulated: bool, p: Ports)
    requires w.work == map[] && p.pick.None?
    ensures var w', a := Alone(o, w, x, r, simulated, p), p.answers;
            && |w'.results| == |w.results| + 1 && w'.results[|w.results|].request == r && !w'.results[|w.results|].hit
            && (w'.results[|w.results|].decision.allowed <==>
                  && a.check.Some? && a.check.value.allowed
                  && (exists q :: Applies(o, a, q) && LetsThrough(q, r))
                  && (o.quotaPort && r.resource.Some? ==>
                        a.quota.Some? && a.quota.value.state in {Within, Warning, SoftExceeded})
                  && (simulated || !o.auditPort || p.audit == Done))
  {
    AloneIsEvaluated(o, w, x, r, simulated, p);
    AllowedTable(o, r, p.answers);
    StampMeans(r, Decide(o, r, p.answers));
  }

  /**
   * An unmetered request for which the cache has an entry under its key gets that entry's decision, and leaves no
   * other trace.
   */
  lemma CachedMeans(o: Options, w: World, x: nat, r: Request, simulated: bool, p: Ports, n: nat)
    requires w.work == map[] && o.cachePort && r.resource.None? && p.pick == Some(n) && Offers(w, r, n)
    ensures var w' := Alone(o, w, x, r, simulated, p);
            && w' == w.(results := w'.results) && |w'.results| == |w.results| + 1
            && w'.results[|w.results|] == Outcome(r, w.entries[n].decision, true, simulated, w.entries[n].eval)
  {
    AloneIsEvaluated(o, w, x, r, simulated, p);
  }

  lemma AloneDeciding(o: Options, w: World, w2: World, x: nat, r: Request, simulated: bool, p: Ports)
    requires w.work == map[] && w2 == w.(work := w2.work) && x in w2.work
             && w2.work[x] == Work(r, simulated, Deciding) && w2.work - {x} == map[]
    requires !Hit(o, w, r, p)
    ensures Step(o, Step(o, Step(o, w2, Answer(x, p.answers)), Record(x, p.audit)), WriteCache(x, p.cache))
            == Evaluated(o, w, r, simulated, p)
  {
    var e, d := |w.evals|, Stamp(r, Decide(o, r, p.answers));
    var w3 := Step(o, w2, Answer(x, p.answers));
    var evals := w.evals + [Eval(r, p.answers, simulated)];
    if simulated {
      assert w3 == w.(evals := evals, results := w.results + [Outcome(r, d, false, true, e)]);
    } else {
      var k := Work(r, false, Auditing(e, d));
      var w4 := Step(o, w3, Record(x, p.audit));
      var d' := Recorded(o, r, d, p);
      var audits := w.audits + if !o.auditPort || p.audit.Refused? then [] else [Audit(e, d.allowed)];
      if o.auditPort { assert w3 == w.(evals := evals, work := w2.work[x := k]); }
      if Memoizable(o, r, d') {
        assert x in w4.work && w4.work[x] == Work(r, false, Caching(e, d')) && w4.work - {x} == map[];
        assert w4 == w.(evals := evals, audits := audits, work := w4.work);
      } else {
        assert w4 == w.(evals := evals, audits := audits, results := w.results + [Outcome(r, d', false, false, e)]);
      }
    }
  }

  class EntitlementGuard {
    const options: Options
    var evals: seq<Eval>
    var audits: seq<Audit>
    var entries: seq<Entry>
    var results: seq<Outcome>

    constructor (options: Options)
      ensures this.options == options && State() == Start
    {
      this.options := options;
      evals, audits, entries, results := [], [], [], [];
    }

    function State(): World
      reads this
    {
      World(map[], evals, audits, entries, results)
    }

    /** `run`: enforcement, or a dry run that neither audits nor caches. */
    method Evaluate(r: Request, simulated: bool, p: Ports) returns (decision: Decision, hit: bool)
      modifies this
      ensures State() == Alone(options, old(State()), 0, r, simulated, p)
      ensures |results| == |old(results)| + 1 && results[|old(results)|].request == r
      ensures results[|old(results)|].decision == decision && results[|old(results)|].hit == hit
    {
      AloneIsEvaluated(options, State(), 0, r, simulated, p);
      var n := CachedEntry(r, p.pick);
      if n.Some? {
        decision, hit := entries[n.value].decision, true;
        results := results + [Outcome(r, decision, true, simulated, entries[n.value].eval)];
        return;
      }
      var e := |evals|;
      hit := false;
      decision := StampDecision(r, Decide(options, r, p.answers));
      evals := evals + [Eval(r, p.answers, simulated)];
      if !simulated {
        decision := RecordAudit(r, e, decision, p.audit);
        CacheDecision(r, e, decision, p.cache);
      }
      results := results + [Outcome(r, decision, false, simulated, e)];
    }

    /** The replay-stable id, and the caller's correlation id. */
    method StampDecision(r: Request, d: Decision) returns (stamped: Decision)
      ensures stamped == Stamp(r, d)
    {
      var id := DeriveDecisionId(Seed(r, d));
      stamped := d.(id := Some(id), correlation := if r.correlation.Some? then r.correlation else d.correlation);
    }

    /** Metered requests are never read from the cache. */
    method CachedEntry(r: Request, pick: Option<nat>) returns (n: Option<nat>)
      ensures n == if options.cachePort && r.resource.None? && pick.Some? && Offers(State(), r, pick.value) then pick
              else None
    {
      if !options.cachePort || r.resource.Some? || pick.None? {
        return None;
      }
      n := if pick.value < |entries| && entries[pick.value].eval < |evals|
        && SameKey(evals[entries[pick.value].eval].request, r) then pick else None;
    }

    /** A decision that cannot be recorded becomes a denial. */
    method RecordAudit(r: Request, e: nat, d: Decision, reply: Reply) returns (d': Decision)
      modifies this`audits
      ensures d' == if options.auditPort && !reply.Done? then AuditFailure(r) else d
      ensures audits == old(audits) + if !options.auditPort || reply.Refused? then [] else [Audit(e, d.allowed)]
    {
      if !options.auditPort {
        return d;
      }
      if !reply.Refused? {
        audits := audits + [Audit(e, d.allowed)];
      }
      d' := if reply.Done? then d else AuditFailure(r);
    }

    /** Neither metered decisions nor transient failures are memoized; a failing cache changes nothing else. */
    method CacheDecision(r: Request, e: nat, d: Decision, reply: Reply)
      modifies this`entries
      ensures entries == old(entries) +
        if !options.cachePort || r.resource.Some? || d.source == "guard_error" || d.source == "audit_failure"
            || reply.Refused? then [] else [Entry(e, d)]
    {
      if !options.cachePort || r.resource.Some? || d.source == "guard_error" || d.source == "audit_failure" {
        return;
      }
      if !reply.Refused? {
        entries := entries + [Entry(e, d)];
      }
    }
  }

  // ---------------------------------------------------------------------------
  // Batches
  // ---------------------------------------------------------------------------

  function BatchKey(r: Request): string { r.tenant + ":" + r.feature + ":" + ActionText(ActionOf(r)) }

  /** Two requests share an evaluation exactly when they share the action and the text of tenant, colon, feature. */
  lemma BatchKeysCollide(p: Request, q: Request)
    ensures BatchKey(p) == BatchKey(q) <==>
            ActionOf(p) == ActionOf(q)
            && p.tenant + ":" + p.feature == q.tenant + ":" + q.feature
  {
    var h1, h2 := p.tenant + ":" + p.feature, q.tenant + ":" + q.feature;
    assert BatchKey(p) == h1 + [':'] + ActionText(ActionOf(p)) && BatchKey(q) == h2 + [':'] + ActionText(ActionOf(q));
    if BatchKey(p) == BatchKey(q) {
      LastSeparatorIsUnique(h1, ActionText(ActionOf(p)), h2, ActionText(ActionOf(q)), ':');
    }
  }

  /** So with colon-free tenants a decision is shared only between requests of one tenant, feature and action. */
  lemma BatchKeysAreDistinct(p: Request, q: Request)
    requires ':' !in p.tenant && ':' !in q.tenant
    ensures BatchKey(p) == BatchKey(q) <==> p.tenant == q.tenant && p.feature == q.feature && ActionOf(p) == ActionOf(q)
  {
    BatchKeysCollide(p, q);
    if BatchKey(p) == BatchKey(q) { FirstSeparatorIsUnique(p.tenant, p.feature, q.tenant, q.feature, ':'); }
  }

  /** With a colon in a tenant id, a request of one tenant gets the decision taken for another. */
  lemma ColonSharesADecision(p: Request, q: Request)
    requires p.tenant == "a:b" && p.feature == "c" && q.tenant == "a" && q.feature == "b:c"
             && ActionOf(p) == ActionOf(q)
    ensures FirstLike(BatchKeys([p, q]), 1) == 0
  {
    BatchKeysCollide(p, q);
    assert p.tenant + ":" + p.feature == q.tenant + ":" + q.feature;
    var ks := BatchKeys([p, q]);
    assert ks[0] == ks[1];
  }

  function BatchKeys(rs: seq<Request>): seq<string> { seq(|rs|, i requires 0 <= i < |rs| => BatchKey(rs[i])) }

  /** The first position of the batch with the key of position `i`. */
  function FirstLike(ks: seq<string>, i: nat): (j: nat)
    requires i < |ks|
    ensures j <= i && ks[j] == ks[i] && forall k | 0 <= k < j :: ks[k] != ks[i]
  {
    Earliest(ks, i, 0)
  }

  function Earliest(ks: seq<string>, i: nat, from: nat): (j: nat)
    requires from <= i < |ks| && forall k | 0 <= k < from :: ks[k] != ks[i]
    ensures j <= i && ks[j] == ks[i] && forall k | 0 <= k < j :: ks[k] != ks[i]
    decreases i - from
  {
    if ks[from] == ks[i] then from else Earliest(ks, i, from + 1)
  }

  predicate IsFirst(ks: seq<string>, j: nat, k: string) {
    j < |ks| && ks[j] == k && forall m | 0 <= m < j :: ks[m] != k
  }

  lemma FirstIsFirst(ks: seq<string>, i: nat, j: nat)
    requires i < |ks| && IsFirst(ks, j, ks[i])
    ensures FirstLike(ks, i) == j
  {
  }

  /**
   * `evaluateMany`: one evaluation per key, shared by every request with that key. `evaluate(i)` is what evaluating
   * request `i` gives.
   */
  method EvaluateMany(rs: seq<Request>, evaluate: nat -> Decision) returns (ds: seq<Decision>, asked: set<nat>)
    ensures |ds| == |rs| && forall i | 0 <= i < |rs| :: ds[i] == evaluate(FirstLike(BatchKeys(rs), i))
    ensures asked == set i | 0 <= i < |rs| && FirstLike(BatchKeys(rs), i) == i
  {
    var firsts: seq<nat>;
    firsts, asked := Deduplicate(BatchKeys(rs));
    ds := seq(|rs|, i requires 0 <= i < |rs| => evaluate(firsts[i]));
  }

  /** The evaluation each request shares, found with a map from keys to evaluations under way. */
  method Deduplicate(ks: seq<string>) returns (firsts: seq<nat>, asked: set<nat>)
    ensures |firsts| == |ks| && forall i | 0 <= i < |ks| :: firsts[i] == FirstLike(ks, i)
    ensures asked == set i | 0 <= i < |ks| && FirstLike(ks, i) == i
  {
    var seen: map<string, nat> := map[];
    firsts, asked := [], {};
    for i := 0 to |ks|
      invariant |firsts| == i && forall j | 0 <= j < i :: firsts[j] == FirstLike(ks, j)
      invariant forall k | k in seen :: seen[k] < i && IsFirst(ks, seen[k], k)
      invariant forall j | 0 <= j < i :: ks[j] in seen
      invariant asked == set j | 0 <= j < i && FirstLike(ks, j) == j
    {
      if ks[i] !in seen {
        seen, asked := seen[ks[i] := i], asked + {i};
      }
      FirstIsFirst(ks, i, seen[ks[i]]);
      firsts := firsts + [seen[ks[i]]];
    }
  }

  /** A request is evaluated itself, its quota checked, exactly when no earlier request of the batch has its key. */
  lemma EvaluatedIffFirst(rs: seq<Request>, i: nat)
    requires i < |rs|
    ensures FirstLike(BatchKeys(rs), i) == i <==> forall k | 0 <= k < i :: BatchKey(rs[k]) != BatchKey(rs[i])
  {
    var ks := BatchKeys(rs);
    assert forall k | 0 <= k < |rs| :: ks[k] == BatchKey(rs[k]);
  }

  /**
   * The key leaves the metered resource out: behind an unmetered request, a metered one whose quota is
   * exhausted gets the other's allow.
   */
  lemma MeteredRidesAlong(tenant: string, feature: string, resource: string)
    ensures var o := Options(false, true, false, false);
            var free := Request(tenant, feature, None, None, None, None);
            var metered := free.(resource := Some(resource));
            var a := Answers(Some(Raw(true, "plan", None)), None, Some(Verdict(resource, HardExceeded, 11, 10, 1.1)));
            FirstLike(BatchKeys([free, metered]), 1) == 0 && Decide(o, free, a).allowed
              && !Decide(o, metered, a).allowed
  {
    var free := Request(tenant, feature, None, None, None, None);
    var ks := BatchKeys([free, free.(resource := Some(resource))]);
    assert ks[0] == ks[1];
  }
}
