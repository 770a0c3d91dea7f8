/**
 * The entitlement guard: one evaluation as a decision, and many evaluations, real and simulated, interleaved
 * over a shared cache and audit trail whose calls may fail before or after taking effect.
 */
module Guard {
  import opened Common
  import opened Quota
  import opened DecisionId
  import C = EntitlementCache
  import T = Text

  // ---------------------------------------------------------------------------
  // One decision
  // ---------------------------------------------------------------------------

  /** `actionField` is the optional field of the request; a missing one means write. */
  datatype Request = Request(tenant: string, feature: string, actionField: Option<Action>, resource: Option<string>,
    amount: Option<int>, correlation: Option<string>)

  function ActionOf(r: Request): Action { if r.actionField.Some? then r.actionField.value else Write }

  datatype Decision = Decision(
    feature: string, allowed: bool, source: string, policy: Option<Policy>, quota: Option<Verdict>,
      id: Option<string>, correlation: Option<string>)

  /** What the decision point answers. */
  datatype Raw = Raw(allowed: bool, source: string, policy: Option<Policy>)

  /** Which collaborators the guard was given. */
  datatype Options = Options(policyPort: bool, quotaPort: bool, cachePort: bool, auditPort: bool)

  /** What the collaborators answer to one evaluation; nothing means the call threw. */
  datatype Answers = Answers(check: Option<Raw>, policy: Option<Policy>, quota: Option<Verdict>)

  function Denied(r: Request, source: string, policy: Policy, quota: Option<Verdict>): Decision {
    Decision(r.feature, false, source, Some(policy), quota, None, None)
  }

  function Resolved(o: Options, a: Answers): Option<Policy>
    requires a.check.Some?
  {
    if o.policyPort then a.policy else if a.check.value.policy.Some? then a.check.value.policy else Some(Allow)
  }

  predicate Metered(o: Options, r: Request) { o.quotaPort && r.resource.Some? }

  /** `decide`. */
  function Decide(o: Options, r: Request, a: Answers): Decision {
    if a.check.None? then Denied(r, "guard_error", Deny, None)
    else
      var base := a.check.value;
      if !base.allowed then Decision(r.feature, false, base.source,
          if base.policy.Some? then base.policy else Some(Deny), None, None, None)
      else
        var policy := Resolved(o, a);
        if policy.None? then Denied(r, "guard_error", Deny, None)
        else if !PolicyPermits(policy.value, ActionOf(r)) then Denied(r, "policy_denied", policy.value, None)
        else if !Metered(o, r) then Decision(r.feature, true, base.source, policy, None, None, None)
        else if a.quota.None? then Denied(r, "guard_error", policy.value, None)
        else if QuotaBlocks(a.quota.value.state) then Denied(r, "quota_exceeded", policy.value, a.quota)
        else Decision(r.feature, true, base.source, policy, a.quota, None, None)
  }

  /**
   * Every consulted collaborator answered: the decision point allowed, the policy in force permits the action,
   * and the quota of a metered request, if one is enforced, does not block.
   */
  predicate Granted(o: Options, r: Request, a: Answers) {
    && a.check.Some? && a.check.value.allowed
    && Resolved(o, a).Some? && PolicyPermits(Resolved(o, a).value, ActionOf(r))
    && (Metered(o, r) ==> a.quota.Some? && !QuotaBlocks(a.quota.value.state))
  }

  /** Fail-closed, exactly: a decision allows if and only if everything consulted answered in favour. */
  lemma AllowedIsGranted(o: Options, r: Request, a: Answers)
    ensures Decide(o, r, a).allowed <==> Granted(o, r, a)
    ensures a.check.None? ==> Decide(o, r, a).source == "guard_error"
    ensures Decide(o, r, a).allowed ==>
            Decide(o, r, a).source == a.check.value.source
            && Decide(o, r, a).policy == Resolved(o, a)
  {
  }

  /** The ten policies, by what they let a request do: a missing action counts as a write. */
  predicate LetsThrough(p: Policy, r: Request) {
    p in {Allow, Limited, Trial, GracePeriod, Internal, Preview} || (p == ReadOnly && r.actionField == Some(Read))
  }

  /**
   * The policy that applies: the policy port's answer if there is one, and otherwise the decision point's, or
   * `Allow`.
   */
  predicate Applies(o: Options, a: Answers, p: Policy) {
    a.check.Some? &&
    if o.policyPort then a.policy == Some(p)
    else a.check.value.policy == Some(p) || (a.check.value.policy.None? && p == Allow)
  }

  /**
   * Fail-closed, in terms of the policies and the quota states themselves: a request is allowed exactly when the
   * decision point allows, a policy applies that lets it through, and no quota it is metered against is used up.
   */
  lemma AllowedTable(o: Options, r: Request, a: Answers)
    ensures Decide(o, r, a).allowed <==>
              && a.check.Some? && a.check.value.allowed
              && (exists p :: Applies(o, a, p) && LetsThrough(p, r))
              && (o.quotaPort && r.resource.Some? ==>
                   a.quota.Some? && a.quota.value.state in {Within, Warning, SoftExceeded})
    ensures Decide(o, r, a).allowed ==>
              Decide(o, r, a).policy.Some? && Applies(o, a, Decide(o, r, a).policy.value)
              && LetsThrough(Decide(o, r, a).policy.value, r)
  {
    if a.check.Some? {
      var base := a.check.value;
      if o.policyPort {
        assert a.policy.Some? ==> Applies(o, a, a.policy.value);
      } else {
        assert Applies(o, a, if base.policy.Some? then base.policy.value else Allow);
      }
    }
  }

  /** Why a request is denied: the first thing that went wrong, in this order, and what the denial carries. */
  lemma DenialTable(o: Options, r: Request, a: Answers)
    ensures var d := Decide(o, r, a);
            && d.feature == r.feature && d.id == None && d.correlation == None
            && (a.check.None? ==> d.source == "guard_error" && d.policy == Some(Deny) && d.quota == None)
            && (a.check.Some? && !a.check.value.allowed ==>
                  d.source == a.check.value.source && d.quota == None
                  && d.policy == Some(if a.check.value.policy.Some? then a.check.value.policy.value else Deny))
    ensures a.check.Some? && a.check.value.allowed && !Decide(o, r, a).allowed ==>
              var d := Decide(o, r, a);
              if o.policyPort && a.policy.None? then d.source == "guard_error" && d.policy == Some(Deny)
                  && d.quota == None
              else && d.policy.Some? && Applies(o, a, d.policy.value)
                   && if !LetsThrough(d.policy.value, r) then d.source == "policy_denied" && d.quota == None
                      else if a.quota.None? then d.source == "guard_error" && d.quota == None
                      else d.source == "quota_exceeded" && d.quota == a.quota
  {
    AllowedTable(o, r, a);
  }

  function Seed(r: Request, d: Decision): string {
    r.tenant + "|" + r.feature + "|" + ActionText(ActionOf(r)) + "|" + d.source + "|" + if d.allowed then "1" else "0"
  }

  /** `stamp`: the replay-stable id, and the caller's correlation id. */
  function Stamp(r: Request, d: Decision): Decision {
    d.(id := Some("dec_" + Hex(Djb2(Seed(r, d)) % WORD, 8)),
      correlation := if r.correlation.Some? then r.correlation else d.correlation)
  }

  /** Stamping adds an id, and the caller's correlation id if it has one; the verdict stays what it was. */
  lemma StampMeans(r: Request, d: Decision)
    ensures var s := Stamp(r, d);
            && s == d.(id := s.id, correlation := s.correlation)
            && s.id == Some("dec_" + Hex(Djb2(Seed(r, d)) % WORD, 8))
            && s.correlation == (if r.correlation.None? then d.correlation else r.correlation)
  {
  }

  /** The decisive inputs determine the text that is hashed, and it them, if tenant and feature hold no bar. */
  lemma SeedsDiffer(p: Request, d: Decision, q: Request, e: Decision)
    requires '|' !in p.tenant && '|' !in q.tenant && '|' !in p.feature && '|' !in q.feature
    ensures Seed(p, d) == Seed(q, e) <==>
              && p.tenant == q.tenant && p.feature == q.feature && ActionOf(p) == ActionOf(q)
              && d.source == e.source && d.allowed == e.allowed
  {
    if Seed(p, d) == Seed(q, e) {
      SeedParts(p, d);
      SeedParts(q, e);
      var a, b := ActionText(ActionOf(p)), ActionText(ActionOf(q));
      var x, y := d.source + ['|'] + Flag(d), e.source + ['|'] + Flag(e);
      T.FirstSeparatorIsUnique(p.tenant, p.feature + ['|'] + (a + ['|'] + x), q.tenant,
        q.feature + ['|'] + (b + ['|'] + y), '|');
      T.FirstSeparatorIsUnique(p.feature, a + ['|'] + x, q.feature, b + ['|'] + y, '|');
      T.FirstSeparatorIsUnique(a, x, b, y, '|');
      T.LastSeparatorIsUnique(d.source, Flag(d), e.source, Flag(e), '|');
      assert |a| == |b|;
    }
  }

  function Flag(d: Decision): string { if d.allowed then "1" else "0" }

  lemma SeedParts(r: Request, d: Decision)
    ensures Seed(r, d) == r.tenant + ['|']
            + (r.feature + ['|'] + (ActionText(ActionOf(r)) + ['|'] + (d.source + ['|'] + Flag(d))))
  {
  }

  function AuditFailure(r: Request): Decision { Denied(r, "audit_failure", Deny, None) }

  // ---------------------------------------------------------------------------
  // Many evaluations
  // ---------------------------------------------------------------------------

  /** An evaluation that reached its decision. */
  datatype Eval = Eval(request: Request, answers: Answers, simulated: bool)

  /** An audit record, a cache entry and a result each name the evaluation they come from. */
  datatype Audit = Audit(eval: nat, allowed: bool)
  datatype Entry = Entry(eval: nat, decision: Decision)
  datatype Outcome = Outcome(request: Request, decision: Decision, hit: bool, simulated: bool, eval: nat)

  datatype Pc = Reading | Deciding | Auditing(eval: nat, decision: Decision) | Caching(eval: nat, decision: Decision)

  datatype Work = Work(request: Request, simulated: bool, pc: Pc)

  datatype World = World(work: map<nat, Work>, evals: seq<Eval>, audits: seq<Audit>, entries: seq<Entry>,
    results: seq<Outcome>)

  const Start: World := World(map[], [], [], [], [])

  /** `pick` is the cache's answer: some entry that was set under the same key, or none. */
  datatype Event =
    | Begin(who: nat, request: Request, simulated: bool)
    | ReadCache(who: nat, pick: Option<nat>)
    | Answer(who: nat, answers: Answers)
    | Record(who: nat, reply: Reply)
    | WriteCache(who: nat, reply: Reply)
    | Crash(who: nat)

  /** What the cache goes by: the joined text, not its three parts. */
  predicate SameKey(a: Request, b: Request) {
    C.KeyOf(a.tenant, a.feature, ActionOf(a)) == C.KeyOf(b.tenant, b.feature, ActionOf(b))
  }

  /** The cache may answer with this entry. */
  predicate Offers(w: World, r: Request, n: nat) {
    n < |w.entries| && w.entries[n].eval < |w.evals| && SameKey(w.evals[w.entries[n].eval].request, r)
  }

  function Put(w: World, x: nat, pc: Pc): World
    requires x in w.work
  {
    w.(work := w.work[x := w.work[x].(pc := pc)])
  }

  function Finish(w: World, x: nat, o: Outcome): World { w.(work := w.work - {x}, results := w.results + [o]) }

  /**
   * Audited, or without a trail: the decision stands; otherwise it becomes a denial. It is cached unless metered or
   * transient.
   */
  function AfterAudit(o: Options, w: World, x: nat, e: nat, d: Decision): World
    requires x in w.work
  {
    if !o.cachePort || w.work[x].request.resource.Some? || d.source == "guard_error" || d.source == "audit_failure"
    then Finish(w, x, Outcome(w.work[x].request, d, false, false, e))
    else Put(w, x, Caching(e, d))
  }

  /** One step; an event that does not apply changes nothing. */
  function Step(o: Options, w: World, ev: Event): World {
    if ev.Begin? then if ev.who in w.work then w
        else w.(work := w.work[ev.who := Work(ev.request, ev.simulated, Reading)])
    else if ev.who !in w.work then w
    else if ev.Crash? then w.(work := w.work - {ev.who})
    else Advanced(o, w, ev.who, ev)
  }

  function Advanced(o: Options, w: World, x: nat, ev: Event): World
    requires x in w.work
  {
    var r, pc := w.work[x].request, w.work[x].pc;
    if pc.Reading? && ev.ReadCache? then
      if !o.cachePort || r.resource.Some? || ev.pick.None? || !Offers(w, r, ev.pick.value) then Put(w, x, Deciding)
      else Finish(w, x, Outcome(r, w.entries[ev.pick.value].decision, true, w.work[x].simulated,
          w.entries[ev.pick.value].eval))
    else if pc.Deciding? && ev.Answer? then
      var e, d := |w.evals|, Stamp(r, Decide(o, r, ev.answers));
      var w1 := w.(evals := w.evals + [Eval(r, ev.answers, w.work[x].simulated)]);
      if w.work[x].simulated then Finish(w1, x, Outcome(r, d, false, true, e))
      else if !o.auditPort then AfterAudit(o, w1, x, e, d)
      else Put(w1, x, Auditing(e, d))
    else if pc.Auditing? && ev.Record? then
      var w1 := if ev.reply.Refused? then w else w.(audits := w.audits + [Audit(pc.eval, pc.decision.allowed)]);
      AfterAudit(o, w1, x, pc.eval, if ev.reply.Done? then pc.decision else AuditFailure(r))
    else if pc.Caching? && ev.WriteCache? then
      var w1 := if ev.reply.Refused? then w else w.(entries := w.entries + [Entry(pc.eval, pc.decision)]);
      Finish(w1, x, Outcome(r, pc.decision, false, false, pc.eval))
    else w
  }

  function Run(o: Options, evs: seq<Event>): World {
    if evs == [] then Start else Step(o, Run(o, evs[..|evs| - 1]), evs[|evs| - 1])
  }

  // ---------------------------------------------------------------------------
  // Invariants
  // ---------------------------------------------------------------------------

  function DecisionOf(o: Options, e: Eval): Decision { Stamp(e.request, Decide(o, e.request, e.answers)) }

  predicate Audited(w: World, e: nat, allowed: bool) { Audit(e, allowed) in w.audits }

  /** The decision is the evaluation's own, made for real, and on record if there is a trail. */
  predicate Vouched(o: Options, w: World, e: nat, d: Decision) {
    e < |w.evals| && d == DecisionOf(o, w.evals[e]) && !w.evals[e].simulated
      && (o.auditPort ==> Audited(w, e, d.allowed))
  }

  predicate EntryOk(o: Options, w: World, n: Entry) {
    Vouched(o, w, n.eval, n.decision) && w.evals[n.eval].request.resource.None? && n.decision.source != "guard_error"
      && n.decision.source != "audit_failure"
  }

  /**
   * A result: a cached decision, a simulated one, or the evaluation's own, or the denial that replaces an unauditable
   * one.
   */
  predicate OutcomeOk(o: Options, w: World, r: Outcome) {
    && r.eval < |w.evals| && SameKey(w.evals[r.eval].request, r.request)
    && (r.hit ==> EntryOk(o, w, Entry(r.eval, r.decision)) && r.request.resource.None?)
    && (!r.hit ==> w.evals[r.eval].request == r.request && w.evals[r.eval].simulated == r.simulated)
    && (!r.hit && r.simulated ==> r.decision == DecisionOf(o, w.evals[r.eval]))
    && (!r.hit && !r.simulated ==> Vouched(o, w, r.eval, r.decision) || r.decision == AuditFailure(r.request))
  }

  predicate WorkOk(o: Options, w: World, k: Work) {
    match k.pc
    case Reading => true
    case Deciding => true
    case Auditing(e, d) => !k.simulated && e < |w.evals| && w.evals[e] == Eval(k.request, w.evals[e].answers, false)
        && d == DecisionOf(o, w.evals[e])
    case Caching(e, d) => !k.simulated && EntryOk(o, w, Entry(e, d)) && w.evals[e].request == k.request
  }

  ghost predicate Inv(o: Options, w: World) {
    && (forall n | 0 <= n < |w.audits| :: w.audits[n].eval < |w.evals| && !w.evals[w.audits[n].eval].simulated)
    && (forall n | 0 <= n < |w.entries| :: EntryOk(o, w, w.entries[n]))
    && (forall n | 0 <= n < |w.results| :: OutcomeOk(o, w, w.results[n]))
    && (forall x | x in w.work :: WorkOk(o, w, w.work[x]))
  }

  ghost predicate Extends(w: World, w': World) {
    w.evals <= w'.evals && w.audits <= w'.audits && w.entries <= w'.entries && w.results <= w'.results
  }

  lemma EntryStays(o: Options, w: World, w': World, n: Entry)
    requires Extends(w, w') && EntryOk(o, w, n)
    ensures EntryOk(o, w', n)
  {
    assert w'.evals[n.eval] == w.evals[n.eval];
  }

  lemma OutcomeStays(o: Options, w: World, w': World, r: Outcome)
    requires Extends(w, w') && OutcomeOk(o, w, r)
    ensures OutcomeOk(o, w', r)
  {
    assert w'.evals[r.eval] == w.evals[r.eval];
    if r.hit { EntryStays(o, w, w', Entry(r.eval, r.decision)); }
  }

  lemma WorkStays(o: Options, w: World, w': World, k: Work)
    requires Extends(w, w') && WorkOk(o, w, k)
    ensures WorkOk(o, w', k)
  {
    if k.pc.Auditing? { assert w'.evals[k.pc.eval] == w.evals[k.pc.eval]; }
    if k.pc.Caching? {
      EntryStays(o, w, w', Entry(k.pc.eval, k.pc.decision));
      assert w'.evals[k.pc.eval] == w.evals[k.pc.eval];
    }
  }

  /** What a step may add: at most one of each, each in order. */
  ghost predicate Adds(o: Options, w: World, w': World, x: nat) {
    && Extends(w, w')
    && (forall n | |w.audits| <= n < |w'.audits| ::
         w'.audits[n].eval < |w'.evals| && !w'.evals[w'.audits[n].eval].simulated)
    && (forall n | |w.entries| <= n < |w'.entries| :: EntryOk(o, w', w'.entries[n]))
    && (forall n | |w.results| <= n < |w'.results| :: OutcomeOk(o, w', w'.results[n]))
    && (forall y | y in w'.work && y != x :: y in w.work && w'.work[y] == w.work[y])
    && (x in w'.work ==> WorkOk(o, w', w'.work[x]))
  }

  lemma InvFromAdds(o: Options, w: World, w': World, x: nat)
    requires Inv(o, w) && Adds(o, w, w', x)
    ensures Inv(o, w')
  {
    forall n | 0 <= n < |w'.audits| ensures w'.audits[n].eval < |w'.evals| && !w'.evals[w'.audits[n].eval].simulated {
      if n < |w.audits| { assert w'.audits[n] == w.audits[n]; }
    }
    forall n | 0 <= n < |w'.entries| ensures EntryOk(o, w', w'.entries[n]) {
      if n < |w.entries| { EntryStays(o, w, w', w.entries[n]); }
    }
    forall n | 0 <= n < |w'.results| ensures OutcomeOk(o, w', w'.results[n]) {
      if n < |w.results| { OutcomeStays(o, w, w', w.results[n]); }
    }
    forall y | y in w'.work ensures WorkOk(o, w', w'.work[y]) {
      if y != x { WorkStays(o, w, w', w.work[y]); }
    }
  }

  lemma HitAdds(o: Options, w: World, x: nat, n: nat)
    requires Inv(o, w) && x in w.work && w.work[x].request.resource.None? && Offers(w, w.work[x].request, n)
    ensures Adds(o, w, Finish(w, x,
            Outcome(w.work[x].request, w.entries[n].decision, true, w.work[x].simulated, w.entries[n].eval)), x)
  {
    assert EntryOk(o, w, w.entries[n]);
    assert w.entries[n] == Entry(w.entries[n].eval, w.entries[n].decision);
  }

  /** After the audit: a decision that stands is vouched for; an unauditable one is a denial, and is not cached. */
  lemma AfterAuditAdds(o: Options, w: World, w1: World, x: nat, e: nat, d: Decision)
    requires Inv(o, w) && x in w.work && w1.work == w.work && w1.entries == w.entries && w1.results == w.results
             && Extends(w, w1)
    requires forall n | |w.audits| <= n < |w1.audits| ::
             w1.audits[n].eval < |w1.evals| && !w1.evals[w1.audits[n].eval].simulated
    requires e < |w1.evals| && w1.evals[e].request == w.work[x].request && !w1.evals[e].simulated
             && !w.work[x].simulated
    requires Vouched(o, w1, e, d) || d == AuditFailure(w.work[x].request)
    ensures Adds(o, w, AfterAudit(o, w1, x, e, d), x)
  {
  }

  lemma AnswerAdds(o: Options, w: World, x: nat, ev: Event)
    requires Inv(o, w) && x in w.work && w.work[x].pc.Deciding? && ev.Answer?
    ensures Adds(o, w, Advanced(o, w, x, ev), x)
  {
    var r := w.work[x].request;
    var e, d := |w.evals|, Stamp(r, Decide(o, r, ev.answers));
    var w1 := w.(evals := w.evals + [Eval(r, ev.answers, w.work[x].simulated)]);
    assert w1.evals[e] == Eval(r, ev.answers, w.work[x].simulated) && d == DecisionOf(o, w1.evals[e]);
    if !w.work[x].simulated && !o.auditPort { AfterAuditAdds(o, w, w1, x, e, d); }
  }

  lemma RecordAdds(o: Options, w: World, x: nat, ev: Event)
    requires Inv(o, w) && x in w.work && w.work[x].pc.Auditing? && ev.Record?
    ensures Adds(o, w, Advanced(o, w, x, ev), x)
  {
    var k := w.work[x];
    assert WorkOk(o, w, k);
    var w1 := if ev.reply.Refused? then w else w.(audits := w.audits + [Audit(k.pc.eval, k.pc.decision.allowed)]);
    AfterAuditAdds(o, w, w1, x, k.pc.eval, if ev.reply.Done? then k.pc.decision else AuditFailure(k.request));
  }

  lemma WriteAdds(o: Options, w: World, x: nat, ev: Event)
    requires Inv(o, w) && x in w.work && w.work[x].pc.Caching? && ev.WriteCache?
    ensures Adds(o, w, Advanced(o, w, x, ev), x)
  {
    var k := w.work[x];
    assert WorkOk(o, w, k);
    var w' := Advanced(o, w, x, ev);
    assert EntryOk(o, w', Entry(k.pc.eval, k.pc.decision));
  }

  lemma AdvancedAdds(o: Options, w: World, x: nat, ev: Event)
    requires Inv(o, w) && x in w.work
    ensures Adds(o, w, Advanced(o, w, x, ev), x)
  {
    var k := w.work[x];
    assert WorkOk(o, w, k);
    if k.pc.Deciding? && ev.Answer? {
      AnswerAdds(o, w, x, ev);
    } else if k.pc.Auditing? && ev.Record? {
      RecordAdds(o, w, x, ev);
    } else if k.pc.Caching? && ev.WriteCache? {
      WriteAdds(o, w, x, ev);
    } else if k.pc.Reading? && ev.ReadCache? && o.cachePort && k.request.resource.None? && ev.pick.Some?
        && Offers(w, k.request, ev.pick.value) {
      HitAdds(o, w, x, ev.pick.value);
    }
  }

  lemma InvKept(o: Options, w: World, ev: Event)
    requires Inv(o, w)
    ensures Inv(o, Step(o, w, ev))
  {
    if ev.who in w.work && !ev.Begin? && !ev.Crash? {
      AdvancedAdds(o, w, ev.who, ev);
      InvFromAdds(o, w, Advanced(o, w, ev.who, ev), ev.who);
    }
  }

  lemma {:induction false} RunInv(o: Options, evs: seq<Event>)
    ensures Inv(o, Run(o, evs))
  {
    if evs != [] {
      RunInv(o, evs[..|evs| - 1]);
      InvKept(o, Run(o, evs[..|evs| - 1]), evs[|evs| - 1]);
    }
  }

  // ---------------------------------------------------------------------------
  // Every run
  // ---------------------------------------------------------------------------

  /**
   * Provenance of an allow: in every run, an allowing result, fresh or from the cache, goes back to an
   * evaluation under the same cache key in which everything consulted answered in favour; and unless it is
   * itself a dry run, that evaluation was real and its allow is on the audit trail. A fresh result goes back to
   * the very request, and a cached one, if neither tenant holds a colon, to the same tenant, feature and action.
   * The policy the result names applied then, and lets this request through.
   */
  lemma AllowProvenance(o: Options, evs: seq<Event>, n: nat)
    requires n < |Run(o, evs).results| && Run(o, evs).results[n].decision.allowed
    ensures var w := Run(o, evs);
            var r := w.results[n];
            && r.eval < |w.evals| && SameKey(w.evals[r.eval].request, r.request)
            && Granted(o, w.evals[r.eval].request, w.evals[r.eval].answers)
            && (!r.hit ==> w.evals[r.eval].request == r.request)
            && (':' !in r.request.tenant && ':' !in w.evals[r.eval].request.tenant ==>
                 SameSubject(w.evals[r.eval].request, r.request))
            && (r.hit || !r.simulated ==> !w.evals[r.eval].simulated && (o.auditPort ==> Audited(w, r.eval, true)))
            && r.decision.policy.Some? && LetsThrough(r.decision.policy.value, r.request)
            && Applies(o, w.evals[r.eval].answers, r.decision.policy.value)
            && w.evals[r.eval].answers.check.value.allowed
  {
    RunInv(o, evs);
    var w := Run(o, evs);
    var r := w.results[n];
    assert OutcomeOk(o, w, r);
    var e := w.evals[r.eval];
    AllowedIsGranted(o, e.request, e.answers);
    AllowedTable(o, e.request, e.answers);
    C.KeysCollide(e.request.tenant, e.request.feature, ActionOf(e.request), r.request.tenant, r.request.feature,
      ActionOf(r.request));
    if ':' !in r.request.tenant && ':' !in e.request.tenant {
      C.KeysAreDistinct(e.request.tenant, e.request.feature, ActionOf(e.request), r.request.tenant,
        r.request.feature, ActionOf(r.request));
    }
  }

  predicate SameSubject(a: Request, b: Request) {
    a.tenant == b.tenant && a.feature == b.feature && ActionOf(a) == ActionOf(b)
  }

  /** Some run in which `q` is answered from the cache with an allow that was decided for `p`. */
  ghost predicate Borrows(o: Options, p: Request, q: Request) {
    exists evs: seq<Event>, n: nat :: BorrowsIn(o, evs, n, p, q)
  }

  ghost predicate BorrowsIn(o: Options, evs: seq<Event>, n: nat, p: Request, q: Request) {
    var w := Run(o, evs);
    && n < |w.results| && w.results[n].hit && w.results[n].decision.allowed && w.results[n].request == q
    && w.results[n].eval < |w.evals| && w.evals[w.results[n].eval].request == p
  }

  /**
   * Exactly when an allow can be borrowed: with a cache, an unmetered request can be answered with the allow of
   * another if and only if they agree on the action and on the text of tenant, colon, feature.
   */
  lemma BorrowsIff(o: Options, p: Request, q: Request)
    requires o.cachePort && p.resource.None? && q.resource.None?
    ensures Borrows(o, p, q) <==> ActionOf(p) == ActionOf(q) && p.tenant + ":" + p.feature == q.tenant + ":" + q.feature
  {
    C.KeysCollide(p.tenant, p.feature, ActionOf(p), q.tenant, q.feature, ActionOf(q));
    if SameKey(p, q) {
      var evs := BorrowingRun(o, p, q);
      assert BorrowsIn(o, evs, 1, p, q);
    } else if Borrows(o, p, q) {
      var evs: seq<Event>, n: nat :| BorrowsIn(o, evs, n, p, q);
      BorrowedSharesKey(o, evs, n, p, q);
      assert false;
    }
  }

  lemma BorrowedSharesKey(o: Options, evs: seq<Event>, n: nat, p: Request, q: Request)
    requires BorrowsIn(o, evs, n, p, q)
    ensures SameKey(p, q)
  {
    RunInv(o, evs);
    assert OutcomeOk(o, Run(o, evs), Run(o, evs).results[n]);
  }

  lemma BorrowingRun(o: Options, p: Request, q: Request) returns (evs: seq<Event>)
    requires o.cachePort && p.resource.None? && q.resource.None? && SameKey(p, q)
    ensures |Run(o, evs).evals| == 1 && BorrowsIn(o, evs, 1, p, q)
  {
    var a := Answers(Some(Raw(true, "plan", Some(Allow))), Some(Allow), None);
    var first := [Begin(0, p, false), ReadCache(0, None), Answer(0, a), Record(0, Done), WriteCache(0, Done)];
    var e, f := Begin(1, q, false), ReadCache(1, Some(0));
    FirstAllow(o, p, a);
    var w := Run(o, first);
    Then(o, first, e);
    Then(o, first + [e], f);
    assert Step(o, w, e).work == map[1 := Work(q, false, Reading)];
    evs := first + [e] + [f];
  }

  lemma Then(o: Options, evs: seq<Event>, ev: Event)
    ensures Run(o, evs + [ev]) == Step(o, Run(o, evs), ev)
  {
    assert (evs + [ev])[..|evs|] == evs;
  }

  lemma FirstMiss(o: Options, p: Request)
    requires o.cachePort && p.resource.None?
    ensures var w := Run(o, [Begin(0, p, false), ReadCache(0, None)]);
            w == World(map[0 := Work(p, false, Deciding)], [], [], [], [])
  {
    var b, r := Begin(0, p, false), ReadCache(0, None);
    Then(o, [], b);
    Then(o, [b], r);
    assert [] + [b] == [b] && [b] + [r] == [b, r];
  }

  /** One evaluation from start to cache: allowed, audited if there is a trail, and memoized. */
  lemma FirstAllow(o: Options, p: Request, a: Answers)
    requires o.cachePort && p.resource.None? && a == Answers(Some(Raw(true, "plan", Some(Allow))), Some(Allow), None)
    ensures var w := Run(o,
            [Begin(0, p, false), ReadCache(0, None), Answer(0, a), Record(0, Done), WriteCache(0, Done)]);
            w.work == map[] && w.evals == [Eval(p, a, false)] && |w.results| == 1 && |w.entries| == 1
            && w.entries[0] == Entry(0, Stamp(p, Decide(o, p, a))) && w.entries[0].decision.allowed
  {
    var start, x, d, c := [Begin(0, p, false), ReadCache(0, None)], Answer(0, a), Record(0, Done), WriteCache(0, Done);
    FirstMiss(o, p);
    Then(o, start, x);
    Then(o, start + [x], d);
    Then(o, start + [x] + [d], c);
    assert start + [x] + [d] + [c] == [Begin(0, p, false), ReadCache(0, None), x, d, c];
    AllowedIsGranted(o, p, a);
    ThenCached(o, Run(o, start), p, a);
    ThenWritten(o, Run(o, start + [x] + [d]), p, Stamp(p, Decide(o, p, a)));
  }

  lemma ThenWritten(o: Options, w: World, p: Request, own: Decision)
    requires w.work == map[0 := Work(p, false, Caching(0, own))] && w.entries == [] && w.results == []
    ensures var w' := Step(o, w, WriteCache(0, Done));
            && w'.work == map[] && w'.evals == w.evals && w'.entries == [Entry(0, own)] && |w'.results| == 1
  {
    assert w.work - {0} == map[];
  }

  lemma ThenCached(o: Options, w: World, p: Request, a: Answers)
    requires w == World(map[0 := Work(p, false, Deciding)], [], [], [], []) && o.cachePort && p.resource.None?
    requires Decide(o, p, a).allowed && Decide(o, p, a).source == "plan"
    ensures var own := Stamp(p, Decide(o, p, a));
            Step(o, Step(o, w, Answer(0, a)), Record(0, Done)) ==
              World(map[0 := Work(p, false, Caching(0, own))], [Eval(p, a, false)],
                if o.auditPort then [Audit(0, true)] else [], [], [])
  {
    var own := Stamp(p, Decide(o, p, a));
    assert w.work[0 := Work(p, false, Caching(0, own))] == map[0 := Work(p, false, Caching(0, own))];
    if o.auditPort {
      var w1 := Step(o, w, Answer(0, a));
      assert w1 == World(map[0 := Work(p, false, Auditing(0, own))], [Eval(p, a, false)], [], [], []);
    }
  }

  /**
   * So with a colon in a tenant id a tenant can be let in by another one's allow, though no evaluation was ever made
   * for it.
   */
  lemma ColonBorrowsAnAllow(o: Options, action: Option<Action>) returns (evs: seq<Event>)
    requires o.cachePort
    ensures var p, q := Request("a:b", "c", action, None, None, None), Request("a", "b:c", action, None, None, None);
            BorrowsIn(o, evs, 1, p, q) && |Run(o, evs).evals| == 1
  {
    var p, q := Request("a:b", "c", action, None, None, None), Request("a", "b:c", action, None, None, None);
    assert p.tenant + ":" + p.feature == q.tenant + ":" + q.feature;
    C.KeysCollide(p.tenant, p.feature, ActionOf(p), q.tenant, q.feature, ActionOf(q));
    evs := BorrowingRun(o, p, q);
  }

  /**
   * What is cached was audited first: every cache entry is the decision of a real, unmetered evaluation, on
   * the trail with its own verdict, and neither a guard error nor an audit failure; metered requests never hit.
   */
  lemma CachedIsAudited(o: Options, evs: seq<Event>)
    ensures var w := Run(o, evs);
            && (forall n | 0 <= n < |w.entries| :: EntryOk(o, w, w.entries[n]))
            && (forall n | 0 <= n < |w.results| && w.results[n].hit :: w.results[n].request.resource.None?)
  {
    RunInv(o, evs);
    var w := Run(o, evs);
    assert forall n | 0 <= n < |w.results| :: OutcomeOk(o, w, w.results[n]);
  }

  /** Simulation leaves no trace: no audit record or cache entry comes from a dry run, and no step of one adds any. */
  lemma SimulationLeavesNoTrace(o: Options, evs: seq<Event>, ev: Event)
    ensures var w := Run(o, evs);
            && (forall n | 0 <= n < |w.audits| :: w.audits[n].eval < |w.evals| && !w.evals[w.audits[n].eval].simulated)
            && (forall n | 0 <= n < |w.entries| ::
                 w.entries[n].eval < |w.evals| && !w.evals[w.entries[n].eval].simulated)
            && (ev.who in w.work && w.work[ev.who].simulated ==>
                 Step(o, w, ev).audits == w.audits && Step(o, w, ev).entries == w.entries)
  {
    RunInv(o, evs);
    var w := Run(o, evs);
    assert forall n | 0 <= n < |w.entries| :: EntryOk(o, w, w.entries[n]);
    if ev.who in w.work { assert WorkOk(o, w, w.work[ev.who]); }
  }
}
