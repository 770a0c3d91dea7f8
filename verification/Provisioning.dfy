/**
 * Tenant provisioning: a baseline of five writes, then three owner steps that are skipped when stored state
 * already shows them. Runs may fail at any call, lose replies, crash and interleave.
 */
module Provisioning {
  import opened Common
  import opened Text

  // ---------------------------------------------------------------------------
  // What is stored for a tenant
  // ---------------------------------------------------------------------------

  /** `assignments` counts admin role assignments per owner, `grants` the writes of the owner's enforcement tuple. */
  datatype Tenant = Tenant(
    adminRole: bool, serviceRole: bool, policy: bool, versions: nat, profile: bool,
    principals: set<string>, assignments: map<string, nat>, grants: map<string, nat>)

  const Bare: Tenant := Tenant(false, false, false, 0, false, {}, map[], map[])

  datatype StepName = Roles | Policy | Profile | OwnerPrincipal | OwnerAdminRole | OwnerGrant

  predicate Stored(t: Tenant, owner: Option<string>, s: StepName) {
    match s
    case Roles => t.adminRole && t.serviceRole
    case Policy => t.policy && t.versions > 0
    case Profile => t.profile
    case OwnerPrincipal => owner.Some? && owner.value in t.principals
    case OwnerAdminRole => owner.Some? && Count(t.assignments, owner.value) > 0
    case OwnerGrant => owner.Some? && Count(t.grants, owner.value) > 0
  }

  function StepsOf(owner: Option<string>): seq<StepName> {
    if owner.Some? then [Roles, Policy, Profile, OwnerPrincipal, OwnerAdminRole, OwnerGrant]
        else [Roles, Policy, Profile]
  }

  /** Every step is in stored state. */
  predicate Whole(t: Tenant, owner: Option<string>) { forall s | s in StepsOf(owner) :: Stored(t, owner, s) }

  // ---------------------------------------------------------------------------
  // Calls
  // ---------------------------------------------------------------------------

  datatype Call =
    | DefineAdmin | DefineService | DefinePolicy | Publish | Configure
    | ReadOwner | Register | Assign | Grant | ReadReport

  /** The use case behind a write: what it stores, or nothing if it rejects the request. */
  function Write(known: set<string>, t: Tenant, call: Call, owner: string): Option<Tenant> {
    match call
    case DefineAdmin => Some(t.(adminRole := true))
    case DefineService => Some(t.(serviceRole := true))
    case DefinePolicy => Some(t.(policy := true))
    case Publish => if t.policy then Some(t.(versions := t.versions + 1)) else None
    case Configure => Some(t.(profile := true))
    case Register => if owner in known then Some(t.(principals := t.principals + {owner})) else None
    case Assign => if owner in t.principals && t.adminRole then Some(t.(assignments := Bump(t.assignments, owner)))
        else None
    case Grant => Some(t.(grants := Bump(t.grants, owner)))
    case _ => Some(t)
  }

  function Called(known: set<string>, t: Tenant, call: Call, owner: string, reply: Reply): (Tenant, bool) {
    var w := Write(known, t, call, owner);
    if w.None? then (t, false) else (if reply.Refused? then t else w.value, reply.Done?)
  }

  // ---------------------------------------------------------------------------
  // One run, call by call
  // ---------------------------------------------------------------------------

  /** What `tenantBaseline` says of the owner. */
  datatype OwnerState = OwnerState(registered: bool, assignments: nat, grants: nat)

  function OwnerOf(t: Tenant, o: string): OwnerState {
    OwnerState(o in t.principals, Count(t.assignments, o), Count(t.grants, o))
  }

  datatype Line = Line(name: StepName, stored: bool, error: bool)

  /** `clean` records that no call of this run failed. */
  datatype Report = Report(tenant: string, owner: Option<string>, lines: seq<Line>, missing: seq<StepName>,
    complete: bool, clean: bool)

  datatype Work = Work(tenant: string, owner: Option<string>, call: Call, state: OwnerState, errors: set<StepName>,
    clean: bool)

  datatype Progress = On(work: Work) | Reported(report: Report) | Rejected

  function Begun(tenant: string, owner: Option<string>): Work {
    Work(tenant, owner, DefineAdmin, OwnerState(false, 0, 0), {}, true)
  }

  function OwnerName(w: Work): string { if w.owner.Some? then w.owner.value else "" }

  function Missing(t: Tenant, owner: Option<string>, steps: seq<StepName>): seq<StepName> {
    if steps == [] then []
    else (if Stored(t, owner, steps[0]) then [] else [steps[0]]) + Missing(t, owner, steps[1..])
  }

  function ReportOf(t: Tenant, w: Work): Report {
    var steps := StepsOf(w.owner);
    var missing := Missing(t, w.owner, steps);
    Report(w.tenant, w.owner,
      seq(|steps|, i requires 0 <= i < |steps| => Line(steps[i], Stored(t, w.owner, steps[i]),
        !Stored(t, w.owner, steps[i]) && steps[i] in w.errors)),
      missing, missing == [], w.clean)
  }

  const BASELINE_STEPS: set<StepName> := {Roles, Policy, Profile}

  function NextBaseline(call: Call, owner: Option<string>): Call {
    match call
    case DefineAdmin => DefineService
    case DefineService => DefinePolicy
    case DefinePolicy => Publish
    case Publish => Configure
    case _ => AfterBaseline(owner)
  }

  function AfterBaseline(owner: Option<string>): Call { if owner.Some? then ReadOwner else ReadReport }

  function Trip(w: Work, errors: set<StepName>, call: Call): Progress {
    On(w.(call := call, errors := w.errors + errors, clean := false))
  }

  /** `attempt`: an owner step, skipped when stored state already shows it. */
  function Attempt(t: Tenant, called: (Tenant, bool), w: Work, needed: bool, step: StepName, next: Call,
      otherwise: Call): (Tenant, Progress) {
    if !needed then (t, On(w.(call := next)))
    else if called.1 then (called.0, On(w.(call := next)))
    else (called.0, Trip(w, {step}, otherwise))
  }

  /** The baseline stops at its first failure, which is then the error of all its steps. */
  function BaselineStep(called: (Tenant, bool), w: Work): (Tenant, Progress) {
    if called.1 then (called.0, On(w.(call := NextBaseline(w.call, w.owner))))
    else (called.0, Trip(w, BASELINE_STEPS, AfterBaseline(w.owner)))
  }

  /** One call of a run, against the tenant's stored state. */
  function RunStep(known: set<string>, t: Tenant, w: Work, reply: Reply): (Tenant, Progress) {
    var called := Called(known, t, w.call, OwnerName(w), reply);
    match w.call
    case ReadOwner => if called.1 then (t, On(w.(call := Register, state := OwnerOf(t, OwnerName(w)))))
        else (t, Rejected)
    case Register => Attempt(t, called, w, !w.state.registered, OwnerPrincipal, Assign, Grant)
    case Assign => Attempt(t, called, w, w.state.assignments == 0, OwnerAdminRole, Grant, Grant)
    case Grant => Attempt(t, called, w, w.state.grants == 0, OwnerGrant, ReadReport, ReadReport)
    case ReadReport => if called.1 then (t, Reported(ReportOf(t, w))) else (t, Rejected)
    case _ => BaselineStep(called, w)
  }

  function Rank(call: Call): nat {
    match call
    case DefineAdmin => 9
    case DefineService => 8
    case DefinePolicy => 7
    case Publish => 6
    case Configure => 5
    case ReadOwner => 4
    case Register => 3
    case Assign => 2
    case Grant => 1
    case ReadReport => 0
  }

  /** The rest of a run with nothing in between. */
  function RunAlone(known: set<string>, t: Tenant, w: Work, replies: Call -> Reply): (Tenant, Progress)
    decreases Rank(w.call)
  {
    var (t1, p) := RunStep(known, t, w, replies(w.call));
    if p.On? then RunAlone(known, t1, p.work, replies) else (t1, p)
  }

  /** A report names exactly the steps that are not stored, and is complete exactly when every step is. */
  lemma {:induction false} MissingIsExact(t: Tenant, owner: Option<string>, steps: seq<StepName>)
    ensures forall s :: s in Missing(t, owner, steps) <==> s in steps && !Stored(t, owner, s)
    ensures Missing(t, owner, steps) == [] <==> forall s | s in steps :: Stored(t, owner, s)
  {
    if steps != [] {
      MissingIsExact(t, owner, steps[1..]);
      assert steps == [steps[0]] + steps[1..];
    }
  }

  /** Completeness is read from stored state: it says neither more nor less than that every step is there. */
  lemma ReportIsExact(t: Tenant, w: Work)
    ensures ReportOf(t, w).complete <==> Whole(t, w.owner)
    ensures forall s :: s in ReportOf(t, w).missing <==> s in StepsOf(w.owner) && !Stored(t, w.owner, s)
    ensures forall i | 0 <= i < |StepsOf(w.owner)| ::
      ReportOf(t, w).lines[i].name == StepsOf(w.owner)[i]
        && (ReportOf(t, w).lines[i].error ==> StepsOf(w.owner)[i] in ReportOf(t, w).missing)
  {
    MissingIsExact(t, w.owner, StepsOf(w.owner));
  }

  // ---------------------------------------------------------------------------
  // Many runs
  // ---------------------------------------------------------------------------

  /** `running` of every process, keyed by process and by `provision`'s own key. */
  datatype World = World(store: map<string, Tenant>, runs: map<(nat, string), Work>, reports: seq<Report>)

  datatype Event =
    | Provision(process: nat, tenant: string, owner: Option<string>)
    | Advance(process: nat, key: string, reply: Reply)
    | Crash(process: nat)

  function KeyOf(tenant: string, owner: Option<string>): string {
    tenant + ['\0'] + if owner.Some? then owner.value else ""
  }

  function At(store: map<string, Tenant>, tenant: string): Tenant { if tenant in store then store[tenant] else Bare }

  /** An event that does not apply changes nothing; a second `provision` under a running key joins that run. */
  function Step(known: set<string>, w: World, e: Event): World {
    match e
    case Provision(p, tenant, owner) =>
      var key := (p, KeyOf(tenant, owner));
      if key in w.runs then w else w.(runs := w.runs[key := Begun(tenant, owner)])
    case Crash(p) => w.(runs := map k | k in w.runs && k.0 != p :: w.runs[k])
    case Advance(p, key, reply) => if (p, key) in w.runs then Advanced(known, w, (p, key), reply) else w
  }

  function Advanced(known: set<string>, w: World, k: (nat, string), reply: Reply): World
    requires k in w.runs
  {
    var work := w.runs[k];
    var (t1, progress) := RunStep(known, At(w.store, work.tenant), work, reply);
    World(
      w.store[work.tenant := t1],
      if progress.On? then w.runs[k := progress.work] else w.runs - {k},
      if progress.Reported? then w.reports + [progress.report] else w.reports)
  }

  function Run(known: set<string>, store: map<string, Tenant>, evs: seq<Event>): World {
    if evs == [] then World(store, map[], []) else Step(known, Run(known, store, evs[..|evs| - 1]), evs[|evs| - 1])
  }

  // Stored state only grows.

  predicate Grows(a: Tenant, b: Tenant) {
    && (a.adminRole ==> b.adminRole) && (a.serviceRole ==> b.serviceRole) && (a.policy ==> b.policy)
    && (a.profile ==> b.profile)
    && a.versions <= b.versions && a.principals <= b.principals
    && (forall o | o in a.assignments :: Count(a.assignments, o) <= Count(b.assignments, o))
    && (forall o | o in a.grants :: Count(a.grants, o) <= Count(b.grants, o))
  }

  lemma GrowsKeepsSteps(a: Tenant, b: Tenant, owner: Option<string>)
    requires Grows(a, b)
    ensures forall s | Stored(a, owner, s) :: Stored(b, owner, s)
  {
  }

  /** A run step changes stored state by its own call, or not at all. */
  lemma RunStepWrites(known: set<string>, t: Tenant, w: Work, reply: Reply)
    ensures RunStep(known, t, w, reply).0 in [t, Called(known, t, w.call, OwnerName(w), reply).0]
    ensures w.call.Assign? && w.state.assignments > 0 ==> RunStep(known, t, w, reply).0 == t
    ensures w.call.Grant? && w.state.grants > 0 ==> RunStep(known, t, w, reply).0 == t
  {
  }

  lemma CalledGrows(known: set<string>, t: Tenant, call: Call, owner: string, reply: Reply)
    ensures Grows(t, Called(known, t, call, owner, reply).0)
  {
    match call
    case Assign =>
    case Grant =>
    case Publish =>
    case _ =>
  }

  lemma CalledCounts(known: set<string>, t: Tenant, call: Call, owner: string, reply: Reply, o: string)
    ensures var t1 := Called(known, t, call, owner, reply).0;
            && (if call.Assign? && o == owner then Count(t1.assignments, o) <= Count(t.assignments, o) + 1
                 else Count(t1.assignments, o) == Count(t.assignments, o))
            && (if call.Grant? && o == owner then Count(t1.grants, o) <= Count(t.grants, o) + 1
                 else Count(t1.grants, o) == Count(t.grants, o))
            && Count(t.assignments, o) <= Count(t1.assignments, o) && Count(t.grants, o) <= Count(t1.grants, o)
  {
    match call
    case Assign =>
    case Grant =>
    case _ =>
  }

  lemma StepGrows(known: set<string>, w: World, e: Event, tenant: string)
    ensures Grows(At(w.store, tenant), At(Step(known, w, e).store, tenant))
  {
    if e.Advance? && (e.process, e.key) in w.runs {
      var work := w.runs[(e.process, e.key)];
      RunStepWrites(known, At(w.store, work.tenant), work, e.reply);
      CalledGrows(known, At(w.store, work.tenant), work.call, OwnerName(work), e.reply);
    }
  }

  // At most one assignment and one grant.

  ghost predicate Keyed(w: World) { forall k | k in w.runs :: k.1 == KeyOf(w.runs[k].tenant, w.runs[k].owner) }

  ghost predicate OneProcess(w: World, p: nat) { Keyed(w) && forall k | k in w.runs :: k.0 == p }

  /** What the run has read of its owner is still what is stored, as long as it may write because of it. */
  predicate Current(t: Tenant, w: Work) {
    w.owner.Some? ==>
      && (w.call.Register? || w.call.Assign? ==> w.state.assignments == Count(t.assignments, w.owner.value))
      && (w.call.Register? || w.call.Assign? || w.call.Grant? ==> w.state.grants == Count(t.grants, w.owner.value))
  }

  predicate OwnerCalls(w: Work) {
    w.owner.None? ==> !w.call.ReadOwner? && !w.call.Register? && !w.call.Assign? && !w.call.Grant?
  }

  ghost predicate AtMostOnce(w: World) {
    && (forall tenant, o :: Count(At(w.store, tenant).assignments, o) <= 1 && Count(At(w.store, tenant).grants, o) <= 1)
    && (forall k | k in w.runs :: Current(At(w.store, w.runs[k].tenant), w.runs[k]) && OwnerCalls(w.runs[k]))
  }

  /** A run touches the counts of its own owner only, and only when it has seen none. */
  lemma RunStepCounts(known: set<string>, t: Tenant, w: Work, reply: Reply, o: string)
    requires OwnerCalls(w) && Current(t, w)
    ensures var t1 := RunStep(known, t, w, reply).0;
            && (Count(t1.assignments, o) != Count(t.assignments, o) ==>
                 w.owner == Some(o) && Count(t.assignments, o) == 0 && Count(t1.assignments, o) == 1)
            && (Count(t1.grants, o) != Count(t.grants, o) ==>
                 w.owner == Some(o) && Count(t.grants, o) == 0 && Count(t1.grants, o) == 1)
  {
    RunStepWrites(known, t, w, reply);
    CalledCounts(known, t, w.call, OwnerName(w), reply, o);
  }

  lemma RunStepCurrent(known: set<string>, t: Tenant, w: Work, reply: Reply)
    requires OwnerCalls(w) && Current(t, w)
    ensures var (t1, p) := RunStep(known, t, w, reply);
            p.On? ==> Current(t1, p.work) && OwnerCalls(p.work) && p.work.tenant == w.tenant && p.work.owner == w.owner
  {
    RunStepWrites(known, t, w, reply);
    CalledCounts(known, t, w.call, OwnerName(w), reply, OwnerName(w));
    RunStepMoves(known, t, w, reply);
  }

  lemma RunStepMoves(known: set<string>, t: Tenant, w: Work, reply: Reply)
    ensures var p := RunStep(known, t, w, reply).1;
            p.On? ==>
              && p.work.tenant == w.tenant && p.work.owner == w.owner
              && (w.call.ReadOwner? ==> p.work.state == OwnerOf(t, OwnerName(w)) && p.work.call == Register)
              && (!w.call.ReadOwner? ==> p.work.state == w.state)
              && (w.call.Register? ==> p.work.call.Assign? || p.work.call.Grant?)
              && (w.call.Assign? ==> p.work.call.Grant?)
              && (w.call.Grant? ==> p.work.call.ReadReport?)
              && (Rank(w.call) >= 5 ==> Rank(p.work.call) >= 5 || p.work.call == AfterBaseline(w.owner))
  {
    match w.call
    case Register =>
    case Assign =>
    case Grant =>
    case ReadOwner =>
    case ReadReport =>
    case _ => assert Rank(w.call) >= 5;
  }

  lemma SameOwnerSameRun(w: World, p: nat, j: (nat, string), k: (nat, string))
    requires OneProcess(w, p) && j in w.runs && k in w.runs && w.runs[j].tenant == w.runs[k].tenant
             && w.runs[j].owner == w.runs[k].owner
    ensures j == k
  {
    assert j == (j.0, j.1) && k == (k.0, k.1);
  }

  lemma OneProcessKept(known: set<string>, w: World, e: Event, p: nat)
    requires OneProcess(w, p) && e.process == p
    ensures OneProcess(Step(known, w, e), p)
  {
    if e.Advance? && (p, e.key) in w.runs {
      var work := w.runs[(p, e.key)];
      RunStepMoves(known, At(w.store, work.tenant), work, e.reply);
    }
  }

  lemma AtMostOnceKept(known: set<string>, w: World, e: Event, p: nat)
    requires OneProcess(w, p) && e.process == p && AtMostOnce(w)
    ensures OneProcess(Step(known, w, e), p) && AtMostOnce(Step(known, w, e))
  {
    OneProcessKept(known, w, e, p);
    if e.Advance? && (p, e.key) in w.runs {
      var k, w' := (p, e.key), Step(known, w, e);
      var work := w.runs[k];
      var t := At(w.store, work.tenant);
      var t1 := RunStep(known, t, work, e.reply).0;
      assert forall tenant :: At(w'.store, tenant) == if tenant == work.tenant then t1 else At(w.store, tenant);
      forall tenant, o ensures Count(At(w'.store, tenant).assignments, o) <= 1
        && Count(At(w'.store, tenant).grants, o) <= 1 {
        CountsKept(known, w, e, tenant, o);
      }
      RunStepCurrent(known, t, work, e.reply);
      forall j | j in w'.runs ensures Current(At(w'.store, w'.runs[j].tenant), w'.runs[j]) && OwnerCalls(w'.runs[j]) {
        if j != k { OtherRunStaysCurrent(known, w, p, e, j); }
      }
    }
  }

  lemma CountsKept(known: set<string>, w: World, e: Event, tenant: string, o: string)
    requires AtMostOnce(w)
    ensures Count(At(Step(known, w, e).store, tenant).assignments, o) <= 1
            && Count(At(Step(known, w, e).store, tenant).grants, o) <= 1
  {
    assert Count(At(w.store, tenant).assignments, o) <= 1 && Count(At(w.store, tenant).grants, o) <= 1;
    if e.Advance? && (e.process, e.key) in w.runs {
      var work := w.runs[(e.process, e.key)];
      RunStepCounts(known, At(w.store, work.tenant), work, e.reply, o);
    }
  }

  lemma OtherRunStaysCurrent(known: set<string>, w: World, p: nat, e: Event, j: (nat, string))
    requires OneProcess(w, p) && AtMostOnce(w) && e.Advance? && (p, e.key) in w.runs && j in w.runs && j != (p, e.key)
    ensures var work := w.runs[(p, e.key)];
            var t1 := RunStep(known, At(w.store, work.tenant), work, e.reply).0;
            w.runs[j].tenant == work.tenant ==> Current(t1, w.runs[j])
  {
    var work, other := w.runs[(p, e.key)], w.runs[j];
    if other.tenant == work.tenant && other.owner.Some? {
      if other.owner == work.owner { SameOwnerSameRun(w, p, j, (p, e.key)); }
      RunStepCounts(known, At(w.store, work.tenant), work, e.reply, other.owner.value);
    }
  }

  /**
   * One process: over any sequence of runs, joined or not, with failures, lost replies and crashes in any
   * place, an owner is assigned the admin role at most once and the enforcement grant is written at most once.
   */
  lemma {:induction false} GrantedAtMostOnce(known: set<string>, evs: seq<Event>, p: nat)
    requires forall k | 0 <= k < |evs| :: evs[k].process == p
    ensures OneProcess(Run(known, map[], evs), p) && AtMostOnce(Run(known, map[], evs))
    ensures forall tenant, o ::
      Count(At(Run(known, map[], evs).store, tenant).assignments, o) <= 1
        && Count(At(Run(known, map[], evs).store, tenant).grants, o) <= 1
  {
    if evs != [] {
      var n := |evs| - 1;
      assert forall k | 0 <= k < n :: evs[..n][k] == evs[k];
      GrantedAtMostOnce(known, evs[..n], p);
      AtMostOnceKept(known, Run(known, map[], evs[..n]), evs[n], p);
    }
  }

  // Reports.

  /** What a run that has met no failure has made sure of by now. */
  predicate Ahead(known: set<string>, t: Tenant, w: Work) {
    && (Rank(w.call) < 9 ==> t.adminRole) && (Rank(w.call) < 8 ==> t.serviceRole) && (Rank(w.call) < 7 ==> t.policy)
    && (Rank(w.call) < 6 ==> t.versions > 0) && (Rank(w.call) < 5 ==> t.profile)
    && (w.owner.Some? ==>
         && (Rank(w.call) < 4 && w.state.registered ==> Stored(t, w.owner, OwnerPrincipal))
         && (Rank(w.call) < 4 && w.state.assignments > 0 ==> Stored(t, w.owner, OwnerAdminRole))
         && (Rank(w.call) < 4 && w.state.grants > 0 ==> Stored(t, w.owner, OwnerGrant))
         && (Rank(w.call) < 3 ==> Stored(t, w.owner, OwnerPrincipal))
         && (Rank(w.call) < 2 ==> Stored(t, w.owner, OwnerAdminRole))
         && (Rank(w.call) < 1 ==> Stored(t, w.owner, OwnerGrant)))
  }

  predicate OnTrack(known: set<string>, t: Tenant, w: Work) {
    w.clean && (w.owner.Some? ==> w.owner.value in known) ==> Ahead(known, t, w)
  }

  /** A report is right about stored state, and a run without failures ends complete. */
  predicate ReportOk(known: set<string>, t: Tenant, r: Report) {
    && (r.complete ==> Whole(t, r.owner))
    && (r.clean && (r.owner.Some? ==> r.owner.value in known) ==> r.complete)
  }

  ghost predicate Reliable(known: set<string>, w: World) {
    && (forall k | k in w.runs :: OwnerCalls(w.runs[k]) && OnTrack(known, At(w.store, w.runs[k].tenant), w.runs[k]))
    && (forall n | 0 <= n < |w.reports| :: ReportOk(known, At(w.store, w.reports[n].tenant), w.reports[n]))
  }

  lemma OnTrackGrows(known: set<string>, a: Tenant, b: Tenant, w: Work)
    requires Grows(a, b) && OnTrack(known, a, w)
    ensures OnTrack(known, b, w)
  {
    GrowsKeepsSteps(a, b, w.owner);
  }

  lemma RunStepOnTrack(known: set<string>, t: Tenant, w: Work, reply: Reply)
    requires OwnerCalls(w) && OnTrack(known, t, w)
    ensures var (t1, p) := RunStep(known, t, w, reply);
            && (p.On? ==> OwnerCalls(p.work) && OnTrack(known, t1, p.work) && p.work.tenant == w.tenant)
            && (p.Reported? ==> ReportOk(known, t1, p.report) && p.report.tenant == w.tenant)
  {
    if w.call.ReadReport? {
      MissingIsExact(t, w.owner, StepsOf(w.owner));
      if w.clean && (w.owner.Some? ==> w.owner.value in known) { AheadIsWhole(known, t, w); }
    } else if Rank(w.call) >= 5 {
      BaselineOnTrack(known, t, w, reply);
    } else if !w.call.ReadOwner? {
      OwnerOnTrack(known, t, w, reply);
    }
  }

  lemma AheadIsWhole(known: set<string>, t: Tenant, w: Work)
    requires w.call.ReadReport? && OnTrack(known, t, w) && w.clean && (w.owner.Some? ==> w.owner.value in known)
    ensures Whole(t, w.owner)
  {
  }

  lemma OwnerOnTrack(known: set<string>, t: Tenant, w: Work, reply: Reply)
    requires OwnerCalls(w) && OnTrack(known, t, w) && (w.call.Register? || w.call.Assign? || w.call.Grant?)
    ensures var (t1, p) := RunStep(known, t, w, reply);
            p.On? && OwnerCalls(p.work) && OnTrack(known, t1, p.work) && p.work.tenant == w.tenant
  {
    CalledGrows(known, t, w.call, OwnerName(w), reply);
    GrowsKeepsSteps(t, Called(known, t, w.call, OwnerName(w), reply).0, w.owner);
    match w.call
    case Register =>
    case Assign =>
    case _ =>
  }

  lemma BaselineOnTrack(known: set<string>, t: Tenant, w: Work, reply: Reply)
    requires OwnerCalls(w) && OnTrack(known, t, w) && Rank(w.call) >= 5
    ensures var (t1, p) := BaselineStep(Called(known, t, w.call, OwnerName(w), reply), w);
            p.On? && OwnerCalls(p.work) && OnTrack(known, t1, p.work) && p.work.tenant == w.tenant
  {
    if Called(known, t, w.call, OwnerName(w), reply).1 && w.clean && (w.owner.Some? ==> w.owner.value in known) {
      BaselineAhead(known, t, w, reply);
    }
  }

  lemma BaselineAhead(known: set<string>, t: Tenant, w: Work, reply: Reply)
    requires Ahead(known, t, w) && Rank(w.call) >= 5 && Called(known, t, w.call, OwnerName(w), reply).1
    ensures Ahead(known, Called(known, t, w.call, OwnerName(w), reply).0, w.(call := NextBaseline(w.call, w.owner)))
  {
    match w.call
    case DefineAdmin =>
    case DefineService =>
    case DefinePolicy =>
    case Publish =>
    case Configure =>
  }

  lemma ReliableKept(known: set<string>, w: World, e: Event)
    requires Reliable(known, w)
    ensures Reliable(known, Step(known, w, e))
  {
    var w' := Step(known, w, e);
    forall tenant ensures Grows(At(w.store, tenant), At(w'.store, tenant)) { StepGrows(known, w, e, tenant); }
    var k := if e.Advance? then (e.process, e.key) else (0, "");
    if e.Advance? && k in w.runs {
      RunStepOnTrack(known, At(w.store, w.runs[k].tenant), w.runs[k], e.reply);
    }
    forall j | j in w'.runs ensures OwnerCalls(w'.runs[j])
      && OnTrack(known, At(w'.store, w'.runs[j].tenant), w'.runs[j]) {
      if j in w.runs && w'.runs[j] == w.runs[j] {
        OnTrackGrows(known, At(w.store, w.runs[j].tenant), At(w'.store, w.runs[j].tenant), w.runs[j]);
      }
    }
    forall n | 0 <= n < |w'.reports| ensures ReportOk(known, At(w'.store, w'.reports[n].tenant), w'.reports[n]) {
      if n < |w.reports| {
        var r := w.reports[n];
        GrowsKeepsSteps(At(w.store, r.tenant), At(w'.store, r.tenant), r.owner);
      }
    }
  }

  /**
   * Any number of processes, from any stored state: a report that says complete stays true of stored state,
   * and a run none of whose calls failed reports complete, whatever earlier or concurrent runs left behind.
   */
  lemma {:induction false} ReportsAreReliable(known: set<string>, store: map<string, Tenant>, evs: seq<Event>)
    ensures Reliable(known, Run(known, store, evs))
    ensures var w := Run(known, store, evs);
            forall n | 0 <= n < |w.reports| ::
              && (w.reports[n].complete ==> Whole(At(w.store, w.reports[n].tenant), w.reports[n].owner))
              && (w.reports[n].clean && (w.reports[n].owner.Some? ==> w.reports[n].owner.value in known) ==>
                   w.reports[n].complete)
  {
    if evs != [] {
      ReportsAreReliable(known, store, evs[..|evs| - 1]);
      ReliableKept(known, Run(known, store, evs[..|evs| - 1]), evs[|evs| - 1]);
    }
    var w := Run(known, store, evs);
    assert forall n | 0 <= n < |w.reports| :: ReportOk(known, At(w.store, w.reports[n].tenant), w.reports[n]);
  }

  // What the source's own comments leave open or overstate.

  /** Two processes on one owner: both have read that no assignment is there yet. */
  lemma BothAssign(known: set<string>, w: World, j: (nat, string), k: (nat, string), tenant: string, o: string)
    requires j != k && j in w.runs && k in w.runs && tenant in w.store && o in w.store[tenant].principals
             && w.store[tenant].adminRole
    requires forall x | x in {j, k} :: ReadyToAssign(w.runs[x], tenant, o)
    ensures var w' := Step(known, Step(known, w, Advance(j.0, j.1, Done)), Advance(k.0, k.1, Done));
            tenant in w'.store && Count(w'.store[tenant].assignments, o) == Count(w.store[tenant].assignments, o) + 2
  {
    assert ReadyToAssign(w.runs[j], tenant, o) && ReadyToAssign(w.runs[k], tenant, o) && (j.0, j.1) == j
      && (k.0, k.1) == k;
  }

  predicate ReadyToAssign(w: Work, tenant: string, o: string) {
    w.tenant == tenant && w.owner == Some(o) && w.call.Assign? && w.state.assignments == 0
  }

  lemma RunSnoc(known: set<string>, evs: seq<Event>, e: Event)
    ensures Run(known, map[], evs + [e]) == Step(known, Run(known, map[], evs), e)
  {
    assert (evs + [e])[..|evs|] == evs;
  }

  /** Two runs for one owner, on processes 0 and 1. */
  function Race(tenant: string, o: string, t: Tenant, a: Work, b: Work): World {
    World(map[tenant := t], map[(0, KeyOf(tenant, Some(o))) := a, (1, KeyOf(tenant, Some(o))) := b], [])
  }

  function Racer(tenant: string, o: string, call: Call, errors: set<StepName>): Work {
    Work(tenant, Some(o), call, OwnerState(false, 0, 0), errors, errors == {})
  }

  lemma RaceStep(known: set<string>, tenant: string, o: string, t: Tenant, a: Work, b: Work, reply: Reply,
      t': Tenant, a': Work)
    requires a.tenant == tenant && RunStep(known, t, a, reply) == (t', On(a'))
    ensures Step(known, Race(tenant, o, t, a, b), Advance(0, KeyOf(tenant, Some(o)), reply))
            == Race(tenant, o, t', a', b)
    ensures Step(known, Race(tenant, o, t, b, a), Advance(1, KeyOf(tenant, Some(o)), reply))
            == Race(tenant, o, t', b, a')
  {
    var k := KeyOf(tenant, Some(o));
    var w, v := Race(tenant, o, t, a, b), Race(tenant, o, t, b, a);
    assert w.store[tenant := t'] == map[tenant := t'];
    assert w.runs[(0, k) := a'] == map[(0, k) := a', (1, k) := b];
    assert v.runs[(1, k) := a'] == map[(0, k) := b, (1, k) := a'];
  }

  function Registered(o: string): Tenant { Bare.(adminRole := true, principals := {o}) }

  /** Each process meets one failure of the baseline, and reads the owner. */
  lemma RaceReads(known: set<string>, tenant: string, o: string) returns (evs: seq<Event>)
    ensures Run(known, map[], evs)
            == Race(tenant, o, Bare.(adminRole := true), Racer(tenant, o, Register, BASELINE_STEPS),
              Racer(tenant, o, Register, BASELINE_STEPS))
  {
    var k, role, z := KeyOf(tenant, Some(o)), Bare.(adminRole := true), Begun(tenant, Some(o));
    var ds, ro, re := Racer(tenant, o, DefineService, {}), Racer(tenant, o, ReadOwner, BASELINE_STEPS),
      Racer(tenant, o, Register, BASELINE_STEPS);
    var noErrors: set<StepName> := {};
    assert noErrors + BASELINE_STEPS == BASELINE_STEPS;
    RaceStarts(known, tenant, o);
    RaceStep(known, tenant, o, role, ds, z, Refused, role, ro);
    RaceStep(known, tenant, o, role, z, ro, Refused, role, ro);
    RaceStep(known, tenant, o, role, ro, ro, Done, role, re);
    RaceStep(known, tenant, o, role, ro, re, Done, role, re);
    evs := [Provision(0, tenant, Some(o)), Provision(1, tenant, Some(o)), Advance(0, k, Done)];
    evs := RaceOn(known, evs, Advance(0, k, Refused), Advance(1, k, Refused));
    evs := RaceOn(known, evs, Advance(0, k, Done), Advance(1, k, Done));
  }

  lemma RaceOn(known: set<string>, evs: seq<Event>, a: Event, b: Event) returns (evs': seq<Event>)
    ensures Run(known, map[], evs') == Step(known, Step(known, Run(known, map[], evs), a), b)
  {
    evs' := evs + [a] + [b];
    RunSnoc(known, evs, a);
    RunSnoc(known, evs + [a], b);
  }

  /** Then each registers it, and stands before the assignment. */
  lemma RaceReachesAssign(known: set<string>, tenant: string, o: string) returns (evs: seq<Event>)
    requires o in known
    ensures Run(known, map[], evs)
            == Race(tenant, o, Registered(o), Racer(tenant, o, Assign, BASELINE_STEPS),
              Racer(tenant, o, Assign, BASELINE_STEPS))
  {
    var k, role := KeyOf(tenant, Some(o)), Bare.(adminRole := true);
    var re, go := Racer(tenant, o, Register, BASELINE_STEPS), Racer(tenant, o, Assign, BASELINE_STEPS);
    var nobody: set<string> := {};
    assert nobody + {o} == {o} && {o} + {o} == {o};
    evs := RaceReads(known, tenant, o);
    RaceStep(known, tenant, o, role, re, re, Done, Registered(o), go);
    RaceStep(known, tenant, o, Registered(o), re, go, Done, Registered(o), go);
    evs := RaceOn(known, evs, Advance(0, k, Done), Advance(1, k, Done));
  }

  lemma RaceStarts(known: set<string>, tenant: string, o: string)
    ensures Run(known, map[],
            [Provision(0, tenant, Some(o)), Provision(1, tenant, Some(o)),
              Advance(0, KeyOf(tenant, Some(o)), Done)]) ==
      Race(tenant, o, Bare.(adminRole := true), Racer(tenant, o, DefineService, {}), Begun(tenant, Some(o)))
  {
    var k, z := KeyOf(tenant, Some(o)), Begun(tenant, Some(o));
    var p, q, y := Provision(0, tenant, Some(o)), Provision(1, tenant, Some(o)), Advance(0, k, Done);
    var none: map<(nat, string), Work> := map[];
    RunSnoc(known, [], p);
    RunSnoc(known, [p], q);
    RunSnoc(known, [p, q], y);
    assert [] + [p] == [p] && [p] + [q] == [p, q] && [p, q] + [y] == [p, q, y];
    var w := Run(known, map[], [p, q]);
    assert w == World(map[], none[(0, k) := z][(1, k) := z], []);
    assert RunStep(known, Bare, z, Done) == (Bare.(adminRole := true), On(Racer(tenant, o, DefineService, {})));
    var z' := Racer(tenant, o, DefineService, {});
    assert w.runs[(0, k) := z'] == map[(0, k) := z', (1, k) := z];
  }

  /** Across processes an owner can be assigned twice. */
  lemma TwoProcessesCanAssignTwice(known: set<string>, tenant: string, o: string)
    requires o in known
    ensures exists evs :: Count(At(Run(known, map[], evs).store, tenant).assignments, o) == 2
  {
    var key := KeyOf(tenant, Some(o));
    var evs := RaceReachesAssign(known, tenant, o);
    BothAssign(known, Run(known, map[], evs), (0, key), (1, key), tenant, o);
    evs := RaceOn(known, evs, Advance(0, key, Done), Advance(1, key, Done));
    assert Count(At(Run(known, map[], evs).store, tenant).assignments, o) == 2;
  }

  /** The owner's part of the key: no owner reads as the empty one. */
  function OwnerText(owner: Option<string>): string { if owner.Some? then owner.value else "" }

  /** For tenants without the separator, two calls share a key exactly when they agree on tenant and owner text. */
  lemma KeysAgreeIff(t1: string, o1: Option<string>, t2: string, o2: Option<string>)
    requires '\0' !in t1 && '\0' !in t2
    ensures KeyOf(t1, o1) == KeyOf(t2, o2) <==> t1 == t2 && OwnerText(o1) == OwnerText(o2)
  {
    assert KeyOf(t1, o1) == t1 + ['\0'] + OwnerText(o1) && KeyOf(t2, o2) == t2 + ['\0'] + OwnerText(o2);
    if KeyOf(t1, o1) == KeyOf(t2, o2) { FirstSeparatorIsUnique(t1, OwnerText(o1), t2, OwnerText(o2), '\0'); }
  }

  /**
   * A call joins a run that is under way in its process, and gets that run's report, exactly when the two agree
   * on tenant and owner text. The run it joins was asked for another owner exactly when one of the two named
   * no owner and the other the empty one.
   */
  lemma JoinsIff(known: set<string>, w: World, p: nat, running: (nat, string), tenant: string, owner: Option<string>)
    requires Keyed(w) && running in w.runs && running.0 == p
    requires '\0' !in tenant && '\0' !in w.runs[running].tenant
    ensures var r := w.runs[running];
            && ((p, KeyOf(tenant, owner)) == running <==> r.tenant == tenant && OwnerText(r.owner) == OwnerText(owner))
            && ((p, KeyOf(tenant, owner)) == running ==> Step(known, w, Provision(p, tenant, owner)) == w)
            && ((p, KeyOf(tenant, owner)) == running && r.owner != owner <==>
                 r.tenant == tenant && {r.owner, owner} == {None, Some("")})
  {
    var r := w.runs[running];
    assert running == (running.0, running.1);
    KeysAgreeIff(tenant, owner, r.tenant, r.owner);
    if (p, KeyOf(tenant, owner)) == running && r.owner != owner {
      assert r.owner == None || owner == None;
    }
    if {r.owner, owner} == {None, Some("")} {
      assert r.owner in {None, Some("")} && owner in {None, Some("")} && None in {r.owner, owner}
        && Some("") in {r.owner, owner};
    }
  }

  /** One run of process 0 under its key, and nothing else. */
  function Lone(tenant: string, t: Tenant, call: Call): World {
    World(map[tenant := t],
      map[(0, KeyOf(tenant, None)) := Work(tenant, None, call, OwnerState(false, 0, 0), {}, true)], [])
  }

  lemma LoneStep(known: set<string>, tenant: string, t: Tenant, call: Call, t': Tenant, next: Call)
    requires Rank(call) >= 5 && Called(known, t, call, "", Done) == (t', true) && next == NextBaseline(call, None)
    ensures Step(known, Lone(tenant, t, call), Advance(0, KeyOf(tenant, None), Done)) == Lone(tenant, t', next)
  {
    var k := (0, KeyOf(tenant, None));
    var w, w' := Lone(tenant, t, call), Lone(tenant, t', next);
    var work := Work(tenant, None, next, OwnerState(false, 0, 0), {}, true);
    assert RunStep(known, t, w.runs[k], Done) == (t', On(work));
    assert w.store[tenant := t'] == w'.store && w.runs[k := work] == w'.runs;
  }

  /** The events of an ownerless run of process 0 that a call for the owner "" joins, every call succeeding. */
  function JoinedRun(tenant: string): seq<Event> {
    var go := Advance(0, KeyOf(tenant, None), Done);
    [Provision(0, tenant, None), Provision(0, tenant, Some(""))] + [go] + [go] + [go] + [go] + [go] + [go]
  }

  /**
   * So a call for the owner "" that arrives while an ownerless run is under way is told that provisioning is
   * complete, although nothing of that owner is stored.
   */
  lemma EmptyOwnerJoinsOwnerless(known: set<string>, tenant: string)
    ensures var w := Run(known, map[], JoinedRun(tenant));
            && KeyOf(tenant, Some("")) == KeyOf(tenant, None)
            && |w.reports| == 1 && w.reports[0].complete && w.reports[0].owner == None && w.runs == map[]
            && !Stored(At(w.store, tenant), Some(""), OwnerPrincipal) && !Whole(At(w.store, tenant), Some(""))
  {
    var k := KeyOf(tenant, None);
    var a, b, go := Provision(0, tenant, None), Provision(0, tenant, Some("")), Advance(0, k, Done);
    var none: map<(nat, string), Work> := map[];
    RunSnoc(known, [], a);
    RunSnoc(known, [a], b);
    assert [] + [a] == [a] && [a] + [b] == [a, b];
    assert Run(known, map[], [a, b]) == World(map[], none[(0, k) := Begun(tenant, None)], []);
    var t1 := Bare.(adminRole := true);
    var t2 := t1.(serviceRole := true);
    var t3 := t2.(policy := true);
    var t4 := t3.(versions := 1);
    var t5 := t4.(profile := true);
    FirstLoneStep(known, tenant, Run(known, map[], [a, b]));
    LoneStep(known, tenant, t1, DefineService, t2, DefinePolicy);
    LoneStep(known, tenant, t2, DefinePolicy, t3, Publish);
    LoneStep(known, tenant, t3, Publish, t4, Configure);
    LoneStep(known, tenant, t4, Configure, t5, ReadReport);
    RunSnoc(known, [a, b], go);
    RunSnoc(known, [a, b] + [go], go);
    RunSnoc(known, [a, b] + [go] + [go], go);
    RunSnoc(known, [a, b] + [go] + [go] + [go], go);
    RunSnoc(known, [a, b] + [go] + [go] + [go] + [go], go);
    RunSnoc(known, [a, b] + [go] + [go] + [go] + [go] + [go], go);
    LastLoneStep(known, tenant, t5);
  }

  lemma FirstLoneStep(known: set<string>, tenant: string, w: World)
    requires w.store == map[] && w.reports == [] && w.runs == map[(0, KeyOf(tenant, None)) := Begun(tenant, None)]
    ensures Step(known, w, Advance(0, KeyOf(tenant, None), Done))
            == Lone(tenant, Bare.(adminRole := true), DefineService)
  {
    var k := (0, KeyOf(tenant, None));
    var work := Work(tenant, None, DefineService, OwnerState(false, 0, 0), {}, true);
    assert RunStep(known, Bare, w.runs[k], Done) == (Bare.(adminRole := true), On(work));
    assert w.runs[k := work] == map[k := work];
  }

  lemma LastLoneStep(known: set<string>, tenant: string, t: Tenant)
    requires Whole(t, None) && t.principals == {}
    ensures var w := Step(known, Lone(tenant, t, ReadReport), Advance(0, KeyOf(tenant, None), Done));
            && |w.reports| == 1 && w.reports[0].complete && w.reports[0].owner == None && w.runs == map[]
            && !Stored(At(w.store, tenant), Some(""), OwnerPrincipal) && !Whole(At(w.store, tenant), Some(""))
  {
    var k := (0, KeyOf(tenant, None));
    var work := Lone(tenant, t, ReadReport).runs[k];
    ReportIsExact(t, work);
    assert map[k := work] - {k} == map[];
    assert OwnerPrincipal in StepsOf(Some(""));
  }
}
