/** `TenantProvisioner` itself: one run from its first call to its report, tied to the machine's run taken alone. */
module Provisioner {
  import opened Common
  import opened Provisioning

  type Replies = Call -> Reply

  /** `bootstrapSecurity`: five calls, stopping at the first that fails. */
  function BaselineFrom(known: set<string>, t: Tenant, call: Call, owner: string, replies: Replies): (Tenant, bool)
    requires Rank(call) >= 5
    decreases Rank(call)
  {
    var called := Called(known, t, call, owner, replies(call));
    if called.1 && call != Configure then BaselineFrom(known, called.0, NextBaseline(call, None), owner, replies)
        else called
  }

  function AfterBootstrap(w: Work, ok: bool): Work {
    if ok then w.(call := AfterBaseline(w.owner))
        else w.(call := AfterBaseline(w.owner), errors := w.errors + BASELINE_STEPS, clean := false)
  }

  lemma {:induction false} BootstrapAlone(known: set<string>, t: Tenant, w: Work, replies: Replies)
    requires Rank(w.call) >= 5
    ensures var (t1, ok) := BaselineFrom(known, t, w.call, OwnerName(w), replies);
            RunAlone(known, t, w, replies) == RunAlone(known, t1, AfterBootstrap(w, ok), replies)
    decreases Rank(w.call)
  {
    var called := Called(known, t, w.call, OwnerName(w), replies(w.call));
    if called.1 && w.call != Configure {
      BootstrapAlone(known, called.0, w.(call := NextBaseline(w.call, w.owner)), replies);
    }
  }

  lemma AloneGoesOn(known: set<string>, t: Tenant, w: Work, replies: Replies, t': Tenant, w': Work)
    requires RunStep(known, t, w, replies(w.call)) == (t', On(w'))
    ensures RunAlone(known, t, w, replies) == RunAlone(known, t', w', replies)
  {
  }

  class TenantProvisioner {
    const known: set<string>
    var store: map<string, Tenant>

    constructor (known: set<string>)
      ensures this.known == known && store == map[]
    {
      this.known, store := known, map[];
    }

    method Perform(tenant: string, call: Call, owner: string, reply: Reply) returns (ok: bool)
      modifies this
      ensures store == old(store)[tenant := Called(known, At(old(store), tenant), call, owner, reply).0]
      ensures ok == Called(known, At(old(store), tenant), call, owner, reply).1
    {
      var (t, done) := Called(known, At(store, tenant), call, owner, reply);
      store := store[tenant := t];
      return done;
    }

    method BootstrapSecurity(tenant: string, owner: string, replies: Replies) returns (ok: bool)
      modifies this
      ensures var r := BaselineFrom(known, At(old(store), tenant), DefineAdmin, owner, replies);
              ok == r.1 && store == old(store)[tenant := r.0]
    {
      ghost var start := store;
      var call := DefineAdmin;
      ok := Perform(tenant, call, owner, replies(call));
      while ok && call != Configure
        invariant Rank(call) >= 5
        invariant store == start[tenant := At(store, tenant)]
        invariant if ok && call != Configure
          then BaselineFrom(known, At(start, tenant), DefineAdmin, owner, replies)
              == BaselineFrom(known, At(store, tenant), NextBaseline(call, None), owner, replies)
          else BaselineFrom(known, At(start, tenant), DefineAdmin, owner, replies) == (At(store, tenant), ok)
        decreases Rank(call)
      {
        call := NextBaseline(call, None);
        ok := Perform(tenant, call, owner, replies(call));
      }
    }

    /** An owner step: skipped when not needed, its failure recorded and not thrown. */
    method AttemptStep(w: Work, needed: bool, step: StepName, next: Call, otherwise: Call, replies: Replies)
        returns (w': Work)
      requires RunStep(known, At(store, w.tenant), w, replies(w.call)) ==
        Attempt(At(store, w.tenant), Called(known, At(store, w.tenant), w.call, OwnerName(w), replies(w.call)), w,
          needed, step, next, otherwise)
      modifies this
      ensures RunAlone(known, At(old(store), w.tenant), w, replies) == RunAlone(known, At(store, w.tenant), w', replies)
      ensures store == old(store)[w.tenant := At(store, w.tenant)]
      ensures w'.tenant == w.tenant && w'.call in [next, otherwise]
    {
      ghost var t := At(store, w.tenant);
      if !needed {
        store := store[w.tenant := At(store, w.tenant)];
        AloneGoesOn(known, t, w, replies, t, w.(call := next));
        return w.(call := next);
      }
      var ok := Perform(w.tenant, w.call, OwnerName(w), replies(w.call));
      w' := if ok then w.(call := next) else w.(call := otherwise, errors := w.errors + {step}, clean := false);
      AloneGoesOn(known, t, w, replies, At(store, w.tenant), w');
    }

    /** A run: the baseline, the owner steps, and the report read back from the store. */
    method Provision(tenant: string, owner: Option<string>, replies: Replies) returns (result: Progress)
      modifies this
      ensures var r := RunAlone(known, At(old(store), tenant), Begun(tenant, owner), replies);
              result == r.1 && store == old(store)[tenant := r.0]
    {
      ghost var start := store;
      var w := Begun(tenant, owner);
      var ok := BootstrapSecurity(tenant, OwnerName(w), replies);
      BootstrapAlone(known, At(start, tenant), w, replies);
      w := AfterBootstrap(w, ok);
      if owner.Some? {
        if !replies(ReadOwner).Done? {
          return Rejected;
        }
        w := w.(call := Register, state := OwnerOf(At(store, tenant), owner.value));
        w := OwnerSteps(w, replies);
      }
      if !replies(ReadReport).Done? {
        return Rejected;
      }
      return Reported(ReportOf(At(store, tenant), w));
    }

    method OwnerSteps(w: Work, replies: Replies) returns (w': Work)
      requires w.call.Register?
      modifies this
      ensures w'.call.ReadReport? && w'.tenant == w.tenant && store == old(store)[w.tenant := At(store, w.tenant)]
      ensures RunAlone(known, At(old(store), w.tenant), w, replies) == RunAlone(known, At(store, w.tenant), w', replies)
    {
      w' := AttemptStep(w, !w.state.registered, OwnerPrincipal, Assign, Grant, replies);
      if w'.call.Assign? {
        w' := AttemptStep(w', w'.state.assignments == 0, OwnerAdminRole, Grant, Grant, replies);
      }
      w' := AttemptStep(w', w'.state.grants == 0, OwnerGrant, ReadReport, ReadReport, replies);
    }
  }

  lemma WholeMeans(t: Tenant, owner: Option<string>)
    requires Whole(t, owner)
    ensures t.adminRole && t.serviceRole && t.policy && t.versions > 0 && t.profile
    ensures owner.Some? ==>
            owner.value in t.principals && Count(t.assignments, owner.value) > 0
            && Count(t.grants, owner.value) > 0
  {
    assert Roles in StepsOf(owner) && Policy in StepsOf(owner) && Profile in StepsOf(owner);
    if owner.Some? {
      assert OwnerPrincipal in StepsOf(owner) && OwnerAdminRole in StepsOf(owner) && OwnerGrant in StepsOf(owner);
    }
  }

  /**
   * Running again on a provisioned tenant reports complete and repeats no role, registration, assignment or
   * grant; but it does publish one more version of the baseline policy.
   */
  lemma SecondRunAddsOnlyAVersion(known: set<string>, t: Tenant, tenant: string, owner: Option<string>,
      replies: Replies)
    requires Whole(t, owner) && forall call :: replies(call) == Done
    ensures var (t1, result) := RunAlone(known, t, Begun(tenant, owner), replies);
            && t1 == t.(versions := t.versions + 1)
            && result.Reported? && result.report.complete && result.report.clean
  {
    var w, t1 := Begun(tenant, owner), t.(versions := t.versions + 1);
    WholeMeans(t, owner);
    BaselineAgain(known, t, OwnerName(w), replies);
    BootstrapAlone(known, t, w, replies);
    var w1 := AfterBootstrap(w, true);
    if owner.Some? {
      OwnerAgain(known, t1, w1, replies);
    } else {
      ReportAgain(known, t1, w1, replies);
    }
  }

  lemma BaselineAgain(known: set<string>, t: Tenant, owner: string, replies: Replies)
    requires t.adminRole && t.serviceRole && t.policy && t.profile && forall call :: replies(call) == Done
    ensures BaselineFrom(known, t, DefineAdmin, owner, replies) == (t.(versions := t.versions + 1), true)
  {
    var t1 := t.(versions := t.versions + 1);
    assert BaselineFrom(known, t1, Configure, owner, replies) == (t1, true);
    assert BaselineFrom(known, t, Publish, owner, replies) == (t1, true);
    assert BaselineFrom(known, t, DefinePolicy, owner, replies) == (t1, true);
    assert BaselineFrom(known, t, DefineService, owner, replies) == (t1, true);
  }

  lemma OwnerAgain(known: set<string>, t: Tenant, w: Work, replies: Replies)
    requires w.owner.Some? && w.call.ReadOwner? && w.clean && w.errors == {} && Whole(t, w.owner) && forall call ::
             replies(call) == Done
    ensures var (t1, result) := RunAlone(known, t, w, replies);
            t1 == t && result.Reported? && result.report.complete && result.report.clean
  {
    WholeMeans(t, w.owner);
    var o := OwnerOf(t, w.owner.value);
    var w3, w2, w1, w0 := w.(call := Register, state := o), w.(call := Assign, state := o),
      w.(call := Grant, state := o), w.(call := ReadReport, state := o);
    ReportAgain(known, t, w0, replies);
    AloneGoesOn(known, t, w1, replies, t, w0);
    AloneGoesOn(known, t, w2, replies, t, w1);
    AloneGoesOn(known, t, w3, replies, t, w2);
    AloneGoesOn(known, t, w, replies, t, w3);
  }

  lemma ReportAgain(known: set<string>, t: Tenant, w: Work, replies: Replies)
    requires w.call.ReadReport? && w.clean && Whole(t, w.owner) && replies(ReadReport) == Done
    ensures var (t1, result) := RunAlone(known, t, w, replies);
            t1 == t && result.Reported? && result.report.complete && result.report.clean
  {
    MissingIsExact(t, w.owner, StepsOf(w.owner));
  }
}
