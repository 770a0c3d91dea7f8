/** What one provisioning run stores and reports, in terms of stored state and of the replies it gets. */
module ProvisioningLaws {
  import opened Common
  import opened Provisioning
  import opened Provisioner

  /** A report is complete when all that belongs to the tenant, and to the owner if one is named, is stored. */
  lemma CompleteMeans(t: Tenant, w: Work)
    ensures ReportOf(t, w).complete <==>
              && t.adminRole && t.serviceRole && t.policy && t.versions > 0 && t.profile
              && (w.owner.Some? ==>
                    w.owner.value in t.principals && w.owner.value in t.assignments
                    && t.assignments[w.owner.value] > 0 && w.owner.value in t.grants && t.grants[w.owner.value] > 0)
    ensures ReportOf(t, w).tenant == w.tenant && ReportOf(t, w).owner == w.owner && ReportOf(t, w).clean == w.clean
  {
    ReportIsExact(t, w);
    if ReportOf(t, w).complete { WholeMeans(t, w.owner); }
  }

  /**
   * A call succeeds when it is answered and what it builds on is there: a policy to publish, a known owner to
   * register, and a registered owner and the admin role to assign. A rejected call stores nothing.
   */
  lemma CallsBuildOnEachOther(known: set<string>, t: Tenant, call: Call, o: string, reply: Reply)
    ensures var (t1, ok) := Called(known, t, call, o, reply);
            var allowed := (call == Publish ==> t.policy) && (call == Register ==> o in known)
                           && (call == Assign ==> o in t.principals && t.adminRole);
            (ok <==> reply == Done && allowed) && (!allowed || reply == Refused ==> t1 == t)
  {
  }

  /** The baseline makes its five calls in order and stops at the first that does not answer. */
  lemma BaselineMeans(known: set<string>, t: Tenant, o: string, replies: Replies)
    ensures var (t1, ok) := BaselineFrom(known, t, DefineAdmin, o, replies);
            var a, b, c, d := replies(DefineAdmin).Done?, replies(DefineService).Done?, replies(DefinePolicy).Done?,
              replies(Publish).Done?;
            && (ok <==> a && b && c && d && replies(Configure).Done?)
            && (t1.adminRole <==> t.adminRole || !replies(DefineAdmin).Refused?)
            && (t1.serviceRole <==> t.serviceRole || (a && !replies(DefineService).Refused?))
            && (t1.policy <==> t.policy || (a && b && !replies(DefinePolicy).Refused?))
            && t1.versions == t.versions + (if a && b && c && !replies(Publish).Refused? then 1 else 0)
            && (t1.profile <==> t.profile || (a && b && c && d && !replies(Configure).Refused?))
            && t1.principals == t.principals && t1.assignments == t.assignments && t1.grants == t.grants
  {
    var t1 := Called(known, t, DefineAdmin, o, replies(DefineAdmin)).0;
    var t2 := Called(known, t1, DefineService, o, replies(DefineService)).0;
    var t3 := Called(known, t2, DefinePolicy, o, replies(DefinePolicy)).0;
    var t4 := Called(known, t3, Publish, o, replies(Publish)).0;
    if replies(DefineAdmin).Done? {
      assert BaselineFrom(known, t, DefineAdmin, o, replies) == BaselineFrom(known, t1, DefineService, o, replies);
      if replies(DefineService).Done? {
        assert BaselineFrom(known, t1, DefineService, o, replies) == BaselineFrom(known, t2, DefinePolicy, o, replies);
        if replies(DefinePolicy).Done? {
          assert BaselineFrom(known, t2, DefinePolicy, o, replies) == BaselineFrom(known, t3, Publish, o, replies);
          if replies(Publish).Done? {
            assert BaselineFrom(known, t3, Publish, o, replies) == BaselineFrom(known, t4, Configure, o, replies);
          }
        }
      }
    }
  }

  function Once(m: map<string, nat>, o: string): map<string, nat> { if Count(m, o) == 0 then Bump(m, o) else m }

  /** What a run without an outage leaves for the tenant and the owner it names. */
  function Provisioned(known: set<string>, t: Tenant, owner: Option<string>): Tenant {
    var base := t.(adminRole := true, serviceRole := true, policy := true, profile := true, versions := t.versions + 1);
    if owner.None? then base
    else
      var o := owner.value;
      var able := o in known || o in t.principals;
      base.(principals := if able then t.principals + {o} else t.principals,
            assignments := if able then Once(t.assignments, o) else t.assignments, grants := Once(t.grants, o))
  }

  /**
   * When every call answers, a run brings any stored state, bare or half done, to what it should be: missing pieces
   * are added once and nothing else changes but the policy version. It reports complete unless the owner is neither
   * registered nor known, and then the owner's registration is what is missing, with its error.
   */
  lemma RunWithoutOutage(known: set<string>, t: Tenant, tenant: string, owner: Option<string>, replies: Replies)
    requires forall call :: replies(call) == Done
    ensures var (t1, result) := RunAlone(known, t, Begun(tenant, owner), replies);
            && t1 == Provisioned(known, t, owner) && result.Reported? && result.report.tenant == tenant
            && result.report.owner == owner
            && (owner.None? || owner.value in known || owner.value in t.principals ==>
                  result.report.complete && result.report.clean)
            && (owner.Some? && owner.value !in known && owner.value !in t.principals ==>
                  !result.report.complete && !result.report.clean && OwnerPrincipal in result.report.missing
                  && Line(OwnerPrincipal, false, true) in result.report.lines)
  {
    var w := Begun(tenant, owner);
    var base := t.(adminRole := true, serviceRole := true, policy := true, profile := true, versions := t.versions + 1);
    BaselineMeans(known, t, OwnerName(w), replies);
    assert BaselineFrom(known, t, DefineAdmin, OwnerName(w), replies) == (base, true);
    BootstrapAlone(known, t, w, replies);
    var w1 := AfterBootstrap(w, true);
    if owner.Some? { OwnerRun(known, base, w1, replies); } else { Reads(known, base, w1, replies); }
  }

  lemma Reads(known: set<string>, t: Tenant, w: Work, replies: Replies)
    requires w.call.ReadReport? && replies(ReadReport) == Done
    ensures RunAlone(known, t, w, replies) == (t, Reported(ReportOf(t, w)))
    ensures ReportOf(t, w).complete <==>
              && t.adminRole && t.serviceRole && t.policy && t.versions > 0 && t.profile
              && (w.owner.Some? ==>
                    w.owner.value in t.principals && Count(t.assignments, w.owner.value) > 0
                    && Count(t.grants, w.owner.value) > 0)
  {
    CompleteMeans(t, w);
  }

  lemma OwnerRun(known: set<string>, t: Tenant, w: Work, replies: Replies)
    requires w.owner.Some? && w.call.ReadOwner? && w.clean && w.errors == {} && forall call :: replies(call) == Done
    requires t.adminRole && t.serviceRole && t.policy && t.versions > 0 && t.profile
    ensures var (t1, result) := RunAlone(known, t, w, replies);
            var o := w.owner.value;
            var able := o in known || o in t.principals;
            && t1 == t.(principals := if able then t.principals + {o} else t.principals,
                        assignments := if able then Once(t.assignments, o)
                          else t.assignments, grants := Once(t.grants, o))
            && result.Reported? && result.report.tenant == w.tenant && result.report.owner == w.owner
            && (able ==> result.report.complete && result.report.clean)
            && (!able ==>
                  !result.report.complete && !result.report.clean && OwnerPrincipal in result.report.missing
                  && Line(OwnerPrincipal, false, true) in result.report.lines)
  {
    var o := w.owner.value;
    var able := o in known || o in t.principals;
    var w3 := w.(call := Register, state := OwnerOf(t, o));
    AloneGoesOn(known, t, w, replies, t, w3);
    var t2 := if able then t.(principals := t.principals + {o}) else t;
    assert o in t.principals ==> t.principals + {o} == t.principals;
    var w2 := if able then w3.(call := Assign) else w3.(call := Grant, errors := {OwnerPrincipal}, clean := false);
    assert w3.errors + {OwnerPrincipal} == {OwnerPrincipal};
    AloneGoesOn(known, t, w3, replies, t2, w2);
    var t1 := if able then t2.(assignments := Once(t.assignments, o)) else t2;
    var w1 := w2.(call := Grant);
    if able { AloneGoesOn(known, t2, w2, replies, t1, w1); }
    GrantRun(known, t1, w1, replies);
    if !able { MissingOwner(t1.(grants := Once(t1.grants, o)), w1.(call := ReadReport)); }
  }

  lemma GrantRun(known: set<string>, t: Tenant, w: Work, replies: Replies)
    requires w.owner.Some? && w.call.Grant? && w.state.grants == Count(t.grants, w.owner.value) && forall call ::
             replies(call) == Done
    ensures var t1 := t.(grants := Once(t.grants, w.owner.value));
            RunAlone(known, t, w, replies) == (t1, Reported(ReportOf(t1, w.(call := ReadReport))))
    ensures var t1 := t.(grants := Once(t.grants, w.owner.value));
            ReportOf(t1, w.(call := ReadReport)).complete <==>
              && t.adminRole && t.serviceRole && t.policy && t.versions > 0 && t.profile
              && w.owner.value in t.principals && Count(t.assignments, w.owner.value) > 0
  {
    var t1, w1 := t.(grants := Once(t.grants, w.owner.value)), w.(call := ReadReport);
    AloneGoesOn(known, t, w, replies, t1, w1);
    Reads(known, t1, w1, replies);
  }

  lemma MissingOwner(t: Tenant, w: Work)
    requires w.owner.Some? && w.owner.value !in t.principals && OwnerPrincipal in w.errors
    ensures OwnerPrincipal in ReportOf(t, w).missing && Line(OwnerPrincipal, false, true) in ReportOf(t, w).lines
  {
    var steps := StepsOf(w.owner);
    ReportIsExact(t, w);
    assert OwnerPrincipal in steps by { assert steps[3] == OwnerPrincipal; }
    assert ReportOf(t, w).lines[3] == Line(OwnerPrincipal, false, true);
  }
}
