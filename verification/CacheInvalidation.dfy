/**
 * What an invalidation achieves in a run: everything of its own when the calls about a request come one at a
 * time, nothing beside what it covers, and exactly which older answers can come after it.
 */
module CacheInvalidation {
  import opened Common
  import opened EntitlementCache
  import opened CacheRuns
  import opened CacheIndexes

  lemma SerialCut(c: Config, evs: seq<Event>, me: nat, r: Request, n: nat)
    requires Serial(c, evs, me, r) && n <= |evs|
    ensures Serial(c, evs[..n], me, r) && (n < |evs| && Starts(evs[n], me, r) ==> Idle(Run(c, evs[..n]), me, r))
  {
    forall i | 0 <= i < n && Starts(evs[..n][i], me, r) ensures Idle(Run(c, evs[..n][..i]), me, r) {
      assert evs[..n][..i] == evs[..i] && evs[..n][i] == evs[i];
    }
  }

  lemma {:induction false} OrderlyAlways(c: Config, evs: seq<Event>, me: nat, r: Request)
    requires Timed(evs) && Serial(c, evs, me, r)
    ensures Orderly(c, Run(c, evs), me, r, Clock(evs))
  {
    if evs != [] {
      var n := |evs| - 1;
      TimedPrefix(evs);
      SerialCut(c, evs, me, r, n);
      OrderlyAlways(c, evs[..n], me, r);
      if !c.distributed { LocalOnly(c, evs[..n]); }
      OrderlyKept(c, Run(c, evs[..n]), evs[n], n, me, r, Clock(evs[..n]));
    }
  }

  /**
   * As long as the calls of an instance about a request come one at a time, its L1 entry is indexed under tenant and
   * feature, and between those calls so is every live L2 entry that it wrote.
   */
  lemma IndexesCover(c: Config, evs: seq<Event>, me: nat, r: Request)
    requires Timed(evs) && Serial(c, evs, me, r)
    ensures var w, k := Run(c, evs), KeyFor(r);
            && (k in Cache(w, me).l1 ==> Listed(Cache(w, me), r))
            && (Idle(w, me, r) && OwnFresh(w, me, k, Clock(evs)) ==> k in Cache(w, me).l1 && Listed(Cache(w, me), r))
  {
    OrderlyAlways(c, evs, me, r);
  }

  // ---------------------------------------------------------------------------
  // What is gone
  // ---------------------------------------------------------------------------

  /** With the last event of the run an invalidation of this instance that covers the request returns. */
  ghost predicate Returns(c: Config, evs: seq<Event>, me: nat, r: Request) {
    evs != [] && ReturnsAt(Run(c, evs[..|evs| - 1]), evs[|evs| - 1], Run(c, evs), me, r)
  }

  predicate ReturnsAt(w: World, e: Event, w': World, me: nat, r: Request) {
    && e.op !in w'.ops
    && if e.Drop? then e.op !in w.ops && e.who == me && KindCovers(e.kind, r) && KindOk(Cache(w, me), e.kind)
       else e.Resume? && e.op in w.ops && w.ops[e.op].task.Dropping? && Concerns(w.ops[e.op], me, r)
  }

  /**
   * One at a time: when the invalidation returns, nothing of the request is left in L1, nothing alive that this
   * instance wrote in L2, and no call of it is under way.
   */
  lemma InvalidationIsThorough(c: Config, evs: seq<Event>, me: nat, r: Request)
    requires Timed(evs) && Serial(c, evs, me, r) && Returns(c, evs, me, r)
    ensures var w := Run(c, evs);
            KeyFor(r) !in Cache(w, me).l1 && !OwnFresh(w, me, KeyFor(r), Clock(evs)) && Idle(w, me, r)
  {
    var n := |evs| - 1;
    var w, e := Run(c, evs[..n]), evs[n];
    TimedPrefix(evs);
    SerialCut(c, evs, me, r, n);
    OrderlyAlways(c, evs[..n], me, r);
    OthersStay(c, w, e, n);
    if e.Drop? {
      DropBegins(c, w, e, n, me, r, Clock(evs[..n]));
    } else {
      ResumeGoesOn(c, w, e, n, me, r, Clock(evs[..n]));
    }
  }

  /**
   * One at a time, exactly which older answers can follow: after the invalidation returns, the instance can yet answer
   * the request with a decision set before if and only if another instance's entry is alive in L2 or another
   * instance's set is on its way there.
   */
  lemma OlderAfterInvalidationIff(c: Config, evs: seq<Event>, me: nat, r: Request)
    requires Timed(evs) && Serial(c, evs, me, r) && Returns(c, evs, me, r)
    ensures var w, k := Run(c, evs), KeyFor(r);
            OldAnswerPossible(c, evs, me, r) <==>
              || (HasFresh2(w.l2, k, Clock(evs)) && w.l2[k].writer != me)
              || exists y | y in w.ops :: w.ops[y].who != me && Writes(w.ops[y], k)
  {
    var w := Run(c, evs);
    InvalidationIsThorough(c, evs, me, r);
    OldAnswerIff(c, evs, me, r);
    forall y | y in w.ops && w.ops[y].who == me ensures !Writes(w.ops[y], KeyFor(r))
      && !Brings(w.ops[y], me, KeyFor(r)) {
      assert !Concerns(w.ops[y], me, r);
      if (w.ops[y].task.Writing? || w.ops[y].task.Hearing?) && KeyFor(w.ops[y].task.request) == KeyFor(r) {
        SameRequest(w.ops[y].task.request, r);
      }
    }
  }

  /** All calls are made on one instance. */
  ghost predicate OneInstance(evs: seq<Event>, me: nat) {
    forall i | 0 <= i < |evs| && (evs[i].Lookup? || evs[i].Store? || evs[i].Drop?) :: evs[i].who == me
  }

  predicate AllMine(w: World, me: nat) {
    (forall y | y in w.ops :: w.ops[y].who == me) && forall k | k in w.l2 :: w.l2[k].writer == me
  }

  lemma {:induction false} OneWriter(c: Config, evs: seq<Event>, me: nat)
    requires OneInstance(evs, me)
    ensures AllMine(Run(c, evs), me)
  {
    if evs != [] {
      var n := |evs| - 1;
      var w, e := Run(c, evs[..n]), evs[n];
      assert OneInstance(evs[..n], me) by { assert forall i | 0 <= i < n :: evs[..n][i] == evs[i]; }
      OneWriter(c, evs[..n], me);
      OthersStay(c, w, e, n);
      MineMoves(c, w, e, n, me);
      forall k | k in Run(c, evs).l2 ensures Run(c, evs).l2[k].writer == me { L2Origin(c, w, e, n, k); }
    }
  }

  lemma MineMoves(c: Config, w: World, e: Event, i: nat, me: nat)
    requires e.op in w.ops ==> w.ops[e.op].who == me
    requires e.Lookup? || e.Store? || e.Drop? ==> e.who == me
    ensures e.op in Step(c, w, e, i).ops ==> Step(c, w, e, i).ops[e.op].who == me
  {
  }

  /**
   * So with a single instance up to the return, and its calls about the request one at a time, every later answer, of
   * whatever kind, was set after the invalidation had returned: no stale entry outlives it.
   */
  lemma AnswersAreNewerThanInvalidation(c: Config, evs: seq<Event>, more: seq<Event>, i: nat, me: nat, r: Request)
    requires Timed(evs + more) && OneInstance(evs, me) && Serial(c, evs, me, r) && Returns(c, evs, me, r)
    requires |evs| <= i && i in Run(c, evs + more).answers && Run(c, evs + more).answers[i].who == me
             && Run(c, evs + more).answers[i].request == r
    ensures Run(c, evs + more).answers[i].decision.serial >= |evs|
  {
    var w := Run(c, evs);
    TimedCut(evs + more, |evs|);
    assert (evs + more)[..|evs|] == evs;
    OneWriter(c, evs, me);
    OlderAfterInvalidationIff(c, evs, me, r);
    OldAnswerIff(c, evs, me, r);
    NothingOlder(c, evs, more, i, me, r);
  }

  // ---------------------------------------------------------------------------
  // What stays
  // ---------------------------------------------------------------------------

  lemma {:induction false} ApartAlways(c: Config, evs: seq<Event>, me: nat, r: Request)
    ensures Apart(Run(c, evs), me, r)
  {
    if evs != [] {
      ApartAlways(c, evs[..|evs| - 1], me, r);
      ApartKept(c, Run(c, evs[..|evs| - 1]), evs[|evs| - 1], |evs| - 1, me, r);
    }
  }

  /** The event is a step of an invalidation that does not cover the request. */
  predicate SweepsElsewhere(w: World, e: Event, r: Request) {
    if e.Drop? then e.op !in w.ops && !KindCovers(e.kind, r)
    else (e.Delete? || e.Resume?) && e.op in w.ops && w.ops[e.op].task.Dropping? && !Covers(w.ops[e.op].task.target, r)
  }

  /**
   * However calls overlap, an invalidation leaves every entry it does not cover in L1 and indexed, on every instance,
   * and in L2.
   */
  lemma InvalidationSparesTheRest(c: Config, evs: seq<Event>, e: Event, me: nat, r: Request)
    requires SweepsElsewhere(Run(c, evs), e, r)
    ensures var w, w', k := Run(c, evs), Run(c, evs + [e]), KeyFor(r);
            Quiet(Cache(w, me), Cache(w', me), r) && (k in w.l2 <==> k in w'.l2) && (k in w.l2 ==> w'.l2[k] == w.l2[k])
  {
    var w := Run(c, evs);
    RunSnoc(c, evs, e);
    ApartAlways(c, evs, me, r);
    ElsewhereCache(c, w, e, |evs|, me, r);
    if e.op in w.ops {
      ApartAlways(c, evs, w.ops[e.op].who, r);
      assert ApartOp(w.ops[e.op], w.ops[e.op].who, r);
    }
  }

  /**
   * What an invalidation leaves behind when its loop is over: the tenant's, or the feature's, list is gone, and only
   * that; a clear leaves nothing at all, not even what was set while it waited.
   */
  lemma EndMeans(s: State, x: Target)
    requires Proceed(s, x).1.None?
    ensures var s' := Proceed(s, x).0;
            && (x.OfTenant? ==> s'.l1 == s.l1 && s'.byFeature == s.byFeature && forall t, k: string ::
                  Lists(s'.byTenant, t, k) <==> t != x.tenant && Lists(s.byTenant, t, k))
            && (x.OfFeature? ==> s'.l1 == s.l1 && s'.byTenant == s.byTenant && forall f, k: string ::
                  Lists(s'.byFeature, f, k) <==> f != x.feature && Lists(s.byFeature, f, k))
            && (x.OfPair? ==> s' == s)
            && (x.OfAll? ==>
                  s'.l1 == map[] && forall y, k: string :: !Lists(s'.byTenant, y, k) && !Lists(s'.byFeature, y, k))
  {
  }

  // ---------------------------------------------------------------------------
  // A lookup right after
  // ---------------------------------------------------------------------------

  /** What a lookup with nothing in between answers. */
  function Answered(c: Config, s: State, l2: Shared, r: Request, now: int): Option<Decision> {
    var local := LookedLocally(s, KeyFor(r), r.tenant, r.feature, now).1;
    if local.Some? then local else if c.distributed then Fetch(l2, KeyFor(r), now) else None
  }

  /**
   * What the instance still answers right after it has invalidated a tenant, or a feature, with nothing in between:
   * exactly the live L2 entry whose key that index did not list, which another instance wrote.
   */
  lemma LookupAfterInvalidate(c: Config, evs: seq<Event>, me: nat, r: Request, byTenant: bool, now: int)
    requires Timed(evs) && Serial(c, evs, me, r) && Idle(Run(c, evs), me, r) && Clock(evs) <= now
    ensures var w, k := Run(c, evs), KeyFor(r);
            var s := Cache(w, me);
            var (s', l2') := Invalidated(c, s, w.l2,
              if byTenant then TenantTarget(s, r.tenant) else FeatureTarget(s, r.feature));
            var listed := if byTenant then Lists(s.byTenant, r.tenant, k) else Lists(s.byFeature, r.feature, k);
            && (Answered(c, s', l2', r, now).Some? <==> HasFresh2(w.l2, k, now) && !listed)
            && (Answered(c, s', l2', r, now).Some? ==>
                 Answered(c, s', l2', r, now).value == w.l2[k].decision && w.l2[k].writer != me)
  {
    var w, k := Run(c, evs), KeyFor(r);
    var s := Cache(w, me);
    var x := if byTenant then TenantTarget(s, r.tenant) else FeatureTarget(s, r.feature);
    OrderlyAlways(c, evs, me, r);
    InvalidatedIsExact(c, s, w.l2, x);
    AheadIsListed(s, r, byTenant);
  }

  lemma AheadIsListed(s: State, r: Request, byTenant: bool)
    ensures byTenant ==> (KeyFor(r) in Ahead(s, TenantTarget(s, r.tenant)) <==> Lists(s.byTenant, r.tenant, KeyFor(r)))
    ensures !byTenant ==>
            (KeyFor(r) in Ahead(s, FeatureTarget(s, r.feature)) <==> Lists(s.byFeature, r.feature, KeyFor(r)))
  {
    var l := if byTenant then List(s.byTenant, r.tenant, Current(s.byTenant, r.tenant))
      else List(s.byFeature, r.feature, Current(s.byFeature, r.feature));
    assert Some(KeyFor(r)) in l ==> exists j :: 0 <= j < |l| && l[j].Some? && l[j].value == KeyFor(r);
  }

  /** This instance has neither looked the request up nor set it. */
  ghost predicate Unseen(evs: seq<Event>, me: nat, r: Request) {
    forall i | 0 <= i < |evs| && (evs[i].Lookup? || evs[i].Store?) && evs[i].who == me :: evs[i].request != r
  }

  /** Such a request is listed nowhere, so neither invalidation reaches what other instances wrote of it. */
  lemma {:induction false} UnseenIsUnlisted(c: Config, evs: seq<Event>, me: nat, r: Request)
    requires Unseen(evs, me, r)
    ensures var s := Cache(Run(c, evs), me);
            Nowhere(s, KeyFor(r)) && !Lists(s.byTenant, r.tenant, KeyFor(r))
              && !Lists(s.byFeature, r.feature, KeyFor(r))
    ensures var w := Run(c, evs);
            forall y | y in w.ops && w.ops[y].who == me && !w.ops[y].task.Dropping? :: w.ops[y].task.request != r
  {
    if evs != [] {
      var n := |evs| - 1;
      var w, e := Run(c, evs[..n]), evs[n];
      assert Unseen(evs[..n], me, r) by { assert forall i | 0 <= i < n :: evs[..n][i] == evs[i]; }
      UnseenIsUnlisted(c, evs[..n], me, r);
      NowhereKept(c, w, e, n, me, r);
    }
    NowhereIsUnlisted(Cache(Run(c, evs), me), r);
  }

  ghost predicate NotHeld(m: Index, k: string) { forall x, gen: nat, i: nat :: !HoldsAt(m, x, gen, i, k) }

  ghost predicate Nowhere(s: State, k: string) { NotHeld(s.byTenant, k) && NotHeld(s.byFeature, k) }

  lemma AddNotHeld(m: Index, x: string, q: string, k: string)
    requires NotHeld(m, k) && q != k
    ensures NotHeld(Add(m, x, q), k)
  {
    forall y, gen: nat, i: nat ensures !HoldsAt(Add(m, x, q), y, gen, i, k) { assert !HoldsAt(m, y, gen, i, k); }
  }

  lemma RemoveNotHeld(m: Index, x: string, q: string, k: string)
    requires NotHeld(m, k)
    ensures NotHeld(Remove(m, x, q), k)
  {
    forall y, gen: nat, i: nat ensures !HoldsAt(Remove(m, x, q), y, gen, i, k) { assert !HoldsAt(m, y, gen, i, k); }
  }

  lemma DetachNotHeld(m: Index, x: string, k: string)
    requires NotHeld(m, k)
    ensures NotHeld(Detach(m, x), k) && NotHeld(DetachAll(m), k)
  {
    forall y, gen: nat, i: nat ensures !HoldsAt(Detach(m, x), y, gen, i, k) && !HoldsAt(DetachAll(m), y, gen, i, k) {
      assert !HoldsAt(m, y, gen, i, k);
    }
  }

  lemma NowhereIsUnlisted(s: State, r: Request)
    requires Nowhere(s, KeyFor(r))
    ensures !Lists(s.byTenant, r.tenant, KeyFor(r)) && !Lists(s.byFeature, r.feature, KeyFor(r))
  {
    var g, h := Current(s.byTenant, r.tenant), Current(s.byFeature, r.feature);
    if Lists(s.byTenant, r.tenant, KeyFor(r)) {
      var i :| 0 <= i < |List(s.byTenant, r.tenant, g)| && List(s.byTenant, r.tenant, g)[i] == Some(KeyFor(r));
      assert HoldsAt(s.byTenant, r.tenant, g, i, KeyFor(r));
    }
    if Lists(s.byFeature, r.feature, KeyFor(r)) {
      var i :| 0 <= i < |List(s.byFeature, r.feature, h)| && List(s.byFeature, r.feature, h)[i] == Some(KeyFor(r));
      assert HoldsAt(s.byFeature, r.feature, h, i, KeyFor(r));
    }
  }

  lemma NowhereKept(c: Config, w: World, e: Event, n: nat, me: nat, r: Request)
    requires Nowhere(Cache(w, me), KeyFor(r)) && ((e.Lookup? || e.Store?) && e.who == me ==> e.request != r)
    requires forall y | y in w.ops && w.ops[y].who == me && !w.ops[y].task.Dropping? :: w.ops[y].task.request != r
    ensures var w' := Step(c, w, e, n);
            && Nowhere(Cache(w', me), KeyFor(r))
            && forall y | y in w'.ops && w'.ops[y].who == me && !w'.ops[y].task.Dropping? :: w'.ops[y].task.request != r
  {
    var s, w', k := Cache(w, me), Step(c, w, e, n), KeyFor(r);
    CacheIs(c, w, e, n, me);
    OthersStay(c, w, e, n);
    if e.Lookup? && e.op !in w.ops && e.who == me {
      ForgetNowhere(s, e.request, k);
    } else if e.Store? && e.op !in w.ops && e.who == me {
      RememberNowhere(c, s, e.request, Decision(e.verdict, e.now, n), e.now, r);
    } else if e.Drop? {
      TurnNowhere(s, TargetOf(s, e.kind), k);
    } else if e.op in w.ops && w.ops[e.op].who == me {
      var task := w.ops[e.op].task;
      if e.Hear? && task.Hearing? && task.remote.Some? {
        RememberNowhere(c, s, task.request, task.remote.value, e.now, r);
      }
      if e.Resume? && task.Dropping? { TurnNowhere(s, task.target, k); }
    }
  }

  lemma RememberNowhere(c: Config, s: State, q: Request, d: Decision, now: int, r: Request)
    requires Nowhere(s, KeyFor(r)) && q != r
    ensures Nowhere(Remember(c, s, KeyFor(q), q.tenant, q.feature, d, now), KeyFor(r))
  {
    if KeyFor(q) == KeyFor(r) { SameRequest(q, r); }
    AddNotHeld(s.byTenant, q.tenant, KeyFor(q), KeyFor(r));
    AddNotHeld(s.byFeature, q.feature, KeyFor(q), KeyFor(r));
  }

  lemma ForgetNowhere(s: State, q: Request, k: string)
    requires Nowhere(s, k)
    ensures Nowhere(Forget(s, KeyFor(q), q.tenant, q.feature), k)
  {
    RemoveNotHeld(s.byTenant, q.tenant, KeyFor(q), k);
    RemoveNotHeld(s.byFeature, q.feature, KeyFor(q), k);
  }

  lemma TurnNowhere(s: State, x: Target, k: string)
    requires Nowhere(s, k)
    ensures Nowhere(Proceed(s, x).0, k)
  {
    match x
    case OfTenant(t, _, _) => DetachNotHeld(s.byTenant, t, k);
    case OfFeature(f, _, _) => DetachNotHeld(s.byFeature, f, k);
    case OfPair(_, _, _) =>
    case OfAll(_) => DetachNotHeld(s.byTenant, "", k); DetachNotHeld(s.byFeature, "", k);
  }
}
