/**
 * What calls of the tenant gate get, in every run: an answer or a read to wait for, always; the exempt tenant
 * without any read; and a fresh entry without another one.
 */
module TenantGateAnswers {
  import opened Common
  import opened TenantGate

  lemma RunStep(c: Config, evs: seq<Event>, n: nat)
    requires n < |evs|
    ensures Run(c, evs[..n + 1]) == Step(c, Run(c, evs[..n]), evs[..n + 1], n)
  {
    assert evs[..n + 1][..n] == evs[..n];
  }

  predicate SameCall(w: World, w': World, j: nat) {
    (j in w.calls <==> j in w'.calls) && (j in w.calls ==> w.calls[j] == w'.calls[j])
  }

  lemma StepCalls(c: Config, w: World, evs: seq<Event>, i: nat, j: nat)
    requires i < |evs| && i != j
    ensures SameCall(w, Step(c, w, evs, i), j)
  {
  }

  /** A call is recorded once, when it is made. */
  lemma {:induction false} CallStays(c: Config, evs: seq<Event>, j: nat)
    requires j < |evs|
    ensures SameCall(Run(c, evs[..j + 1]), Run(c, evs), j)
  {
    if j == |evs| - 1 {
      assert evs[..j + 1] == evs;
    } else {
      var n := |evs| - 1;
      CallStays(c, evs[..n], j);
      assert evs[..n][..j + 1] == evs[..j + 1];
      StepCalls(c, Run(c, evs[..n]), evs, n, j);
    }
  }

  /** Every call is answered at once or handed a read to wait for. */
  lemma EveryCallIsAnswered(c: Config, evs: seq<Event>, j: nat)
    requires j < |evs| && evs[j].Call?
    ensures j in Run(c, evs).calls
  {
    CallStays(c, evs, j);
    RunStep(c, evs, j);
    var w, t := Run(c, evs[..j]), evs[j].tenant;
    Invariant(c, evs[..j]);
    if t in w.gate.entries { assert EntryOk(c, evs[..j], w, t); }
    assert evs[..j + 1][j] == evs[j];
  }

  /** The exempt tenant, and no other, is answered `Active` without any read; an empty id exempts nobody. */
  lemma PlatformIsActive(c: Config, evs: seq<Event>, j: nat)
    requires j < |evs| && evs[j].Call?
    ensures j in Run(c, evs).calls
    ensures Run(c, evs).calls[j].Platform? <==> c.platformTenantId != "" && evs[j].tenant == c.platformTenantId
    ensures Run(c, evs).calls[j].Platform? ==> Run(c, evs).calls[j].value == Active
  {
    EveryCallIsAnswered(c, evs, j);
    CallStays(c, evs, j);
    RunStep(c, evs, j);
    assert evs[..j + 1][j] == evs[j];
    var w, t := Run(c, evs[..j]), evs[j].tenant;
    Invariant(c, evs[..j]);
    if t in w.gate.entries { assert EntryOk(c, evs[..j], w, t); }
  }

  /** The status of the exempt tenant is never read. */
  lemma {:induction false} PlatformIsNeverRead(c: Config, evs: seq<Event>, r: nat)
    requires c.platformTenantId != "" && r < |Run(c, evs).queries|
    ensures Run(c, evs).queries[r].tenant != c.platformTenantId
  {
    if evs != [] {
      var n := |evs| - 1;
      if r < |Run(c, evs[..n]).queries| { PlatformIsNeverRead(c, evs[..n], r); }
    }
  }

  /** The read at `r` has brought a value, and its tenant has not been invalidated since it began. */
  ghost predicate Brought(evs: seq<Event>, w: World, r: nat) {
    && r < |w.queries| && w.queries[r].value.Some? && (w.queries[r].phase == Fulfilled || w.queries[r].phase == Closed)
    && QuietSince(evs, w.queries[r].begun, w.queries[r].tenant)
  }

  /** Then the gate has an entry for its tenant that lasts at least as long. */
  ghost predicate Kept(c: Config, w: World, r: nat)
    requires r < |w.queries|
  {
    var rd := w.queries[r];
    rd.tenant in w.gate.entries && w.gate.entries[rd.tenant].expiresAt >= rd.resolvedAt + c.ttlMs
  }

  ghost predicate AllKept(c: Config, evs: seq<Event>, w: World) { forall r: nat | Brought(evs, w, r) :: Kept(c, w, r) }

  ghost predicate Resolved(w: World, clock: int) {
    forall r | 0 <= r < |w.queries| && (w.queries[r].phase == Fulfilled || w.queries[r].phase == Closed)
      && w.queries[r].value.Some? :: w.queries[r].resolvedAt <= clock
  }

  /** No timed event of the run is later than this. */
  ghost predicate Passed(evs: seq<Event>, clock: int) {
    forall i | 0 <= i < |evs| && IsTimed(evs[i]) :: TimeOf(evs[i]) <= clock
  }

  lemma ResolvedKept(c: Config, w: World, evs: seq<Event>, clock: int)
    requires evs != [] && Resolved(w, clock) && Passed(evs, clock) && ReadsOk(evs[..|evs| - 1], w)
    ensures Resolved(Step(c, w, evs, |evs| - 1), clock)
  {
    var e, w' := evs[|evs| - 1], Step(c, w, evs, |evs| - 1);
    assert IsTimed(e) ==> TimeOf(e) <= clock;
    forall r | 0 <= r < |w'.queries| && (w'.queries[r].phase == Fulfilled || w'.queries[r].phase == Closed)
      && w'.queries[r].value.Some? ensures w'.queries[r].resolvedAt <= clock {
      assert r < |w.queries| && QueryOk(evs[..|evs| - 1], w, r);
    }
  }

  lemma {:induction false} ResolvedAlways(c: Config, evs: seq<Event>, clock: int)
    requires Passed(evs, clock)
    ensures Resolved(Run(c, evs), clock)
  {
    if evs != [] {
      var n := |evs| - 1;
      assert forall i | 0 <= i < n :: evs[..n][i] == evs[i];
      ResolvedAlways(c, evs[..n], clock);
      Invariant(c, evs[..n]);
      ResolvedKept(c, Run(c, evs[..n]), evs, clock);
    }
  }

  lemma KeptStep(c: Config, evs: seq<Event>, w: World, r: nat)
    requires evs != [] && Inv(c, evs[..|evs| - 1], w) && AllKept(c, evs[..|evs| - 1], w)
    requires Monotone(evs) && (evs[|evs| - 1].Resolve? ==> Resolved(w, evs[|evs| - 1].now))
    requires Brought(evs, Step(c, w, evs, |evs| - 1), r)
    ensures Kept(c, Step(c, w, evs, |evs| - 1), r)
  {
    var n, e := |evs| - 1, evs[|evs| - 1];
    var w' := Step(c, w, evs, n);
    assert r < |w.queries|;
    assert QueryOk(evs[..n], w, r);
    QuietExtends(evs, w.queries[r].begun, w.queries[r].tenant);
    if e.Resolve? && e.read == r && w.queries[r].phase == Sampled {
      assert StillInFlight(w.gate, w.queries[r].tenant, r);
    } else {
      assert Brought(evs[..n], w, r);
      assert Kept(c, w, r);
    }
  }

  lemma TimedPart(evs: seq<Event>)
    requires evs != [] && Monotone(evs)
    ensures Monotone(evs[..|evs| - 1])
    ensures IsTimed(evs[|evs| - 1]) ==> Passed(evs[..|evs| - 1], TimeOf(evs[|evs| - 1]))
  {
    assert forall i | 0 <= i < |evs| - 1 :: evs[..|evs| - 1][i] == evs[i];
  }

  lemma {:induction false} KeptAlways(c: Config, evs: seq<Event>)
    requires Monotone(evs)
    ensures AllKept(c, evs, Run(c, evs))
  {
    if evs != [] {
      var n := |evs| - 1;
      var w := Run(c, evs[..n]);
      TimedPart(evs);
      KeptAlways(c, evs[..n]);
      Invariant(c, evs[..n]);
      if evs[n].Resolve? { ResolvedAlways(c, evs[..n], evs[n].now); }
      forall r: nat | Brought(evs, Run(c, evs), r) ensures Kept(c, Run(c, evs), r) { KeptStep(c, evs, w, r); }
    }
  }

  /**
   * The cache is used: a call made within the lifetime of a read that brought a value, its tenant not
   * invalidated since that read began, is answered from the cache and starts no read.
   */
  lemma FreshEntryIsServed(c: Config, evs: seq<Event>, e: Event, r: nat)
    requires Monotone(evs + [e]) && e.Call? && Brought(evs, Run(c, evs), r) && Run(c, evs).queries[r].tenant == e.tenant
    requires e.now < Run(c, evs).queries[r].resolvedAt + c.ttlMs
             && (c.platformTenantId == "" || e.tenant != c.platformTenantId)
    ensures var w, w' := Run(c, evs), Run(c, evs + [e]);
            |evs| in w'.calls && w'.calls[|evs|].Hit? && w'.queries == w.queries
  {
    var w := Run(c, evs);
    assert (evs + [e])[..|evs|] == evs;
    TimedPart(evs + [e]);
    KeptAlways(c, evs);
    Invariant(c, evs);
    assert Kept(c, w, r);
    assert EntryOk(c, evs, w, e.tenant);
  }
}
