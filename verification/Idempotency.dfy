/**
 * The Idempotency-Key step of the HTTP pipeline, for one cache key: look for a snapshot, claim the
 * key, run the handler, write the snapshot, and release the claim when either of the last two fails.
 * Concurrent requests interleave at every port call.
 *
 * The ports are two stores: claims and snapshots. The runtime wires both to one Redis client under
 * the same key, so `shared` selects that wiring: a claim token and a snapshot then occupy one slot,
 * and reading a token as a snapshot fails to decode.
 */
module Idempotency {
  import opened Common

  type Response = int

  datatype Claim = Claim(owner: nat, expiresAt: int)
  datatype Snapshot = Snapshot(response: Response, expiresAt: int)

  datatype Stores = Stores(shared: bool, claim: Option<Claim>, snapshot: Option<Snapshot>)

  datatype Lookup = Miss | Found(response: Response) | Undecodable

  predicate ClaimLive(s: Stores, now: int) {
    s.claim.Some? && now < s.claim.value.expiresAt
  }

  predicate SnapshotLive(s: Stores, now: int) {
    s.snapshot.Some? && now < s.snapshot.value.expiresAt
  }

  function Look(s: Stores, now: int): Lookup {
    if SnapshotLive(s, now) then Found(s.snapshot.value.response)
    else if s.shared && ClaimLive(s, now) then Undecodable
    else Miss
  }

  /** `SET key token EX ttl NX`. */
  predicate CanClaim(s: Stores, now: int) {
    !ClaimLive(s, now) && !(s.shared && SnapshotLive(s, now))
  }

  function Claimed(s: Stores, owner: nat, ttl: int, now: int): Stores {
    if !CanClaim(s, now) then s
    else Stores(s.shared, Some(Claim(owner, now + ttl)), if s.shared then None else s.snapshot)
  }

  /** Writing the snapshot overwrites the token when both live under one key. */
  function Stored(s: Stores, v: Response, ttl: int, now: int): Stores {
    Stores(s.shared, if s.shared then None else s.claim, Some(Snapshot(v, now + ttl)))
  }

  function Released(s: Stores, owner: nat, now: int): Stores {
    if ClaimLive(s, now) && s.claim.value.owner == owner then s.(claim := None) else s
  }

  // ---------------------------------------------------------------------------
  // Runs
  // ---------------------------------------------------------------------------

  datatype Event =
    | Get(id: nat, now: int)
    | TryClaim(id: nat, now: int)
    | HandlerReturns(id: nat, response: Response, now: int)
    | HandlerThrows(id: nat, now: int)
    | SetSucceeds(id: nat, now: int)
    | SetFails(id: nat, written: bool, now: int)
    | Release(id: nat, now: int)
    | ReleaseFails(id: nat, now: int)
    | Crash(id: nat, now: int)

  datatype Answer = Fresh(response: Response) | Replay(response: Response) | Conflict | Failed | DecodeFailure

  datatype Phase = Missed | Executing | Returned(response: Response) | Failing | Answered | Crashed

  /** `claims` remembers when each request claimed; `released` those that gave their claim back. */
  datatype World = World(
    stores: Stores, phases: map<nat, Phase>, claims: map<nat, int>, released: set<nat>,
    log: seq<(nat, Answer)>, completed: seq<nat>)

  function Init(shared: bool): World {
    World(Stores(shared, None, None), map[], map[], {}, [], [])
  }

  function Reply(w: World, id: nat, a: Answer): World {
    w.(phases := w.phases[id := Answered], log := w.log + [(id, a)])
  }

  predicate At(w: World, id: nat, p: Phase) {
    id in w.phases && w.phases[id] == p
  }

  /** One event; an event for a request that is not at that point changes nothing. */
  function Step(w: World, ttl: int, e: Event): World {
    match e
    case Get(id, now) =>
      if id in w.phases then w
      else (match Look(w.stores, now)
            case Found(v) => Reply(w, id, Replay(v))
            case Undecodable => Reply(w, id, DecodeFailure)
            case Miss => w.(phases := w.phases[id := Missed]))
    case TryClaim(id, now) =>
      if !At(w, id, Missed) then w
      else if CanClaim(w.stores, now)
      then w.(stores := Claimed(w.stores, id, ttl, now), phases := w.phases[id := Executing],
              claims := w.claims[id := now])
      else Reply(w, id, Conflict)
    case HandlerReturns(id, v, now) =>
      if At(w, id, Executing) then w.(phases := w.phases[id := Returned(v)], completed := w.completed + [id]) else w
    case HandlerThrows(id, now) =>
      if At(w, id, Executing) then w.(phases := w.phases[id := Failing]) else w
    case SetSucceeds(id, now) =>
      if id in w.phases && w.phases[id].Returned?
      then Reply(w.(stores := Stored(w.stores, w.phases[id].response, ttl, now)), id, Fresh(w.phases[id].response))
      else w
    case SetFails(id, written, now) =>
      if id in w.phases && w.phases[id].Returned?
      then w.(stores := if written then Stored(w.stores, w.phases[id].response, ttl, now) else w.stores,
              phases := w.phases[id := Failing])
      else w
    case Release(id, now) =>
      if At(w, id, Failing)
      then Reply(w.(stores := Released(w.stores, id, now), released := w.released + {id}), id, Failed)
      else w
    case ReleaseFails(id, now) =>
      if At(w, id, Failing) then Reply(w, id, Failed) else w
    case Crash(id, now) =>
      if id in w.phases && !w.phases[id].Answered? then w.(phases := w.phases[id := Crashed]) else w
  }

  /** What the collaborators of one request do: the handler, the snapshot write, the release. */
  datatype HandlerOutcome = Returns(response: Response) | Throws
  datatype WriteOutcome = Written | FailedUnwritten | FailedWritten

  /** One request from start to end with nobody in between, as steps of the protocol. */
  function Alone(s: Stores, ttl: int, id: nat, h: HandlerOutcome, o: WriteOutcome, freed: bool, now: int): World {
    var w1 := Step(World(s, map[], map[], {}, [], []), ttl, Get(id, now));
    var w2 := Step(w1, ttl, TryClaim(id, now));
    var w3 := Step(w2, ttl, if h.Returns? then HandlerReturns(id, h.response, now) else HandlerThrows(id, now));
    var w4 := Step(w3, ttl, if o.Written? then SetSucceeds(id, now) else SetFails(id, o.FailedWritten?, now));
    Step(w4, ttl, if freed then Release(id, now) else ReleaseFails(id, now))
  }

  /** The step as the pipeline writes it, over the stores it is given. */
  class IdempotentRoute {
    const ttl: int
    var stores: Stores

    constructor (ttl: int, shared: bool)
      ensures this.ttl == ttl && stores == Stores(shared, None, None)
    {
      this.ttl, stores := ttl, Stores(shared, None, None);
    }

    method Execute(id: nat, handler: HandlerOutcome, write: WriteOutcome, freed: bool, now: int) returns (a: Answer)
      modifies this`stores
      ensures var w := Alone(old(stores), ttl, id, handler, write, freed, now);
              stores == w.stores && w.log == [(id, a)]
    {
      ghost var w1 := Step(World(stores, map[], map[], {}, [], []), ttl, Get(id, now));
      var replay := Look(stores, now);
      if replay.Found? {
        return Replay(replay.response);
      }
      if replay.Undecodable? {
        return DecodeFailure;
      }
      if !CanClaim(stores, now) {
        return Conflict;
      }
      stores := Claimed(stores, id, ttl, now);
      ghost var w2 := Step(w1, ttl, TryClaim(id, now));
      assert w2.stores == stores && At(w2, id, Executing) && w2.log == [];
      if handler.Returns? {
        if !write.FailedUnwritten? {
          stores := Stored(stores, handler.response, ttl, now);
        }
        if write.Written? {
          return Fresh(handler.response);
        }
      }
      if freed {
        stores := Released(stores, id, now);
      }
      return Failed;
    }
  }

  function Run(shared: bool, ttl: int, evs: seq<Event>): World {
    if evs == [] then Init(shared) else Step(Run(shared, ttl, evs[..|evs| - 1]), ttl, evs[|evs| - 1])
  }

  ghost predicate Monotone(evs: seq<Event>) {
    forall a, b | 0 <= a < b < |evs| :: evs[a].now <= evs[b].now
  }

  // ---------------------------------------------------------------------------
  // Within one claim lifetime
  // ---------------------------------------------------------------------------

  /** Every event falls in one interval no longer than a claim's time to live. */
  ghost predicate Within(evs: seq<Event>, start: int, ttl: int) {
    forall k | 0 <= k < |evs| :: start <= evs[k].now < start + ttl
  }

  ghost predicate NoSetFailure(evs: seq<Event>) {
    forall k | 0 <= k < |evs| :: !evs[k].SetFails?
  }

  /** What may be answered before anything has been computed, and after `v` has. */
  predicate Before(shared: bool, a: Answer) {
    a == Conflict || a == Failed || (shared && a == DecodeFailure)
  }

  predicate After(v: Response, a: Answer) {
    a == Conflict || a == Replay(v)
  }

  /** The log of answers: rejections, then the one computed answer, then replays of it and 409s. */
  ghost predicate Undecided(shared: bool, log: seq<(nat, Answer)>) {
    forall k | 0 <= k < |log| :: Before(shared, log[k].1)
  }

  ghost predicate Decided(shared: bool, log: seq<(nat, Answer)>, p: nat) {
    && p < |log| && log[p].1.Fresh?
    && (forall k | 0 <= k < p :: Before(shared, log[k].1))
    && (forall k | p < k < |log| :: After(log[p].1.response, log[k].1))
  }

  predicate Busy(p: Phase) { p.Executing? || p.Returned? || p.Failing? }

  ghost predicate StoresOk(shared: bool, horizon: int, w: World) {
    && w.stores.shared == shared
    && (w.stores.claim.Some? ==> w.stores.claim.value.expiresAt >= horizon)
    && (w.stores.snapshot.Some? ==> w.stores.snapshot.value.expiresAt >= horizon && (!shared ==> w.stores.claim.Some?))
    && (forall id | id in w.phases && Busy(w.phases[id]) ::
          w.stores.snapshot.None? && w.stores.claim.Some? && w.stores.claim.value.owner == id)
  }

  ghost predicate LogShape(shared: bool, w: World) {
    && (w.stores.snapshot.None? ==> Undecided(shared, w.log))
    && (w.stores.snapshot.Some? ==>
          exists p: nat :: Decided(shared, w.log, p) && w.log[p].1.response == w.stores.snapshot.value.response)
  }

  ghost predicate OneCompletion(w: World) {
    && |w.completed| <= 1
    && (w.completed != [] ==>
          var id := w.completed[0];
          && id in w.phases && !w.phases[id].Executing? && !w.phases[id].Failing?
          && (w.stores.snapshot.Some? || (w.stores.claim.Some? && w.stores.claim.value.owner == id)))
  }

  ghost predicate Inv(shared: bool, start: int, ttl: int, w: World) {
    StoresOk(shared, start + ttl, w) && LogShape(shared, w) && OneCompletion(w)
  }

  lemma {:induction false} Invariant(shared: bool, start: int, ttl: int, evs: seq<Event>)
    requires Within(evs, start, ttl) && NoSetFailure(evs)
    ensures Inv(shared, start, ttl, Run(shared, ttl, evs))
  {
    if evs != [] {
      var p := evs[..|evs| - 1];
      Invariant(shared, start, ttl, p);
      var e := evs[|evs| - 1];
      assert start <= e.now < start + ttl && !e.SetFails?;
      StoresKept(shared, start, ttl, Run(shared, ttl, p), e);
      LogShapeKept(shared, start, ttl, Run(shared, ttl, p), e);
      OneCompletionKept(shared, start, ttl, Run(shared, ttl, p), e);
    }
  }

  lemma StoresKept(shared: bool, start: int, ttl: int, w: World, e: Event)
    requires StoresOk(shared, start + ttl, w) && start <= e.now < start + ttl && !e.SetFails?
    ensures StoresOk(shared, start + ttl, Step(w, ttl, e))
  {
  }

  lemma LogShapeKept(shared: bool, start: int, ttl: int, w: World, e: Event)
    requires StoresOk(shared, start + ttl, w) && LogShape(shared, w) && start <= e.now < start + ttl && !e.SetFails?
    ensures LogShape(shared, Step(w, ttl, e))
  {
    var w' := Step(w, ttl, e);
    if w.stores.snapshot.Some? {
      var p: nat :| Decided(shared, w.log, p) && w.log[p].1.response == w.stores.snapshot.value.response;
      assert w'.stores.snapshot == w.stores.snapshot;
      assert Decided(shared, w'.log, p);
    } else if w'.stores.snapshot.Some? {
      assert e.SetSucceeds?;
      assert Decided(shared, w'.log, |w.log|);
    }
  }

  lemma OneCompletionKept(shared: bool, start: int, ttl: int, w: World, e: Event)
    requires StoresOk(shared, start + ttl, w) && OneCompletion(w) && start <= e.now < start + ttl && !e.SetFails?
    ensures OneCompletion(Step(w, ttl, e))
  {
  }

  /**
   * Within one claim lifetime, whatever the interleaving, handler failures and crashes: the handler
   * returns normally at most once, at most one request is answered with a computed response, and
   * every answer after it is its replay or a 409. It needs only that snapshot writes succeed.
   */
  lemma ExecutedAtMostOnce(shared: bool, ttl: int, evs: seq<Event>, start: int)
    requires Within(evs, start, ttl) && NoSetFailure(evs)
    ensures var w := Run(shared, ttl, evs);
            && |w.completed| <= 1
            && (forall p, k | 0 <= p < k < |w.log| && w.log[p].1.Fresh? :: After(w.log[p].1.response, w.log[k].1))
            && (forall k | 0 <= k < |w.log| && w.log[k].1.Replay? ::
                  exists p :: 0 <= p < k && w.log[p].1 == Fresh(w.log[k].1.response))
  {
    Invariant(shared, start, ttl, evs);
    AnswersFollow(shared, Run(shared, ttl, evs));
  }

  lemma AnswersFollow(shared: bool, w: World)
    requires LogShape(shared, w)
    ensures forall p, k | 0 <= p < k < |w.log| && w.log[p].1.Fresh? :: After(w.log[p].1.response, w.log[k].1)
    ensures forall k | 0 <= k < |w.log| && w.log[k].1.Replay? ::
              exists p :: 0 <= p < k && w.log[p].1 == Fresh(w.log[k].1.response)
  {
    if w.stores.snapshot.Some? {
      var p: nat :| Decided(shared, w.log, p) && w.log[p].1.response == w.stores.snapshot.value.response;
      forall k | 0 <= k < |w.log| && w.log[k].1.Replay?
        ensures exists p :: 0 <= p < k && w.log[p].1 == Fresh(w.log[k].1.response)
      {
        assert p < k && w.log[p].1 == Fresh(w.log[k].1.response);
      }
    }
  }

  lemma RunAppend(shared: bool, ttl: int, evs: seq<Event>, e: Event)
    ensures Run(shared, ttl, evs + [e]) == Step(Run(shared, ttl, evs), ttl, e)
  {
    assert (evs + [e])[..|evs|] == evs;
  }

  /** After a failed snapshot write and the release: no claim, and a snapshot exactly if the write landed. */
  lemma FailedWrite(shared: bool, ttl: int, evs: seq<Event>, start: int, now: int, id: nat, landed: bool)
    requires Within(evs, start, ttl) && NoSetFailure(evs) && start <= now < start + ttl
    requires var w := Run(shared, ttl, evs); id in w.phases && w.phases[id].Returned?
    ensures var w, w2 := Run(shared, ttl, evs),
            Run(shared, ttl, evs + [SetFails(id, landed, now)] + [Release(id, now)]);
            && w2.stores.shared == shared && w2.stores.claim.None? && w2.completed == w.completed
            && (if landed then SnapshotLive(w2.stores, now) else w2.stores.snapshot.None?)
            && forall k | k != id ::
            (k in w2.phases <==> k in w.phases)
            && (k in w.phases ==> w2.phases[k] == w.phases[k])
  {
    Invariant(shared, start, ttl, evs);
    RunAppend(shared, ttl, evs, SetFails(id, landed, now));
    RunAppend(shared, ttl, evs + [SetFails(id, landed, now)], Release(id, now));
  }

  /**
   * The condition is exact. From any point at which a handler has returned, a failed snapshot write lets a
   * request that comes afterwards, inside the same lifetime, run the handler to completion again if and only if
   * the failed write did not land; if it did, that request gets the replay.
   */
  lemma SetFailureRepeatsTheHandler(shared: bool, ttl: int, evs: seq<Event>, start: int, now: int, id: nat, j: nat,
      v: Response, landed: bool)
    requires Within(evs, start, ttl) && NoSetFailure(evs) && start <= now < start + ttl
    requires var w := Run(shared, ttl, evs); id in w.phases && w.phases[id].Returned? && j !in w.phases
    ensures var more := evs + [SetFails(id, landed, now)] + [Release(id, now)] + [Get(j, now)] + [TryClaim(j, now)]
                        + [HandlerReturns(j, v, now)];
            && Within(more, start, ttl)
            && Run(shared, ttl, more).completed == Run(shared, ttl, evs).completed + (if landed then [] else [j])
  {
    FailedWrite(shared, ttl, evs, start, now, id, landed);
    var e2 := evs + [SetFails(id, landed, now)] + [Release(id, now)];
    var e3 := e2 + [Get(j, now)];
    var e4 := e3 + [TryClaim(j, now)];
    RunAppend(shared, ttl, e2, Get(j, now));
    RunAppend(shared, ttl, e3, TryClaim(j, now));
    RunAppend(shared, ttl, e4, HandlerReturns(j, v, now));
  }

  /**
   * A request that had already missed when the write failed runs the handler again even if the write landed,
   * unless claim and snapshot share one key, where the landed snapshot keeps the claim from being taken.
   */
  lemma WaitingRequestRepeatsTheHandler(shared: bool, ttl: int, evs: seq<Event>, start: int, now: int, id: nat,
      j: nat, v: Response, landed: bool)
    requires Within(evs, start, ttl) && NoSetFailure(evs) && start <= now < start + ttl
    requires var w := Run(shared, ttl, evs);
             id in w.phases && w.phases[id].Returned? && j in w.phases && w.phases[j].Missed?
    ensures var more := evs + [SetFails(id, landed, now)] + [Release(id, now)] + [TryClaim(j, now)]
            + [HandlerReturns(j, v, now)];
            && Within(more, start, ttl)
            && Run(shared, ttl, more).completed == Run(shared, ttl, evs).completed
                 + (if landed && shared then [] else [j])
  {
    FailedWrite(shared, ttl, evs, start, now, id, landed);
    var e2 := evs + [SetFails(id, landed, now)] + [Release(id, now)];
    var e3 := e2 + [TryClaim(j, now)];
    RunAppend(shared, ttl, e2, TryClaim(j, now));
    RunAppend(shared, ttl, e3, HandlerReturns(j, v, now));
  }

  /**
   * A duplicate that arrives while the first request is still running. With the two stores apart it
   * is told 409. Wired to one key it never gets that far: the token under the key is not a snapshot,
   * and the lookup itself fails.
   */
  lemma DuplicateInFlight(shared: bool, ttl: int, evs: seq<Event>, start: int, now: int, id: nat, j: nat)
    requires Within(evs, start, ttl) && NoSetFailure(evs) && start <= now < start + ttl
    requires var w := Run(shared, ttl, evs); id in w.phases && Busy(w.phases[id]) && j !in w.phases
    ensures var w := Run(shared, ttl, evs);
            var w1 := Step(w, ttl, Get(j, now));
            && (shared ==> w1.log == w.log + [(j, DecodeFailure)])
            && (!shared ==> Step(w1, ttl, TryClaim(j, now)).log == w.log + [(j, Conflict)])
  {
    Invariant(shared, start, ttl, evs);
  }

  // ---------------------------------------------------------------------------
  // Across claim lifetimes: any run with a monotone clock, any failures
  // ---------------------------------------------------------------------------

  /** The claim of a request that has not given it back, seen at time `now`. */
  ghost predicate Guarded(w: World, ttl: int, id: nat, now: int)
    requires id in w.claims
  {
    now < w.claims[id] + ttl ==>
      || w.stores.claim == Some(Claim(id, w.claims[id] + ttl))
      || (w.stores.shared && w.stores.snapshot.Some? && w.stores.snapshot.value.expiresAt >= w.claims[id] + ttl)
  }

  ghost predicate Apart(w: World, ttl: int, a: nat, b: nat)
    requires a in w.claims && b in w.claims
  {
    w.claims[a] + ttl <= w.claims[b] || w.claims[b] + ttl <= w.claims[a]
  }

  ghost predicate Placed(w: World, clock: int) {
    && (forall id | id in w.claims :: id in w.phases && w.phases[id] != Missed && w.claims[id] <= clock)
    && (forall id | id in w.phases && Busy(w.phases[id]) :: id in w.claims && id !in w.released)
    && (forall id | id in w.released :: At(w, id, Answered))
  }

  predicate Holds(w: World, id: nat) {
    id in w.claims && id !in w.released
  }

  ghost predicate AllGuarded(w: World, ttl: int, clock: int) {
    forall id | Holds(w, id) :: Guarded(w, ttl, id, clock)
  }

  ghost predicate AllApart(w: World, ttl: int) {
    forall a, b | Holds(w, a) && Holds(w, b) && a != b :: Apart(w, ttl, a, b)
  }

  ghost predicate LogOk(w: World) {
    && (forall k | 0 <= k < |w.log| :: At(w, w.log[k].0, Answered))
    && (forall k | 0 <= k < |w.log| && w.log[k].1.Fresh? :: Holds(w, w.log[k].0))
    && (forall p, k | 0 <= p < k < |w.log| :: w.log[p].0 != w.log[k].0)
  }

  ghost predicate LongInv(ttl: int, w: World, clock: int) {
    Placed(w, clock) && AllGuarded(w, ttl, clock) && AllApart(w, ttl) && LogOk(w)
  }

  lemma PlacedKept(ttl: int, w: World, e: Event, clock: int)
    requires Placed(w, clock) && clock <= e.now
    ensures Placed(Step(w, ttl, e), e.now)
  {
  }

  lemma GuardsKept(ttl: int, w: World, e: Event, clock: int)
    requires Placed(w, clock) && AllGuarded(w, ttl, clock) && clock <= e.now
    ensures AllGuarded(Step(w, ttl, e), ttl, e.now)
  {
    var w' := Step(w, ttl, e);
    forall id | Holds(w', id) ensures Guarded(w', ttl, id, e.now) {
      if Holds(w, id) {
        assert Guarded(w, ttl, id, clock) && w'.claims[id] == w.claims[id];
      }
    }
  }

  lemma ApartKept(ttl: int, w: World, e: Event, clock: int)
    requires Placed(w, clock) && AllGuarded(w, ttl, clock) && AllApart(w, ttl) && clock <= e.now
    ensures AllApart(Step(w, ttl, e), ttl)
  {
    var w' := Step(w, ttl, e);
    forall a, b | Holds(w', a) && Holds(w', b) && a != b ensures Apart(w', ttl, a, b) {
      if Holds(w, a) && Holds(w, b) {
        assert Apart(w, ttl, a, b) && w'.claims[a] == w.claims[a] && w'.claims[b] == w.claims[b];
      } else {
        var o := if Holds(w, a) then a else b;
        assert e.TryClaim? && CanClaim(w.stores, e.now) && Holds(w, o) && Guarded(w, ttl, o, clock);
        assert w'.claims[o] + ttl <= e.now;
      }
    }
  }

  lemma LogKept(ttl: int, w: World, e: Event, clock: int)
    requires Placed(w, clock) && LogOk(w)
    ensures LogOk(Step(w, ttl, e))
  {
  }

  lemma LongStep(ttl: int, w: World, e: Event, clock: int)
    requires LongInv(ttl, w, clock) && clock <= e.now
    ensures LongInv(ttl, Step(w, ttl, e), e.now)
  {
    GuardsKept(ttl, w, e, clock);
    ApartKept(ttl, w, e, clock);
    LogKept(ttl, w, e, clock);
    PlacedKept(ttl, w, e, clock);
  }

  lemma {:induction false} LongInvariant(shared: bool, ttl: int, evs: seq<Event>, clock: int)
    requires Monotone(evs) && (evs != [] ==> clock == evs[|evs| - 1].now)
    ensures LongInv(ttl, Run(shared, ttl, evs), clock)
  {
    if evs != [] {
      var p := evs[..|evs| - 1];
      LongInvariant(shared, ttl, p, if p == [] then clock else p[|p| - 1].now);
      LongStep(ttl, Run(shared, ttl, p), evs[|evs| - 1], if p == [] then clock else p[|p| - 1].now);
    }
  }

  /**
   * Over any run, under either wiring and with any failures: two requests answered with computed
   * responses are different requests whose claims lie at least one lifetime apart.
   */
  lemma ComputedAnswersAreALifetimeApart(shared: bool, ttl: int, evs: seq<Event>, p: nat, k: nat)
    requires Monotone(evs)
    requires var w := Run(shared, ttl, evs); p < k < |w.log| && w.log[p].1.Fresh? && w.log[k].1.Fresh?
    ensures var w := Run(shared, ttl, evs);
            var a, b := w.log[p].0, w.log[k].0;
            a != b && a in w.claims && b in w.claims && Apart(w, ttl, a, b)
  {
    LongInvariant(shared, ttl, evs, if evs == [] then 0 else evs[|evs| - 1].now);
  }
}
