/** What requests with an Idempotency-Key are told: the stored answer, the handler's own, or why there is none. */
module IdempotencyAnswers {
  import opened Common
  import opened Idempotency

  /**
   * A later request is replayed: within one lifetime, once some request was answered with a computed response,
   * every request that arrives afterwards gets that very response.
   */
  lemma LaterRequestIsReplayed(shared: bool, ttl: int, evs: seq<Event>, start: int, now: int, p: nat, v: Response,
      j: nat)
    requires Within(evs, start, ttl) && NoSetFailure(evs) && start <= now < start + ttl
    requires var w := Run(shared, ttl, evs); p < |w.log| && w.log[p].1 == Fresh(v) && j !in w.phases
    ensures Run(shared, ttl, evs + [Get(j, now)]).log == Run(shared, ttl, evs).log + [(j, Replay(v))]
  {
    var w := Run(shared, ttl, evs);
    Invariant(shared, start, ttl, evs);
    RunAppend(shared, ttl, evs, Get(j, now));
    assert !Before(shared, w.log[p].1);
    var q: nat :| Decided(shared, w.log, q) && w.log[q].1.response == w.stores.snapshot.value.response;
    assert p == q;
  }

  /** So is one that arrives after a snapshot write that failed but landed: it gets what the handler had returned. */
  lemma LandedWriteIsReplayed(shared: bool, ttl: int, evs: seq<Event>, start: int, now: int, id: nat, v: Response,
      j: nat)
    requires Within(evs, start, ttl) && NoSetFailure(evs) && start <= now < start + ttl
    requires var w := Run(shared, ttl, evs); id in w.phases && w.phases[id] == Returned(v) && j !in w.phases
    ensures Run(shared, ttl, evs + [SetFails(id, true, now)] + [Release(id, now)] + [Get(j, now)]).log
            == Run(shared, ttl, evs).log + [(id, Failed), (j, Replay(v))]
  {
    var a, b := evs + [SetFails(id, true, now)], evs + [SetFails(id, true, now)] + [Release(id, now)];
    Invariant(shared, start, ttl, evs);
    RunAppend(shared, ttl, evs, SetFails(id, true, now));
    RunAppend(shared, ttl, a, Release(id, now));
    RunAppend(shared, ttl, b, Get(j, now));
    assert Run(shared, ttl, b).log == Run(shared, ttl, evs).log + [(id, Failed)];
    assert Run(shared, ttl, evs).log + [(id, Failed)] + [(j, Replay(v))]
      == Run(shared, ttl, evs).log + [(id, Failed), (j, Replay(v))];
  }

  /** A handler that threw leaves the key free: after its release the next request runs the handler in turn. */
  lemma ThrowFreesTheKey(shared: bool, ttl: int, evs: seq<Event>, start: int, now: int, id: nat, v: Response, j: nat)
    requires Within(evs, start, ttl) && NoSetFailure(evs) && start <= now < start + ttl
    requires var w := Run(shared, ttl, evs); id in w.phases && w.phases[id] == Executing && j !in w.phases
    ensures var more := evs + [HandlerThrows(id, now)] + [Release(id, now)] + [Get(j, now)] + [TryClaim(j, now)]
                        + [HandlerReturns(j, v, now)] + [SetSucceeds(j, now)];
            Run(shared, ttl, more).log == Run(shared, ttl, evs).log + [(id, Failed), (j, Fresh(v))]
  {
    var e1 := evs + [HandlerThrows(id, now)];
    var e2 := e1 + [Release(id, now)];
    var e3 := e2 + [Get(j, now)];
    var e4 := e3 + [TryClaim(j, now)];
    var e5 := e4 + [HandlerReturns(j, v, now)];
    Invariant(shared, start, ttl, evs);
    RunAppend(shared, ttl, evs, HandlerThrows(id, now));
    RunAppend(shared, ttl, e1, Release(id, now));
    RunAppend(shared, ttl, e2, Get(j, now));
    assert At(Run(shared, ttl, e3), j, Missed) && CanClaim(Run(shared, ttl, e3).stores, now);
    RunAppend(shared, ttl, e3, TryClaim(j, now));
    RunAppend(shared, ttl, e4, HandlerReturns(j, v, now));
    RunAppend(shared, ttl, e5, SetSucceeds(j, now));
    assert Run(shared, ttl, e5).log == Run(shared, ttl, evs).log + [(id, Failed)];
    assert Run(shared, ttl, evs).log + [(id, Failed)] + [(j, Fresh(v))]
      == Run(shared, ttl, evs).log + [(id, Failed), (j, Fresh(v))];
  }

  /** The handler of this request returned this response. */
  ghost predicate HandledTo(evs: seq<Event>, id: nat, v: Response) {
    exists k :: 0 <= k < |evs| && evs[k].HandlerReturns? && evs[k].id == id && evs[k].response == v
  }

  ghost predicate Honest(w: World, evs: seq<Event>) {
    && (forall id | id in w.phases && w.phases[id].Returned? :: HandledTo(evs, id, w.phases[id].response))
    && (forall k | 0 <= k < |w.log| && w.log[k].1.Fresh? :: HandledTo(evs, w.log[k].0, w.log[k].1.response))
  }

  lemma HandledLonger(evs: seq<Event>, id: nat, v: Response)
    requires evs != [] && HandledTo(evs[..|evs| - 1], id, v)
    ensures HandledTo(evs, id, v)
  {
    var k :| 0 <= k < |evs| - 1 && evs[..|evs| - 1][k].HandlerReturns? && evs[..|evs| - 1][k].id == id
             && evs[..|evs| - 1][k].response == v;
    assert evs[k] == evs[..|evs| - 1][k];
  }

  /** In every run, whatever fails, a computed answer is what that request's own handler returned. */
  lemma {:induction false} AnswersAreTheHandlers(shared: bool, ttl: int, evs: seq<Event>)
    ensures Honest(Run(shared, ttl, evs), evs)
  {
    if evs != [] {
      var n := |evs| - 1;
      var w, e, w' := Run(shared, ttl, evs[..n]), evs[n], Run(shared, ttl, evs);
      AnswersAreTheHandlers(shared, ttl, evs[..n]);
      forall id, v | HandledTo(evs[..n], id, v) ensures HandledTo(evs, id, v) { HandledLonger(evs, id, v); }
      forall id | id in w'.phases && w'.phases[id].Returned? ensures HandledTo(evs, id, w'.phases[id].response) {
        if !(id in w.phases && w.phases[id] == w'.phases[id]) { assert evs[n] == e; }
      }
      forall k | 0 <= k < |w'.log| && w'.log[k].1.Fresh? ensures HandledTo(evs, w'.log[k].0, w'.log[k].1.response) {
        if k < |w.log| { assert w'.log[k] == w.log[k]; }
      }
    }
  }

  /** A request with nobody in between, in terms of what it finds under the key and what its handler does. */
  lemma AloneMeans(s: Stores, ttl: int, id: nat, h: HandlerOutcome, o: WriteOutcome, freed: bool, now: int)
    requires ttl > 0
    ensures var w := Alone(s, ttl, id, h, o, freed, now);
            var replay := s.snapshot.Some? && now < s.snapshot.value.expiresAt;
            var busy := s.claim.Some? && now < s.claim.value.expiresAt;
            && w.log == [(id,
                 if replay then Replay(s.snapshot.value.response)
                 else if busy then (if s.shared then DecodeFailure else Conflict)
                 else if h.Returns? && o.Written? then Fresh(h.response)
                 else Failed)]
            && (replay || busy ==> w.stores == s)
            && (!replay && !busy && h.Returns? && o != FailedUnwritten ==>
                  w.stores.snapshot == Some(Snapshot(h.response, now + ttl)))
            && (!replay && !busy && (h.Throws? || o == FailedUnwritten) ==>
                  w.stores.claim == if freed then None else Some(Claim(id, now + ttl)))
  {
    var w1 := Step(World(s, map[], map[], {}, [], []), ttl, Get(id, now));
    var w2 := Step(w1, ttl, TryClaim(id, now));
    var w3 := Step(w2, ttl, if h.Returns? then HandlerReturns(id, h.response, now) else HandlerThrows(id, now));
    var w4 := Step(w3, ttl, if o.Written? then SetSucceeds(id, now) else SetFails(id, o.FailedWritten?, now));
    if !SnapshotLive(s, now) && !ClaimLive(s, now) {
      assert At(w2, id, Executing) && w2.stores.claim == Some(Claim(id, now + ttl)) && w2.log == [];
      if h.Returns? { assert w3.phases[id] == Returned(h.response) && w3.log == []; }
      assert w4.log == if h.Returns? && o.Written? then [(id, Fresh(h.response))] else [];
    }
  }
}
