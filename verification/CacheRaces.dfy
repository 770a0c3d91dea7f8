/**
 * Why the conditions of `CacheInvalidation` are there: runs in which an entry outlives an invalidation, between
 * instances, and on a single one when calls overlap.
 */
module CacheRaces {
  import opened Common
  import opened EntitlementCache
  import opened CacheRuns
  import opened CacheInvalidation
  import opened CacheAges

  function Expiry(c: Config, now: int): int { if c.ttlSeconds > 0 then now + TtlMs(c) else 0 }

  function Index1(x: string, k: string): Index { One(x, [Some(k)], true) }

  /** An index of one tenant or feature that has had one key set. */
  function One(x: string, l: KeyList, attached: bool): Index { map[x := Buckets([l], attached)] }

  lemma OneIndex(x: string, l: KeyList, attached: bool, k: string)
    ensures var m := One(x, l, attached);
            List(m, x, 0) == l && List(m, x, 1) == [] && Current(m, x) == (if attached then 0 else 1)
              && Detach(m, x) == One(x, l, false)
    ensures attached ==>
            Add(One(x, l, attached), x, k) == One(x, Insert(l, k), true)
            && Remove(One(x, l, attached), x, k) == One(x, Strike(l, k), true)
    ensures Add(map[], x, k) == Index1(x, k)
  {
    var lists := [l];
    assert lists[0 := Insert(l, k)] == [Insert(l, k)] && lists[0 := Strike(l, k)] == [Strike(l, k)];
    var m: Index := map[];
    assert m[x := Buckets([[Some(k)]], true)] == Index1(x, k);
    assert [] + [[Some(k)]] == [[Some(k)]];
  }

  /** Instance 0 holds one entry, and lists it under tenant and feature. */
  function Holding(r: Request, e: Entry): State {
    State(map[KeyFor(r) := e], Index1(r.tenant, KeyFor(r)), Index1(r.feature, KeyFor(r)))
  }

  lemma FirstStore(c: Config, x: nat, who: nat, r: Request, v: int)
    ensures Step(c, Start, Store(x, who, r, v, 0), 0)
      == World(map[who := Holding(r, Entry(Decision(v, 0, 0), Expiry(c, 0)))], map[],
        if c.distributed then map[x := Op(who, Writing(r, Decision(v, 0, 0)))] else map[], map[])
  {
    var e, k := Entry(Decision(v, 0, 0), Expiry(c, 0)), KeyFor(r);
    OneIndex(r.tenant, [], true, k);
    OneIndex(r.feature, [], true, k);
    assert Remember(c, Empty, k, r.tenant, r.feature, e.decision, 0) == Holding(r, e) by {
      assert Empty.l1[k := e] == map[k := e];
    }
  }

  // ---------------------------------------------------------------------------
  // A set during a sweep
  // ---------------------------------------------------------------------------

  function SweepStory(r: Request, v1: int, v2: int): seq<Event> {
    [Store(0, 0, r, v1, 0), Drop(1, 0, ByTenant(r.tenant), 0), Store(2, 0, r, v2, 0), Delete(1, 0), Resume(1, 0),
     Drop(3, 0, ByTenant(r.tenant), 0), Lookup(4, 0, r, 0)]
  }

  function Swept(r: Request, l1: map<string, Entry>, attached: bool): State {
    State(l1, One(r.tenant, [Some(KeyFor(r))], attached), Index1(r.feature, KeyFor(r)))
  }

  function Sweeper(r: Request, deleted: bool): Op { Op(0, Dropping(OfTenant(r.tenant, 0, 1), KeyFor(r), deleted)) }

  lemma SweepTakes(c: Config, r: Request, e: Entry)
    ensures Step(c, World(map[0 := Holding(r, e)], map[], map[], map[]), Drop(1, 0, ByTenant(r.tenant), 0), 1)
      == World(map[0 := Swept(r, map[], true)], map[], map[1 := Sweeper(r, false)], map[])
  {
    var s := Holding(r, e);
    assert List(s.byTenant, r.tenant, 0) == [Some(KeyFor(r))] && Current(s.byTenant, r.tenant) == 0;
    assert Seek([Some(KeyFor(r))], 0) == 0;
    assert s.l1 - {KeyFor(r)} == map[];
    assert Proceed(s, TenantTarget(s, r.tenant))
      == (Swept(r, map[], true), Some((OfTenant(r.tenant, 0, 1), KeyFor(r))));
  }

  lemma SetComesBetween(c: Config, r: Request, v: int)
    requires !c.distributed
    ensures Step(c, World(map[0 := Swept(r, map[], true)], map[], map[1 := Sweeper(r, false)], map[]),
            Store(2, 0, r, v, 0), 2)
      == World(map[0 := Swept(r, map[KeyFor(r) := Entry(Decision(v, 0, 2), Expiry(c, 0))], true)], map[],
        map[1 := Sweeper(r, false)], map[])
  {
    var s, k := Swept(r, map[], true), KeyFor(r);
    OneIndex(r.tenant, [Some(k)], true, k);
    OneIndex(r.feature, [Some(k)], true, k);
    assert Add(s.byTenant, r.tenant, k) == s.byTenant && Add(s.byFeature, r.feature, k) == s.byFeature;
  }

  lemma SweepEnds(c: Config, r: Request, e: Entry)
    requires !c.distributed
    ensures var s := Swept(r, map[KeyFor(r) := e], true);
            Step(c, Step(c, World(map[0 := s], map[], map[1 := Sweeper(r, false)], map[]), Delete(1, 0), 3),
              Resume(1, 0), 4)
              == World(map[0 := Swept(r, map[KeyFor(r) := e], false)], map[], map[], map[])
  {
    var s := Swept(r, map[KeyFor(r) := e], true);
    var w := Step(c, World(map[0 := s], map[], map[1 := Sweeper(r, false)], map[]), Delete(1, 0), 3);
    assert w == World(map[0 := s], map[], map[1 := Sweeper(r, true)], map[]);
    OneIndex(r.tenant, [Some(KeyFor(r))], true, KeyFor(r));
    assert Proceed(s, OfTenant(r.tenant, 0, 1)) == (Swept(r, map[KeyFor(r) := e], false), None);
    assert w.ops - {1} == map[];
  }

  lemma SecondSweepMisses(c: Config, r: Request, e: Entry)
    ensures var w := World(map[0 := Swept(r, map[KeyFor(r) := e], false)], map[], map[], map[]);
            Step(c, w, Drop(3, 0, ByTenant(r.tenant), 0), 5) == w
  {
    var s := Swept(r, map[KeyFor(r) := e], false);
    OneIndex(r.tenant, [Some(KeyFor(r))], false, KeyFor(r));
    assert Proceed(s, TenantTarget(s, r.tenant)) == (s, None);
  }

  lemma SweepStoryIsTimed(r: Request, v1: int, v2: int)
    ensures Timed(SweepStory(r, v1, v2)) && SweepStory(r, v1, v2)[..6] + [Lookup(4, 0, r, 0)] == SweepStory(r, v1, v2)
  {
  }

  lemma FirstSweepEnds(c: Config, r: Request, v1: int, v2: int)
    requires !c.distributed
    ensures Run(c, SweepStory(r, v1, v2)[..6])
            == World(map[0 := Swept(r, map[KeyFor(r) := Entry(Decision(v2, 0, 2), Expiry(c, 0))], false)], map[],
              map[], map[])
  {
    var e := Entry(Decision(v2, 0, 2), Expiry(c, 0));
    FirstStore(c, 0, 0, r, v1);
    SweepTakes(c, r, Entry(Decision(v1, 0, 0), Expiry(c, 0)));
    SetComesBetween(c, r, v2);
    SweepEnds(c, r, e);
    SecondSweepMisses(c, r, e);
    RunOfSix(c, SweepStory(r, v1, v2)[..6]);
  }

  /**
   * A set that returns while a sweep of its tenant waits finds its key still listed; the sweep, already past it, then
   * discards the list. The entry is live and unlisted: a second invalidation, which overlaps nothing, misses it and
   * the next lookup answers it.
   */
  lemma SetDuringSweep(c: Config, r: Request, v1: int, v2: int)
    requires !c.distributed && c.ttlSeconds >= 0
    ensures Timed(SweepStory(r, v1, v2))
    ensures Run(c, SweepStory(r, v1, v2)[..6]).ops == map[]
    ensures var w := Run(c, SweepStory(r, v1, v2)); w.answers == map[6 := Answer(0, r, Decision(v2, 0, 2))]
  {
    var evs, e := SweepStory(r, v1, v2), Entry(Decision(v2, 0, 2), Expiry(c, 0));
    SweepStoryIsTimed(r, v1, v2);
    FirstSweepEnds(c, r, v1, v2);
    RunSnoc(c, evs[..6], evs[6]);
    assert HasFresh1(Cache(Run(c, evs[..6]), 0), KeyFor(r), 0);
  }

  lemma RunOfSix(c: Config, evs: seq<Event>)
    requires |evs| == 6
    ensures Run(c, evs)
            == Step(c, Step(c, Step(c, Step(c, Step(c, Step(c, Start, evs[0], 0), evs[1], 1), evs[2], 2), evs[3], 3),
              evs[4], 4), evs[5], 5)
  {
    RunOfThree(c, evs[..3]);
    var a, b := evs[..3], evs[..4];
    RunSnoc(c, a, evs[3]);
    RunSnoc(c, b, evs[4]);
    RunSnoc(c, evs[..5], evs[5]);
    assert a + [evs[3]] == b && b + [evs[4]] == evs[..5] && evs[..5] + [evs[5]] == evs;
  }

  lemma RunOfThree(c: Config, evs: seq<Event>)
    requires |evs| == 3
    ensures Run(c, evs) == Step(c, Step(c, Step(c, Start, evs[0], 0), evs[1], 1), evs[2], 2)
  {
    RunSnoc(c, [], evs[0]);
    RunSnoc(c, [evs[0]], evs[1]);
    RunSnoc(c, [evs[0], evs[1]], evs[2]);
    assert [] + [evs[0]] == [evs[0]] && [evs[0]] + [evs[1]] == [evs[0], evs[1]] && [evs[0], evs[1]] + [evs[2]] == evs;
  }

  // ---------------------------------------------------------------------------
  // An invalidation during a lookup
  // ---------------------------------------------------------------------------

  function LookupStory(c: Config, r: Request, v: int): seq<Event> {
    [Store(0, 0, r, v, 0), Land(0, 1), Lookup(1, 0, r, TtlMs(c)), Ask(1, TtlMs(c)),
      Drop(2, 0, ByTenant(r.tenant), TtlMs(c)), Hear(1, TtlMs(c)), Lookup(3, 0, r, TtlMs(c))]
  }

  function Emptied(r: Request, attached: bool): State {
    State(map[], One(r.tenant, [None], attached), One(r.feature, [None], true))
  }

  lemma ExpiredIsAsked(c: Config, r: Request, d: Decision)
    requires c.distributed && c.ttlSeconds > 0
    ensures var k, now := KeyFor(r), TtlMs(c);
            var l2 := map[k := Remote(d, Some(now + 1), 0)];
            Step(c, Step(c, World(map[0 := Holding(r, Entry(d, now))], l2, map[], map[]), Lookup(1, 0, r, now), 2),
              Ask(1, now), 3)
              == World(map[0 := Emptied(r, true)], l2, map[1 := Op(0, Hearing(r, Some(d), now))], map[])
  {
    var k, now := KeyFor(r), TtlMs(c);
    var s := Holding(r, Entry(d, now));
    assert Strike([Some(k)], k) == [None];
    OneIndex(r.tenant, [Some(k)], true, k);
    OneIndex(r.feature, [Some(k)], true, k);
    assert LookedLocally(s, k, r.tenant, r.feature, now) == (Emptied(r, true), None) by { assert s.l1 - {k} == map[]; }
  }

  lemma SweepFindsNothing(c: Config, r: Request, l2: Shared, ops: map<nat, Op>, now: int)
    requires 2 !in ops
    ensures Step(c, World(map[0 := Emptied(r, true)], l2, ops, map[]), Drop(2, 0, ByTenant(r.tenant), now), 4)
      == World(map[0 := Emptied(r, false)], l2, ops, map[])
  {
    var s := Emptied(r, true);
    OneIndex(r.tenant, [None], true, KeyFor(r));
    assert Seek([None], 0) >= 1;
    assert Proceed(s, TenantTarget(s, r.tenant)) == (Emptied(r, false), None);
    assert ops - {2} == ops;
  }

  lemma HeardAndFound(c: Config, r: Request, l2: Shared, d: Decision, now: int)
    requires c.distributed && c.ttlSeconds > 0 && 0 <= now
    ensures Step(c, Step(c, World(map[0 := Emptied(r, false)], l2, map[1 := Op(0, Hearing(r, Some(d), now))], map[]),
            Hear(1, now), 5), Lookup(3, 0, r, now), 6).answers
      == map[5 := Answer(0, r, d), 6 := Answer(0, r, d)]
  {
    var w := Step(c, World(map[0 := Emptied(r, false)], l2, map[1 := Op(0, Hearing(r, Some(d), now))], map[]),
      Hear(1, now), 5);
    assert w.answers == map[5 := Answer(0, r, d)] && 3 !in w.ops;
    assert HasFresh1(Cache(w, 0), KeyFor(r), now) && Cache(w, 0).l1[KeyFor(r)].decision == d;
  }

  lemma LookupStoryIsTimed(c: Config, r: Request, v: int)
    requires c.ttlSeconds > 0
    ensures Timed(LookupStory(c, r, v)) && LookupStory(c, r, v)[..5] + [Hear(1, TtlMs(c))] == LookupStory(c, r, v)[..6]
    ensures LookupStory(c, r, v)[..6] + [Lookup(3, 0, r, TtlMs(c))] == LookupStory(c, r, v)
  {
  }

  lemma SetLands(c: Config, r: Request, v: int)
    requires c.distributed && c.ttlSeconds > 0
    ensures var d, s := Decision(v, 0, 0), Holding(r, Entry(Decision(v, 0, 0), TtlMs(c)));
            Step(c, Step(c, Start, Store(0, 0, r, v, 0), 0), Land(0, 1), 1)
              == World(map[0 := s], map[KeyFor(r) := Remote(d, Some(TtlMs(c) + 1), 0)], map[], map[])
  {
    FirstStore(c, 0, 0, r, v);
    var w1 := Step(c, Start, Store(0, 0, r, v, 0), 0);
    assert w1.ops - {0} == map[];
    assert w1.l2 == map[];
  }

  lemma AskedAfterExpiry(c: Config, r: Request, v: int)
    requires c.distributed && c.ttlSeconds > 0
    ensures var d, evs := Decision(v, 0, 0), LookupStory(c, r, v);
            Run(c, evs[..4]) == World(map[0 := Emptied(r, true)], map[KeyFor(r) := Remote(d, Some(TtlMs(c) + 1), 0)],
              map[1 := Op(0, Hearing(r, Some(d), TtlMs(c)))], map[])
  {
    var evs := LookupStory(c, r, v);
    SetLands(c, r, v);
    ExpiredIsAsked(c, r, Decision(v, 0, 0));
    RunOfThree(c, evs[..3]);
    RunSnoc(c, evs[..3], evs[3]);
    assert evs[..3] + [evs[3]] == evs[..4];
  }

  lemma SweptWhileAsking(c: Config, r: Request, v: int)
    requires c.distributed && c.ttlSeconds > 0
    ensures var d, evs := Decision(v, 0, 0), LookupStory(c, r, v);
            Run(c, evs[..5]) == World(map[0 := Emptied(r, false)],
              map[KeyFor(r) := Remote(d, Some(TtlMs(c) + 1), 0)], map[1 := Op(0, Hearing(r, Some(d), TtlMs(c)))],
                map[])
  {
    var d, now, evs := Decision(v, 0, 0), TtlMs(c), LookupStory(c, r, v);
    AskedAfterExpiry(c, r, v);
    SweepFindsNothing(c, r, map[KeyFor(r) := Remote(d, Some(now + 1), 0)], map[1 := Op(0, Hearing(r, Some(d), now))],
      now);
    RunSnoc(c, evs[..4], evs[4]);
    assert evs[..4] + [evs[4]] == evs[..5];
  }

  /**
   * On one instance: an invalidation that comes and goes while a lookup has L2's answer in hand. The entry is back
   * in L1 afterwards, for a whole new lifetime, and answers lookups that begin after the invalidation returned.
   */
  lemma InvalidationDuringLookup(c: Config, r: Request, v: int)
    requires c.distributed && c.ttlSeconds > 0
    ensures Timed(LookupStory(c, r, v))
    ensures var w := Run(c, LookupStory(c, r, v));
            w.answers == map[5 := Answer(0, r, Decision(v, 0, 0)), 6 := Answer(0, r, Decision(v, 0, 0))]
  {
    var evs, d := LookupStory(c, r, v), Decision(v, 0, 0);
    LookupStoryIsTimed(c, r, v);
    SweptWhileAsking(c, r, v);
    HeardAndFound(c, r, map[KeyFor(r) := Remote(d, Some(TtlMs(c) + 1), 0)], d, TtlMs(c));
    RunSnoc(c, evs[..5], evs[5]);
    RunSnoc(c, evs[..6], evs[6]);
  }

  // ---------------------------------------------------------------------------
  // Another instance's entry
  // ---------------------------------------------------------------------------

  function OtherStory(r: Request, v: int): seq<Event> {
    [Store(0, 1, r, v, 0), Land(0, 0), Drop(1, 0, ByTenant(r.tenant), 0), Lookup(2, 0, r, 0), Ask(2, 0), Hear(2, 0)]
  }

  lemma SweepKnowsNothing(c: Config, r: Request, w: World)
    requires 0 !in w.caches && 1 !in w.ops
    ensures Step(c, w, Drop(1, 0, ByTenant(r.tenant), 0), 2) == w.(caches := w.caches[0 := Empty])
  {
    assert Proceed(Empty, TenantTarget(Empty, r.tenant)) == (Empty, None);
    assert w.ops - {1} == w.ops;
  }

  lemma OtherStoryIsTimed(r: Request, v: int)
    ensures Timed(OtherStory(r, v)) && OtherStory(r, v)[..3]
            == [Store(0, 1, r, v, 0), Land(0, 0), Drop(1, 0, ByTenant(r.tenant), 0)]
  {
  }

  lemma SweptUnseen(c: Config, r: Request, v: int)
    requires c.distributed && c.ttlSeconds >= 0
    ensures var w := Run(c, OtherStory(r, v)[..3]);
            Cache(w, 0) == Empty && w.l2 == Put(c, map[], KeyFor(r), Decision(v, 0, 0), 0, 1) && w.ops == map[]
              && w.answers == map[]
  {
    var evs := OtherStory(r, v);
    FirstStore(c, 0, 1, r, v);
    var w1 := Step(c, Start, evs[0], 0);
    assert Step(c, w1, evs[1], 1)
      == World(w1.caches, Put(c, map[], KeyFor(r), Decision(v, 0, 0), 0, 1), map[], map[]) by {
      assert w1.ops - {0} == map[];
    }
    SweepKnowsNothing(c, r, Step(c, w1, evs[1], 1));
    RunOfThree(c, evs[..3]);
  }

  /**
   * Instance 1 has set the entry; instance 0, which never saw it, invalidates the tenant, calls in sequence, and then
   * answers it.
   */
  lemma OtherInstancesEntriesSurvive(c: Config, r: Request, v: int)
    requires c.distributed && c.ttlSeconds >= 0
    ensures Timed(OtherStory(r, v))
    ensures Run(c, OtherStory(r, v)).answers == map[5 := Answer(0, r, Decision(v, 0, 0))]
  {
    var evs := OtherStory(r, v);
    OtherStoryIsTimed(r, v);
    SweptUnseen(c, r, v);
    var w3 := Run(c, evs[..3]);
    AskedAndHeard(c, w3, r, Decision(v, 0, 0));
    RunSnoc(c, evs[..3], evs[3]);
    RunSnoc(c, evs[..4], evs[4]);
    RunSnoc(c, evs[..5], evs[5]);
    assert evs[..3] + [evs[3]] == evs[..4] && evs[..4] + [evs[4]] == evs[..5] && evs[..5] + [evs[5]] == evs;
  }

  lemma AskedAndHeard(c: Config, w: World, r: Request, d: Decision)
    requires c.distributed && Cache(w, 0) == Empty && w.l2 == Put(c, map[], KeyFor(r), d, 0, 1) && w.ops == map[]
             && w.answers == map[] && c.ttlSeconds >= 0
    ensures Step(c, Step(c, Step(c, w, Lookup(2, 0, r, 0), 3), Ask(2, 0), 4), Hear(2, 0), 5).answers
            == map[5 := Answer(0, r, d)]
  {
    AskedFor(c, w, 2, 0, r, 0, 3);
    assert Step(c, Step(c, w, Lookup(2, 0, r, 0), 3), Ask(2, 0), 4).answers == map[];
  }

  // ---------------------------------------------------------------------------
  // A lookup during a sweep
  // ---------------------------------------------------------------------------

  /**
   * A set lands at once; in the last millisecond of its lifetime a sweep takes the key from L1, and before the sweep
   * reaches L2 a lookup does.
   */
  predicate IsRearming(c: Config, evs: seq<Event>, r: Request, v: int) {
    var late := TtlMs(c) - 1;
    && |evs| == 9 && evs[0] == Store(0, 0, r, v, 0) && evs[1] == Land(0, 0)
    && evs[2] == Drop(1, 0, ByTenant(r.tenant), late)
    && evs[3] == Lookup(2, 0, r, late) && evs[4] == Ask(2, late) && evs[5] == Hear(2, late)
    && evs[6] == Delete(1, late) && evs[7] == Resume(1, late) && evs[8] == Lookup(3, 0, r, 2 * TtlMs(c) - 2)
  }

  lemma TellRearming(c: Config, r: Request, v: int) returns (evs: seq<Event>)
    requires c.ttlSeconds > 0
    ensures IsRearming(c, evs, r, v) && Timed(evs) && OneInstance(evs, 0)
  {
    var late := TtlMs(c) - 1;
    evs := [Store(0, 0, r, v, 0), Land(0, 0), Drop(1, 0, ByTenant(r.tenant), late), Lookup(2, 0, r, late),
      Ask(2, late), Hear(2, late),
            Delete(1, late), Resume(1, late), Lookup(3, 0, r, 2 * TtlMs(c) - 2)];
  }

  lemma Next(c: Config, evs: seq<Event>, n: nat)
    requires n < |evs|
    ensures Run(c, evs[..n + 1]) == Step(c, Run(c, evs[..n]), evs[n], n)
  {
    RunSnoc(c, evs[..n], evs[n]);
    assert evs[..n] + [evs[n]] == evs[..n + 1];
  }

  lemma NextTwo(c: Config, evs: seq<Event>, n: nat)
    requires n + 1 < |evs|
    ensures Run(c, evs[..n + 2]) == Step(c, Step(c, Run(c, evs[..n]), evs[n], n), evs[n + 1], n + 1)
  {
    Next(c, evs, n);
    Next(c, evs, n + 1);
  }

  function Landed(c: Config, r: Request, d: Decision): Shared { map[KeyFor(r) := Remote(d, Some(TtlMs(c)), 0)] }

  lemma LandedAtOnce(c: Config, evs: seq<Event>, r: Request, v: int)
    requires IsRearming(c, evs, r, v) && c.distributed && c.ttlSeconds > 0
    ensures var d := Decision(v, 0, 0);
            Run(c, evs[..2]) == World(map[0 := Holding(r, Entry(d, TtlMs(c)))], Landed(c, r, d), map[], map[])
    ensures Run(c, evs[..1]).ops == map[0 := Op(0, Writing(r, Decision(v, 0, 0)))]
  {
    Next(c, evs, 0);
    Next(c, evs, 1);
    assert evs[..0] == [];
    FirstStore(c, 0, 0, r, v);
    var w1 := Run(c, evs[..1]);
    assert w1.ops - {0} == map[] && w1.l2 == map[];
  }

  lemma TakenFromL1(c: Config, evs: seq<Event>, r: Request, v: int)
    requires IsRearming(c, evs, r, v) && c.distributed && c.ttlSeconds > 0
    ensures var d := Decision(v, 0, 0);
            Run(c, evs[..3]) == World(map[0 := Swept(r, map[], true)], Landed(c, r, d), map[1 := Sweeper(r, false)],
              map[])
  {
    var s, k := Holding(r, Entry(Decision(v, 0, 0), TtlMs(c))), KeyFor(r);
    LandedAtOnce(c, evs, r, v);
    Next(c, evs, 2);
    OneIndex(r.tenant, [Some(k)], true, k);
    assert Seek([Some(k)], 0) == 0 && s.l1 - {k} == map[];
    assert Proceed(s, TenantTarget(s, r.tenant)) == (Swept(r, map[], true), Some((OfTenant(r.tenant, 0, 1), k)));
  }

  lemma AskedMeanwhile(c: Config, w: World, r: Request, d: Decision, late: int, i: nat)
    requires c.distributed && late < TtlMs(c)
    requires w == World(map[0 := Swept(r, map[], true)], Landed(c, r, d), map[1 := Sweeper(r, false)], map[])
    ensures Step(c, Step(c, w, Lookup(2, 0, r, late), i), Ask(2, late), i + 1)
      == w.(ops := map[1 := Sweeper(r, false), 2 := Op(0, Hearing(r, Some(d), late))])
  {
    AskedFor(c, w, 2, 0, r, late, i);
    assert w.caches[0 := Swept(r, map[], true)] == w.caches;
    assert map[1 := Sweeper(r, false)][2 := Op(0, Hearing(r, Some(d), late))]
      == map[1 := Sweeper(r, false), 2 := Op(0, Hearing(r, Some(d), late))];
  }

  lemma HeardMeanwhile(c: Config, w: World, r: Request, d: Decision, late: int, i: nat)
    requires c.ttlSeconds > 0 && w.caches == map[0 := Swept(r, map[], true)] && w.answers == map[]
    requires w.ops == map[1 := Sweeper(r, false), 2 := Op(0, Hearing(r, Some(d), late))]
    ensures Step(c, w, Hear(2, late), i)
      == World(map[0 := Swept(r, map[KeyFor(r) := Entry(d, late + TtlMs(c))], true)], w.l2,
        map[1 := Sweeper(r, false)], map[i := Answer(0, r, d)])
  {
    var s, k := Swept(r, map[], true), KeyFor(r);
    OneIndex(r.tenant, [Some(k)], true, k);
    OneIndex(r.feature, [Some(k)], true, k);
    assert Heard(c, s, k, r.tenant, r.feature, Some(d), late) == Swept(r, map[k := Entry(d, late + TtlMs(c))], true);
    assert w.ops - {2} == map[1 := Sweeper(r, false)];
  }

  lemma AskedAt(c: Config, evs: seq<Event>, r: Request, v: int)
    requires IsRearming(c, evs, r, v) && c.distributed && c.ttlSeconds > 0
    ensures var w, d, late := Run(c, evs[..5]), Decision(v, 0, 0), TtlMs(c) - 1;
            && w.caches == map[0 := Swept(r, map[], true)] && w.l2 == Landed(c, r, d) && w.answers == map[]
            && w.ops == map[1 := Sweeper(r, false), 2 := Op(0, Hearing(r, Some(d), late))]
  {
    TakenFromL1(c, evs, r, v);
    NextTwo(c, evs, 3);
    AskedMeanwhile(c, Run(c, evs[..3]), r, Decision(v, 0, 0), TtlMs(c) - 1, 3);
  }

  function Rearmed(c: Config, r: Request, d: Decision, attached: bool): State {
    Swept(r, map[KeyFor(r) := Entry(d, 2 * TtlMs(c) - 1)], attached)
  }

  lemma RearmedAt(c: Config, evs: seq<Event>, r: Request, v: int)
    requires IsRearming(c, evs, r, v) && c.distributed && c.ttlSeconds > 0
    ensures var d := Decision(v, 0, 0);
            Run(c, evs[..6]) == World(map[0 := Rearmed(c, r, d, true)], Landed(c, r, d), map[1 := Sweeper(r, false)],
              map[5 := Answer(0, r, d)])
  {
    AskedAt(c, evs, r, v);
    HeardMeanwhile(c, Run(c, evs[..5]), r, Decision(v, 0, 0), TtlMs(c) - 1, 5);
    var late := TtlMs(c) - 1;
    assert late + TtlMs(c) == 2 * TtlMs(c) - 1;
    assert evs[5] == Hear(2, late);
    Next(c, evs, 5);
  }

  lemma SweptOver(c: Config, evs: seq<Event>, r: Request, v: int)
    requires IsRearming(c, evs, r, v) && c.distributed && c.ttlSeconds > 0
    ensures Run(c, evs[..6]).ops == map[1 := Sweeper(r, false)] && Run(c, evs[..8]).ops == map[]
    ensures Cache(Run(c, evs[..8]), 0) == Rearmed(c, r, Decision(v, 0, 0), false)
  {
    var d := Decision(v, 0, 0);
    RearmedAt(c, evs, r, v);
    NextTwo(c, evs, 6);
    SweepLeavesIt(c, Run(c, evs[..6]), r, Entry(d, 2 * TtlMs(c) - 1), Landed(c, r, d), map[5 := Answer(0, r, d)],
      TtlMs(c) - 1);
  }

  lemma SweepLeavesIt(c: Config, w: World, r: Request, e: Entry, l2: Shared, answers: map<nat, Answer>, late: int)
    requires c.distributed && w
             == World(map[0 := Swept(r, map[KeyFor(r) := e], true)], l2, map[1 := Sweeper(r, false)], answers)
    ensures Step(c, Step(c, w, Delete(1, late), 6), Resume(1, late), 7)
      == World(map[0 := Swept(r, map[KeyFor(r) := e], false)], l2 - {KeyFor(r)}, map[], answers)
  {
    var s := Swept(r, map[KeyFor(r) := e], true);
    var w1 := Step(c, w, Delete(1, late), 6);
    assert w1 == World(map[0 := s], l2 - {KeyFor(r)}, map[1 := Sweeper(r, true)], answers);
    OneIndex(r.tenant, [Some(KeyFor(r))], true, KeyFor(r));
    assert Proceed(s, OfTenant(r.tenant, 0, 1)) == (Swept(r, map[KeyFor(r) := e], false), None);
    assert w1.ops - {1} == map[];
  }

  /**
   * Calls that overlap break the bound of one lifetime on a single instance even when every set lands at once: a lookup
   * that asks L2 while a sweep waits to delete the key there brings the entry back for a second lifetime, and the
   * sweep, once it has returned, leaves it.
   */
  lemma LookupDuringSweep(c: Config, r: Request, v: int) returns (evs: seq<Event>)
    requires c.distributed && c.ttlSeconds > 0
    ensures Timed(evs) && OneInstance(evs, 0) && LandsAtOnce(c, evs) && |evs| == 9 && 8 in Run(c, evs).answers
    ensures evs[8].now - Run(c, evs).answers[8].decision.setAt == 2 * TtlMs(c) - 2
    ensures Run(c, evs[..8]).ops == map[] && Returns(c, evs[..8], 0, r)
  {
    evs := TellRearming(c, r, v);
    LandedAtOnce(c, evs, r, v);
    SweptOver(c, evs, r, v);
    SweepReturns(c, evs, r, v);
    LooksOnceMore(c, evs, r, Decision(v, 0, 0), v);
    RearmingLands(c, evs, r, v);
  }

  lemma SweepReturns(c: Config, evs: seq<Event>, r: Request, v: int)
    requires IsRearming(c, evs, r, v) && c.distributed
    requires Run(c, evs[..6]).ops == map[1 := Sweeper(r, false)] && Run(c, evs[..8]).ops == map[]
    ensures Returns(c, evs[..8], 0, r)
  {
    Next(c, evs, 6);
    assert evs[..8][..7] == evs[..7] && evs[..8][7] == evs[7];
    assert Run(c, evs[..7]).ops == map[1 := Sweeper(r, true)];
  }

  lemma LooksOnceMore(c: Config, evs: seq<Event>, r: Request, d: Decision, v: int)
    requires IsRearming(c, evs, r, v) && c.ttlSeconds > 0 && Run(c, evs[..8]).ops == map[]
    requires KeyFor(r) in Cache(Run(c, evs[..8]), 0).l1
             && Cache(Run(c, evs[..8]), 0).l1[KeyFor(r)] == Entry(d, 2 * TtlMs(c) - 1)
    ensures 8 in Run(c, evs).answers && Run(c, evs).answers[8] == Answer(0, r, d)
  {
    Next(c, evs, 8);
    assert evs[..9] == evs;
    assert HasFresh1(Cache(Run(c, evs[..8]), 0), KeyFor(r), 2 * TtlMs(c) - 2);
  }

  lemma RearmingLands(c: Config, evs: seq<Event>, r: Request, v: int)
    requires IsRearming(c, evs, r, v) && Run(c, evs[..1]).ops == map[0 := Op(0, Writing(r, Decision(v, 0, 0)))]
    ensures LandsAtOnce(c, evs)
  {
    forall i | 0 <= i < |evs| ensures LandsStep(Run(c, evs[..i]), evs[i]) {
      assert i != 1 ==> !evs[i].Land?;
      assert LandsStep(Run(c, evs[..1]), evs[1]);
    }
  }
}
