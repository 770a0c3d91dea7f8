/**
 * How old an answer gets: one lifetime on a single instance whose calls about a request come one at a time and whose
 * L2 writes land at once; more with either condition dropped, up to the bound of `CacheRuns.AnswerAge`, which is
 * reached.
 */
module CacheAges {
  import opened Common
  import opened EntitlementCache
  import opened CacheRuns
  import opened CacheIndexes
  import opened CacheInvalidation

  /** Every set lands in L2 in the millisecond in which it was made. */
  ghost predicate LandsAtOnce(c: Config, evs: seq<Event>) {
    forall i | 0 <= i < |evs| :: LandsStep(Run(c, evs[..i]), evs[i])
  }

  predicate LandsStep(w: World, e: Event) {
    e.Land? && e.op in w.ops && w.ops[e.op].task.Writing? ==> e.now <= w.ops[e.op].task.decision.setAt
  }

  lemma LandsCut(c: Config, evs: seq<Event>, n: nat)
    requires LandsAtOnce(c, evs) && n < |evs|
    ensures LandsAtOnce(c, evs[..n]) && LandsStep(Run(c, evs[..n]), evs[n])
  {
    forall i | 0 <= i < n ensures LandsStep(Run(c, evs[..n][..i]), evs[..n][i]) {
      assert evs[..n][..i] == evs[..i] && LandsStep(Run(c, evs[..i]), evs[i]);
    }
  }

  predicate OnTime(c: Config, e: Entry) { 0 <= e.decision.setAt && e.expiresAtMs == e.decision.setAt + TtlMs(c) }

  /** A live L2 entry is no younger than the L1 entry above it, unless an invalidation is about to delete it. */
  predicate Topped(w: World, me: nat, k: string) {
    k in w.l2 && w.l2[k].expiresAt.Some? && k in Cache(w, me).l1
      && w.l2[k].expiresAt.value <= Cache(w, me).l1[k].expiresAtMs
  }

  predicate AboutToDelete(op: Op, me: nat, r: Request) {
    Concerns(op, me, r) && op.task.Dropping? && op.task.key == KeyFor(r) && !op.task.deleted
  }

  predicate OpLevel(c: Config, w: World, me: nat, r: Request, op: Op, now: int) {
    var k := KeyFor(r);
    match op.task
    case Asking(_) => !HasFresh2(w.l2, k, now)
    case Hearing(_, remote, _) => remote.None? && !HasFresh2(w.l2, k, now)
    case Writing(_, d) => 0 <= d.setAt && k in Cache(w, me).l1 && Cache(w, me).l1[k] == Entry(d, d.setAt + TtlMs(c))
    case Dropping(_, _, _) => true
  }

  ghost predicate Level(c: Config, w: World, me: nat, r: Request, now: int) {
    var k := KeyFor(r);
    && (k in Cache(w, me).l1 ==> OnTime(c, Cache(w, me).l1[k]))
    && (HasFresh2(w.l2, k, now) ==> Topped(w, me, k) || exists y | y in w.ops :: AboutToDelete(w.ops[y], me, r))
    && (forall y | y in w.ops && Concerns(w.ops[y], me, r) :: OpLevel(c, w, me, r, w.ops[y], now))
  }

  lemma LevelElsewhere(c: Config, w: World, w': World, me: nat, r: Request, clock: int, now: int)
    requires Level(c, w, me, r, clock) && clock <= now && Elsewhere(w, w', me, r) && AllMine(w', me)
    ensures Level(c, w', me, r, now)
  {
    var k := KeyFor(r);
    forall y | y in w'.ops && Concerns(w'.ops[y], me, r) ensures OpLevel(c, w', me, r, w'.ops[y], now) {
      assert OpLevel(c, w, me, r, w.ops[y], clock);
    }
    if HasFresh2(w'.l2, k, now) && !Topped(w, me, k) {
      var y :| y in w.ops && AboutToDelete(w.ops[y], me, r);
      assert y in w'.ops && AboutToDelete(w'.ops[y], me, r);
    }
  }

  lemma LevelLookup(c: Config, w: World, e: Event, i: nat, me: nat, r: Request, clock: int)
    requires c.ttlSeconds > 0 && Level(c, w, me, r, clock) && clock <= e.now && Idle(w, me, r) && e.Lookup?
             && Starts(e, me, r) && e.op !in w.ops
    ensures Level(c, Step(c, w, e, i), me, r, e.now)
  {
    var w', k := Step(c, w, e, i), KeyFor(r);
    OthersStay(c, w, e, i);
    forall y | y in w.ops ensures !AboutToDelete(w.ops[y], me, r) { assert !Concerns(w.ops[y], me, r); }
    if HasFresh1(Cache(w, me), k, e.now) {
      assert Cache(w', me) == Cache(w, me) && w'.ops == w.ops && w'.l2 == w.l2;
    } else {
      LookupMisses(c, w, e, i, me, r);
      assert !HasFresh2(w.l2, k, e.now);
    }
  }

  lemma LevelStore(c: Config, w: World, e: Event, i: nat, me: nat, r: Request, clock: int)
    requires c.ttlSeconds > 0 && Level(c, w, me, r, clock) && 0 <= e.now && clock <= e.now && Idle(w, me, r)
             && e.Store? && Starts(e, me, r) && e.op !in w.ops
    requires Bounded2(c, w, KeyFor(r), clock)
    ensures Level(c, Step(c, w, e, i), me, r, e.now)
  {
    var w', k := Step(c, w, e, i), KeyFor(r);
    OthersStay(c, w, e, i);
    assert Cache(w', me).l1[k] == Entry(Decision(e.verdict, e.now, i), e.now + TtlMs(c)) && w'.l2 == w.l2;
  }

  /** L2 entries expire no later than a lifetime from now. */
  predicate Bounded2(c: Config, w: World, k: string, now: int) {
    k in w.l2 ==> w.l2[k].expiresAt.Some? && w.l2[k].expiresAt.value <= now + TtlMs(c)
  }

  lemma Bounded2Kept(c: Config, w: World, e: Event, i: nat, k: string, clock: int)
    requires c.ttlSeconds > 0 && Bounded2(c, w, k, clock) && clock <= e.now
    ensures Bounded2(c, Step(c, w, e, i), k, e.now)
  {
    L2Origin(c, w, e, i, k);
  }

  /** A turn takes the key, or leaves its entry. */
  lemma TurnTakes(s: State, x: Target, k: string)
    ensures var (s', next) := Proceed(s, x);
            next.Some? && next.value.1 != k ==> (k in s.l1 <==> k in s'.l1) && (k in s.l1 ==> s'.l1[k] == s.l1[k])
  {
  }

  lemma LevelTurn(c: Config, w: World, w': World, x: nat, target: Target, me: nat, r: Request, clock: int, now: int)
    requires Level(c, w, me, r, clock) && clock <= now && w' == Turned(w, x, me, target) && Covers(target, r)
    requires forall y | y in w.ops :: !AboutToDelete(w.ops[y], me, r)
    requires forall y | y in w.ops && y != x :: !Concerns(w.ops[y], me, r)
    requires x !in w'.ops ==> KeyFor(r) !in Cache(w', me).l1 && !HasFresh2(w'.l2, KeyFor(r), now)
    ensures Level(c, w', me, r, now)
  {
    var s, k := Cache(w, me), KeyFor(r);
    TurnShrinks(s, target);
    TurnTakes(s, target, k);
    TurnStays(s, target, r);
    assert forall y | y in w'.ops && y != x :: y in w.ops && w'.ops[y] == w.ops[y];
    if x in w'.ops && Proceed(s, target).1.value.1 == k { assert AboutToDelete(w'.ops[x], me, r); }
  }

  lemma LevelDrop(c: Config, w: World, e: Event, i: nat, me: nat, r: Request, clock: int)
    requires Orderly(c, w, me, r, clock) && AllMine(Step(c, w, e, i), me)
    requires Level(c, w, me, r, clock) && clock <= e.now && Idle(w, me, r) && e.Drop? && Starts(e, me, r)
             && e.op !in w.ops && KindOk(Cache(w, me), e.kind)
    ensures Level(c, Step(c, w, e, i), me, r, e.now)
  {
    DropBegins(c, w, e, i, me, r, clock);
    TargetAside(Cache(w, me), e.kind, r);
    forall y | y in w.ops ensures !AboutToDelete(w.ops[y], me, r) { assert !Concerns(w.ops[y], me, r); }
    LevelTurn(c, w, Step(c, w, e, i), e.op, TargetOf(Cache(w, me), e.kind), me, r, clock, e.now);
  }

  lemma LevelResume(c: Config, w: World, e: Event, i: nat, me: nat, r: Request, clock: int)
    requires Orderly(c, w, me, r, clock) && AllMine(Step(c, w, e, i), me)
    requires Level(c, w, me, r, clock) && clock <= e.now && e.op in w.ops && Concerns(w.ops[e.op], me, r)
             && e.Resume? && w.ops[e.op].task.Dropping? && w.ops[e.op].task.deleted
    ensures Level(c, Step(c, w, e, i), me, r, e.now)
  {
    ResumeGoesOn(c, w, e, i, me, r, clock);
    forall y | y in w.ops ensures !AboutToDelete(w.ops[y], me, r) { if Concerns(w.ops[y], me, r) { assert y == e.op; } }
    LevelTurn(c, w, Step(c, w, e, i), e.op, w.ops[e.op].task.target, me, r, clock, e.now);
  }

  /** L2 answers a lookup: it has nothing. */
  lemma LevelMiss(c: Config, w: World, e: Event, i: nat, me: nat, r: Request, clock: int)
    requires Orderly(c, w, me, r, clock) && Level(c, w, me, r, clock) && clock <= e.now && e.op in w.ops
             && Concerns(w.ops[e.op], me, r)
    requires (e.Ask? && w.ops[e.op].task.Asking?) || (e.Hear? && w.ops[e.op].task.Hearing?)
    ensures Level(c, Step(c, w, e, i), me, r, e.now)
  {
    var w' := Step(c, w, e, i);
    OthersStay(c, w, e, i);
    assert OpLevel(c, w, me, r, w.ops[e.op], clock);
    assert Cache(w', me) == Cache(w, me) && w'.l2 == w.l2 && !HasFresh2(w.l2, KeyFor(r), e.now);
  }

  lemma LevelLand(c: Config, w: World, e: Event, i: nat, me: nat, r: Request, clock: int)
    requires c.ttlSeconds > 0 && Orderly(c, w, me, r, clock) && LandsStep(w, e)
    requires Level(c, w, me, r, clock) && clock <= e.now && e.op in w.ops && Concerns(w.ops[e.op], me, r) && e.Land?
             && w.ops[e.op].task.Writing?
    ensures Level(c, Step(c, w, e, i), me, r, e.now)
  {
    var w', k := Step(c, w, e, i), KeyFor(r);
    OthersStay(c, w, e, i);
    assert OpLevel(c, w, me, r, w.ops[e.op], clock);
    assert Cache(w', me) == Cache(w, me);
    assert Topped(w', me, k);
  }

  lemma LevelDelete(c: Config, w: World, e: Event, i: nat, me: nat, r: Request, clock: int)
    requires c.distributed && Orderly(c, w, me, r, clock) && Level(c, w, me, r, clock) && clock <= e.now
    requires e.op in w.ops && Concerns(w.ops[e.op], me, r) && e.Delete? && w.ops[e.op].task.Dropping?
             && !w.ops[e.op].task.deleted
    ensures Level(c, Step(c, w, e, i), me, r, e.now)
  {
    var w', k := Step(c, w, e, i), KeyFor(r);
    OthersStay(c, w, e, i);
    assert Cache(w', me) == Cache(w, me);
    assert forall y | y in w.ops && AboutToDelete(w.ops[y], me, r) :: y == e.op;
  }

  /** Without L2 only L1 matters. */
  lemma LevelLocally(c: Config, w: World, e: Event, i: nat, me: nat, r: Request, clock: int)
    requires c.ttlSeconds > 0 && Level(c, w, me, r, clock) && 0 <= e.now && forall y | y in w.ops ::
             w.ops[y].task.Dropping?
    requires Step(c, w, e, i).l2 == map[] && forall y | y in Step(c, w, e, i).ops ::
             Step(c, w, e, i).ops[y].task.Dropping?
    ensures Level(c, Step(c, w, e, i), me, r, e.now)
  {
    L1Origin(c, w, e, i, me, KeyFor(r));
  }

  lemma LevelStays(c: Config, w: World, me: nat, r: Request, clock: int, now: int)
    requires Level(c, w, me, r, clock) && clock <= now && AllMine(w, me)
    ensures Level(c, w, me, r, now)
  {
    SameIsQuiet(Cache(w, me), r);
    LevelElsewhere(c, w, w, me, r, clock, now);
  }

  lemma LevelKept(c: Config, w: World, e: Event, i: nat, me: nat, r: Request, clock: int)
    requires c.ttlSeconds > 0 && c.distributed && Orderly(c, w, me, r, clock) && Level(c, w, me, r, clock)
             && 0 <= e.now && clock <= e.now && LandsStep(w, e)
    requires Starts(e, me, r) ==> Idle(w, me, r)
    requires AllMine(w, me) && AllMine(Step(c, w, e, i), me) && Bounded2(c, w, KeyFor(r), clock)
    ensures Level(c, Step(c, w, e, i), me, r, e.now)
  {
    if Starts(e, me, r) && e.op !in w.ops {
      if e.Lookup? { LevelLookup(c, w, e, i, me, r, clock); }
      else if e.Store? { LevelStore(c, w, e, i, me, r, clock); }
      else if KindOk(Cache(w, me), e.kind) { LevelDrop(c, w, e, i, me, r, clock); }
      else { LevelStays(c, w, me, r, clock, e.now); }
    } else if !Starts(e, me, r) && (e.op in w.ops ==> !Concerns(w.ops[e.op], me, r)) {
      ElsewhereStep(c, w, e, i, me, r);
      LevelElsewhere(c, w, Step(c, w, e, i), me, r, clock, e.now);
    } else {
      LevelGoesOn(c, w, e, i, me, r, clock);
    }
  }

  lemma LevelGoesOn(c: Config, w: World, e: Event, i: nat, me: nat, r: Request, clock: int)
    requires c.ttlSeconds > 0 && c.distributed && Orderly(c, w, me, r, clock) && Level(c, w, me, r, clock)
             && clock <= e.now && LandsStep(w, e)
    requires e.op in w.ops && (Starts(e, me, r) || Concerns(w.ops[e.op], me, r))
    requires AllMine(w, me) && AllMine(Step(c, w, e, i), me)
    ensures Level(c, Step(c, w, e, i), me, r, e.now)
  {
    var task := w.ops[e.op].task;
    if e.Lookup? || e.Store? || e.Drop? { LevelStays(c, w, me, r, clock, e.now); }
    else if (e.Ask? && task.Asking?) || (e.Hear? && task.Hearing?) { LevelMiss(c, w, e, i, me, r, clock); }
    else if e.Land? && task.Writing? { LevelLand(c, w, e, i, me, r, clock); }
    else if e.Delete? && task.Dropping? && !task.deleted { LevelDelete(c, w, e, i, me, r, clock); }
    else if e.Resume? && task.Dropping? && task.deleted { LevelResume(c, w, e, i, me, r, clock); }
    else { LevelStays(c, w, me, r, clock, e.now); }
  }

  lemma OneCut(evs: seq<Event>, me: nat, n: nat)
    requires OneInstance(evs, me) && n <= |evs|
    ensures OneInstance(evs[..n], me)
  {
    assert forall i | 0 <= i < n :: evs[..n][i] == evs[i];
  }

  lemma {:induction false} LevelAlways(c: Config, evs: seq<Event>, me: nat, r: Request)
    requires c.ttlSeconds > 0 && Timed(evs) && OneInstance(evs, me) && Serial(c, evs, me, r) && LandsAtOnce(c, evs)
    ensures Level(c, Run(c, evs), me, r, Clock(evs)) && Bounded2(c, Run(c, evs), KeyFor(r), Clock(evs))
  {
    if evs != [] {
      var n := |evs| - 1;
      var w := Run(c, evs[..n]);
      TimedPrefix(evs);
      OneCut(evs, me, n);
      SerialCut(c, evs, me, r, n);
      LandsCut(c, evs, n);
      LevelAlways(c, evs[..n], me, r);
      OrderlyAlways(c, evs[..n], me, r);
      OneWriter(c, evs[..n], me);
      OneWriter(c, evs, me);
      Bounded2Kept(c, w, evs[n], n, KeyFor(r), Clock(evs[..n]));
      if c.distributed {
        LevelKept(c, w, evs[n], n, me, r, Clock(evs[..n]));
      } else {
        LocalOnly(c, evs[..n]);
        LocalOnly(c, evs);
        LevelLocally(c, w, evs[n], n, me, r, Clock(evs[..n]));
      }
    }
  }

  /**
   * On a single instance with calls about the request one at a time, an answer is younger than one lifetime when L2
   * writes land at once.
   */
  lemma AnswerAgeAlone(c: Config, evs: seq<Event>, me: nat, i: nat)
    requires c.ttlSeconds > 0 && Timed(evs) && OneInstance(evs, me) && LandsAtOnce(c, evs)
    requires i in Run(c, evs).answers && Serial(c, evs, me, Run(c, evs).answers[i].request)
    ensures i < |evs| && evs[i].now - Run(c, evs).answers[i].decision.setAt < 1000 * c.ttlSeconds
  {
    AnswerAtItsTime(c, evs, i);
    var a, w := Run(c, evs).answers[i], Run(c, evs[..i]);
    TimedCut(evs, i);
    OneCut(evs, me, i);
    SerialCut(c, evs, me, a.request, i);
    LandsCut(c, evs, i);
    LevelAlways(c, evs[..i], me, a.request);
    OneWriter(c, evs[..i], me);
    AnswerOrigin(c, w, evs[i], i, i);
    assert forall y | y in w.ops && Concerns(w.ops[y], me, a.request) ::
      OpLevel(c, w, me, a.request, w.ops[y], Clock(evs[..i]));
  }

  // ---------------------------------------------------------------------------
  // What is reached
  // ---------------------------------------------------------------------------

  /** A set has landed and is all there is; the L1 of instance 0 has nothing alive. */
  predicate OnlyInL2(c: Config, w: World, r: Request, d: Decision, who: nat, lag: int) {
    && w.l2 == map[KeyFor(r) := Remote(d, Some(lag + TtlMs(c)), who)] && w.ops == map[] && w.answers == map[]
    && (KeyFor(r) in Cache(w, 0).l1 ==> Cache(w, 0).l1[KeyFor(r)] == Entry(d, TtlMs(c)))
    && (who != 0 ==> Cache(w, 0) == Empty)
  }

  lemma StoreAndLand(c: Config, r: Request, v: int, who: nat, lag: int, w1: World, w2: World)
    requires c.distributed && c.ttlSeconds > 0
    requires w1 == Step(c, Start, Store(0, who, r, v, 0), 0) && w2 == Step(c, w1, Land(0, lag), 1)
    ensures OnlyInL2(c, w2, r, Decision(v, 0, 0), who, lag)
            && w1.ops == map[0 := Op(who, Writing(r, Decision(v, 0, 0)))]
  {
    assert w1.ops == map[0 := Op(who, Writing(r, Decision(v, 0, 0)))] && w1.ops - {0} == map[] && w1.l2 == map[]
      && w1.answers == map[];
  }

  predicate InHand(w: World, r: Request, d: Decision, asked: int) {
    w.ops == map[1 := Op(0, Hearing(r, Some(d), asked))] && w.answers == map[]
  }

  lemma LookAndAsk(c: Config, r: Request, d: Decision, who: nat, lag: int, asked: int, w2: World, w3: World, w4: World)
    requires c.distributed && c.ttlSeconds > 0 && asked < lag + TtlMs(c) && (who == 0 ==> TtlMs(c) <= asked)
             && OnlyInL2(c, w2, r, d, who, lag)
    requires w3 == Step(c, w2, Lookup(1, 0, r, asked), 2) && w4 == Step(c, w3, Ask(1, asked), 3)
    ensures InHand(w4, r, d, asked)
  {
    LookupMisses(c, w2, Lookup(1, 0, r, asked), 2, 0, r);
    assert w3.ops == map[1 := Op(0, Asking(r))] && w3.l2 == w2.l2 && w3.answers == map[];
  }

  lemma HearAndLook(c: Config, r: Request, d: Decision, asked: int, heard: int, again: int, w4: World, w5: World,
      w6: World)
    requires c.ttlSeconds > 0 && InHand(w4, r, d, asked) && heard <= again < heard + TtlMs(c)
    requires w5 == Step(c, w4, Hear(1, heard), 4) && w6 == Step(c, w5, Lookup(2, 0, r, again), 5)
    ensures w6.answers == map[4 := Answer(0, r, d), 5 := Answer(0, r, d)]
  {
    assert w5.ops == map[] && w5.answers == map[4 := Answer(0, r, d)];
    assert HasFresh1(Cache(w5, 0), KeyFor(r), again) && Cache(w5, 0).l1[KeyFor(r)].decision == d;
  }

  /**
   * `who` sets at 0 and the write lands at `lag`; instance 0 asks L2 at `asked`, hears at `heard` and looks once more
   * at `again`.
   */
  predicate IsStory(evs: seq<Event>, r: Request, v: int, who: nat, lag: int, asked: int, heard: int, again: int) {
    && |evs| == 6 && evs[0] == Store(0, who, r, v, 0) && evs[1] == Land(0, lag) && evs[2] == Lookup(1, 0, r, asked)
    && evs[3] == Ask(1, asked) && evs[4] == Hear(1, heard) && evs[5] == Lookup(2, 0, r, again)
  }

  lemma TellStory(r: Request, v: int, who: nat, lag: int, asked: int, heard: int, again: int) returns (evs: seq<Event>)
    requires 0 <= lag <= asked <= heard <= again
    ensures IsStory(evs, r, v, who, lag, asked, heard, again) && Timed(evs) && (who == 0 ==> OneInstance(evs, 0))
  {
    evs := [Store(0, who, r, v, 0), Land(0, lag), Lookup(1, 0, r, asked), Ask(1, asked), Hear(1, heard),
      Lookup(2, 0, r, again)];
  }

  lemma StoryWorlds(c: Config, evs: seq<Event>, r: Request, v: int, who: nat, lag: int, asked: int, heard: int,
      again: int)
    requires IsStory(evs, r, v, who, lag, asked, heard, again) && c.distributed && c.ttlSeconds > 0
    requires heard <= again < heard + TtlMs(c) && asked < lag + TtlMs(c) && (who == 0 ==> TtlMs(c) <= asked)
    ensures Run(c, evs).answers == map[4 := Answer(0, r, Decision(v, 0, 0)), 5 := Answer(0, r, Decision(v, 0, 0))]
    ensures Run(c, evs[..1]).ops == map[0 := Op(who, Writing(r, Decision(v, 0, 0)))] && Run(c, evs[..2]).ops == map[]
    ensures InHand(Run(c, evs[..4]), r, Decision(v, 0, 0), asked) && Run(c, evs[..5]).ops == map[]
  {
    var d := Decision(v, 0, 0);
    var w1, w2, w3, w4, w5 := Run(c, evs[..1]), Run(c, evs[..2]), Run(c, evs[..3]), Run(c, evs[..4]), Run(c, evs[..5]);
    StoryLinks(c, evs);
    StoreAndLand(c, r, v, who, lag, w1, w2);
    LookAndAsk(c, r, d, who, lag, asked, w2, w3, w4);
    HearAndLook(c, r, d, asked, heard, again, w4, w5, Run(c, evs));
  }

  lemma StoryLinks(c: Config, evs: seq<Event>)
    requires |evs| == 6
    ensures Run(c, evs[..1]) == Step(c, Start, evs[0], 0) && Run(c, evs[..2]) == Step(c, Run(c, evs[..1]), evs[1], 1)
    ensures Run(c, evs[..3]) == Step(c, Run(c, evs[..2]), evs[2], 2)
            && Run(c, evs[..4]) == Step(c, Run(c, evs[..3]), evs[3], 3)
    ensures Run(c, evs[..5]) == Step(c, Run(c, evs[..4]), evs[4], 4)
            && Run(c, evs) == Step(c, Run(c, evs[..5]), evs[5], 5)
  {
    forall n: nat | n < 6 ensures Run(c, evs[..n + 1]) == Step(c, Run(c, evs[..n]), evs[n], n) {
      RunSnoc(c, evs[..n], evs[n]);
      assert evs[..n] + [evs[n]] == evs[..n + 1];
    }
    assert evs[..0] == [] && evs[..6] == evs;
    assert Run(c, evs[..0 + 1]) == Step(c, Run(c, evs[..0]), evs[0], 0)
      && Run(c, evs[..5 + 1]) == Step(c, Run(c, evs[..5]), evs[5], 5);
  }

  lemma StoryIsPrompt(c: Config, evs: seq<Event>, r: Request, v: int, who: nat, lag: int, asked: int, heard: int,
      again: int)
    requires IsStory(evs, r, v, who, lag, asked, heard, again) && heard <= asked + lag
    requires Run(c, evs[..1]).ops == map[0 := Op(who, Writing(r, Decision(v, 0, 0)))]
             && InHand(Run(c, evs[..4]), r, Decision(v, 0, 0), asked)
    ensures Prompt(c, evs, lag)
  {
    forall i | 0 <= i < |evs| ensures PromptStep(Run(c, evs[..i]), evs[i], lag) {
      assert i != 1 && i != 4 ==> !evs[i].Land? && !evs[i].Hear?;
      assert PromptStep(Run(c, evs[..1]), evs[1], lag) && PromptStep(Run(c, evs[..4]), evs[4], lag);
    }
  }

  lemma StoryIsSerial(c: Config, evs: seq<Event>, r: Request, v: int, who: nat, lag: int, asked: int, heard: int,
      again: int)
    requires IsStory(evs, r, v, who, lag, asked, heard, again) && Run(c, evs[..2]).ops == map[]
             && Run(c, evs[..5]).ops == map[]
    ensures Serial(c, evs, 0, r)
  {
    forall i | 0 <= i < |evs| && Starts(evs[i], 0, r) ensures Idle(Run(c, evs[..i]), 0, r) {
      assert i == 0 || i == 2 || i == 5;
      assert evs[..0] == [];
    }
  }

  /**
   * The bound of `CacheRuns.AnswerAge` is reached, whatever the lifetime and the delay: the entry lives once in L2,
   * and once more in another instance's L1.
   */
  lemma AnswerAgeIsTight(c: Config, lag: int, r: Request, v: int) returns (evs: seq<Event>)
    requires c.distributed && c.ttlSeconds > 0 && lag >= 0
    ensures |evs| == 6 && Timed(evs) && Prompt(c, evs, lag) && 5 in Run(c, evs).answers
    ensures evs[5].now - Run(c, evs).answers[5].decision.setAt == 2 * (1000 * c.ttlSeconds) + 2 * lag - 2
  {
    var t := TtlMs(c);
    evs := TellStory(r, v, 1, lag, lag + t - 1, 2 * lag + t - 1, 2 * t + 2 * lag - 2);
    StoryWorlds(c, evs, r, v, 1, lag, lag + t - 1, 2 * lag + t - 1, 2 * t + 2 * lag - 2);
    StoryIsPrompt(c, evs, r, v, 1, lag, lag + t - 1, 2 * lag + t - 1, 2 * t + 2 * lag - 2);
  }

  /**
   * A write that lands late breaks the bound of one lifetime on a single instance too, with its calls in sequence,
   * for every delay there is.
   */
  lemma LateWriteOutlivesTheTtl(c: Config, lag: int, r: Request, v: int) returns (evs: seq<Event>)
    requires c.distributed && c.ttlSeconds > 0 && 1 <= lag
    ensures |evs| == 6 && Timed(evs) && OneInstance(evs, 0) && Serial(c, evs, 0, r) && Prompt(c, evs, lag)
            && 5 in Run(c, evs).answers
    ensures evs[1] == Land(0, lag)
            && evs[5].now - Run(c, evs).answers[5].decision.setAt >= 2 * (1000 * c.ttlSeconds) - 1
  {
    var asked := if lag > TtlMs(c) then lag else TtlMs(c);
    evs := TellStory(r, v, 0, lag, asked, asked, asked + TtlMs(c) - 1);
    StoryWorlds(c, evs, r, v, 0, lag, asked, asked, asked + TtlMs(c) - 1);
    StoryIsPrompt(c, evs, r, v, 0, lag, asked, asked, asked + TtlMs(c) - 1);
    StoryIsSerial(c, evs, r, v, 0, lag, asked, asked, asked + TtlMs(c) - 1);
  }
}
