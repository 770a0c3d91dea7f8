/**
 * Runs of the entitlement cache: any number of instances sharing one L2, every call split where it waits for
 * L2, the clock never going back. Where answers come from, how old they get, and exactly when one can be older
 * than an invalidation.
 */
module CacheRuns {
  import opened Common
  import opened Quota
  import opened EntitlementCache

  datatype Request = Request(tenant: TenantId, feature: string, action: Action)

  function KeyFor(r: Request): string { KeyOf(r.tenant, r.feature, r.action) }

  lemma SameRequest(a: Request, b: Request)
    requires KeyFor(a) == KeyFor(b)
    ensures a == b
  {
    KeysAreDistinct(a.tenant, a.feature, a.action, b.tenant, b.feature, b.action);
  }

  /**
   * What a call is waiting for: a lookup for L2's answer, and then for its turn to remember it; a set for its L2
   * write; an invalidation for the L2 deletion of the key it has just taken from L1, and then for its next turn.
   */
  datatype Task =
    | Asking(request: Request)
    | Hearing(request: Request, remote: Option<Decision>, askedAt: int)
    | Writing(request: Request, decision: Decision)
    | Dropping(target: Target, key: string, deleted: bool)

  datatype Op = Op(who: nat, task: Task)

  datatype Answer = Answer(who: nat, request: Request, decision: Decision)

  datatype World = World(caches: map<nat, State>, l2: Shared, ops: map<nat, Op>, answers: map<nat, Answer>)

  const Start: World := World(map[], map[], map[], map[])

  datatype Kind = ByTenant(tenant: TenantId) | ByFeature(feature: string) | ByPair(pairTenant: TenantId,
    pairFeature: string) | Everything(order: seq<string>)

  /** `op` names the call; the first event of a call also says on which instance it is made. */
  datatype Event =
    | Lookup(op: nat, who: nat, request: Request, now: int)
    | Ask(op: nat, now: int)
    | Hear(op: nat, now: int)
    | Store(op: nat, who: nat, request: Request, verdict: int, now: int)
    | Land(op: nat, now: int)
    | Drop(op: nat, who: nat, kind: Kind, now: int)
    | Delete(op: nat, now: int)
    | Resume(op: nat, now: int)

  function Cache(w: World, who: nat): State { if who in w.caches then w.caches[who] else Empty }

  function SetCache(w: World, who: nat, s: State): World { w.(caches := w.caches[who := s]) }

  /** `clear` walks the keys L1 holds at that moment, in some order. */
  predicate KindOk(s: State, kind: Kind) { kind.Everything? ==> (set k | k in kind.order) == s.l1.Keys }

  function TargetOf(s: State, kind: Kind): Target {
    match kind
    case ByTenant(t) => TenantTarget(s, t)
    case ByFeature(f) => FeatureTarget(s, f)
    case ByPair(t, f) => PairTarget(t, f)
    case Everything(order) => OfAll(order)
  }

  /** A turn of an invalidation: it waits for the next deletion, or is over. */
  function Turned(w: World, x: nat, who: nat, target: Target): World {
    var (s, next) := Proceed(Cache(w, who), target);
    SetCache(w, who, s).(ops := if next.Some? then w.ops[x := Op(who, Dropping(next.value.0, next.value.1, false))]
      else w.ops - {x})
  }

  /** One step; an event that does not apply changes nothing. */
  function Step(c: Config, w: World, e: Event, i: nat): World {
    match e
    case Lookup(x, who, r, now) => if x in w.ops then w else LookedUp(c, w, x, who, r, now, i)
    case Store(x, who, r, v, now) => if x in w.ops then w else StoredLocally(c, w, x, who, r, Decision(v, now, i), now)
    case Drop(x, who, kind, now) => if x in w.ops || !KindOk(Cache(w, who), kind) then w
        else Turned(w, x, who, TargetOf(Cache(w, who), kind))
    case _ => if e.op in w.ops then Continued(c, w, e, i) else w
  }

  function LookedUp(c: Config, w: World, x: nat, who: nat, r: Request, now: int, i: nat): World {
    var (s, local) := LookedLocally(Cache(w, who), KeyFor(r), r.tenant, r.feature, now);
    var w1 := SetCache(w, who, s);
    if local.Some? then w1.(answers := w1.answers[i := Answer(who, r, local.value)])
    else if c.distributed then w1.(ops := w1.ops[x := Op(who, Asking(r))])
    else w1
  }

  function StoredLocally(c: Config, w: World, x: nat, who: nat, r: Request, d: Decision, now: int): World {
    var w1 := SetCache(w, who, Remember(c, Cache(w, who), KeyFor(r), r.tenant, r.feature, d, now));
    if c.distributed then w1.(ops := w1.ops[x := Op(who, Writing(r, d))]) else w1
  }

  function Continued(c: Config, w: World, e: Event, i: nat): World
    requires e.op in w.ops
  {
    var x := e.op;
    var who, task := w.ops[x].who, w.ops[x].task;
    if e.Ask? && task.Asking?
        then w.(ops := w.ops[x := Op(who, Hearing(task.request, Fetch(w.l2, KeyFor(task.request), e.now), e.now))])
    else if e.Hear? && task.Hearing? then HeardBack(c, w, x, who, task.request, task.remote, e.now, i)
    else if e.Land? && task.Writing?
        then w.(l2 := Put(c, w.l2, KeyFor(task.request), task.decision, e.now, who), ops := w.ops - {x})
    else if e.Delete? && task.Dropping? && !task.deleted then
      w.(l2 := if c.distributed then w.l2 - {task.key} else w.l2, ops := w.ops[x := Op(who, task.(deleted := true))])
    else if e.Resume? && task.Dropping? && task.deleted then Turned(w, x, who, task.target)
    else w
  }

  function HeardBack(c: Config, w: World, x: nat, who: nat, r: Request, remote: Option<Decision>, now: int,
      i: nat): World {
    var w1 := SetCache(w, who, Heard(c, Cache(w, who), KeyFor(r), r.tenant, r.feature, remote, now));
    w1.(ops := w1.ops - {x}, answers := if remote.Some? then w1.answers[i := Answer(who, r, remote.value)]
      else w1.answers)
  }

  function Run(c: Config, evs: seq<Event>): World {
    if evs == [] then Start else Step(c, Run(c, evs[..|evs| - 1]), evs[|evs| - 1], |evs| - 1)
  }

  lemma RunSnoc(c: Config, evs: seq<Event>, e: Event)
    ensures Run(c, evs + [e]) == Step(c, Run(c, evs), e, |evs|)
  {
    assert (evs + [e])[..|evs|] == evs;
  }

  ghost predicate Timed(evs: seq<Event>) {
    && (forall k | 0 <= k < |evs| :: 0 <= evs[k].now)
    && (forall j, k | 0 <= j < k < |evs| :: evs[j].now <= evs[k].now)
  }

  function Clock(evs: seq<Event>): int { if evs == [] then 0 else evs[|evs| - 1].now }

  lemma TimedPrefix(evs: seq<Event>)
    requires Timed(evs) && evs != []
    ensures Timed(evs[..|evs| - 1]) && 0 <= Clock(evs[..|evs| - 1]) <= evs[|evs| - 1].now == Clock(evs)
  {
    var n := |evs| - 1;
    assert forall k | 0 <= k < n :: evs[..n][k] == evs[k];
  }

  lemma TimedCut(evs: seq<Event>, n: nat)
    requires Timed(evs) && n <= |evs|
    ensures Timed(evs[..n]) && (n < |evs| ==> Clock(evs[..n]) <= evs[n].now)
  {
    assert forall k | 0 <= k < n :: evs[..n][k] == evs[k];
  }

  // ---------------------------------------------------------------------------
  // What one step can do to one key
  // ---------------------------------------------------------------------------

  predicate HasFresh1(s: State, k: string, now: int) { k in s.l1 && Fresh1(s.l1[k], now) }

  predicate HasFresh2(l2: Shared, k: string, now: int) { k in l2 && Fresh2(l2[k], now) }

  /** A lookup of this instance has an answer of L2 in hand that it will remember. */
  predicate Brings(op: Op, who: nat, k: string) {
    op.who == who && op.task.Hearing? && KeyFor(op.task.request) == k && op.task.remote.Some?
  }

  /** A set, of any instance, has yet to reach L2. */
  predicate Writes(op: Op, k: string) { op.task.Writing? && KeyFor(op.task.request) == k }

  /** The L1 and the indexes of one instance after a step. */
  function CacheAfter(c: Config, w: World, e: Event, i: nat, who: nat): State {
    var s := Cache(w, who);
    if e.Lookup? then if e.op !in w.ops && e.who == who
        then LookedLocally(s, KeyFor(e.request), e.request.tenant, e.request.feature, e.now).0 else s
    else if e.Store? then
      if e.op !in w.ops && e.who == who
          then Remember(c, s, KeyFor(e.request), e.request.tenant, e.request.feature, Decision(e.verdict, e.now, i),
              e.now) else s
    else if e.Drop? then if e.op !in w.ops && e.who == who && KindOk(s, e.kind)
        then Proceed(s, TargetOf(s, e.kind)).0 else s
    else if e.op !in w.ops || w.ops[e.op].who != who then s
    else ContinuedCache(c, s, w.ops[e.op].task, e)
  }

  function ContinuedCache(c: Config, s: State, task: Task, e: Event): State {
    if e.Hear? && task.Hearing?
        then Heard(c, s, KeyFor(task.request), task.request.tenant, task.request.feature, task.remote, e.now)
    else if e.Resume? && task.Dropping? && task.deleted then Proceed(s, task.target).0
    else s
  }

  lemma CacheIs(c: Config, w: World, e: Event, i: nat, who: nat)
    ensures Cache(Step(c, w, e, i), who) == CacheAfter(c, w, e, i, who)
  {
  }

  /**
   * Where a step may find the decision it puts into the L1 of `who`: the same place before, its own set, or an answer
   * in hand.
   */
  lemma L1Origin(c: Config, w: World, e: Event, i: nat, who: nat, k: string)
    ensures var w' := Step(c, w, e, i);
            k in Cache(w', who).l1 ==>
              || (k in Cache(w, who).l1 && Cache(w', who).l1[k] == Cache(w, who).l1[k])
              || (e.Store? && KeyFor(e.request) == k
                   && Cache(w', who).l1[k]
                        == Entry(Decision(e.verdict, e.now, i), if c.ttlSeconds > 0 then e.now + TtlMs(c) else 0))
              || (e.Hear? && e.op in w.ops && Brings(w.ops[e.op], who, k)
                  && Cache(w', who).l1[k]
                       == Entry(w.ops[e.op].task.remote.value, if c.ttlSeconds > 0 then e.now + TtlMs(c) else 0))
  {
    var s := Cache(w, who);
    CacheIs(c, w, e, i, who);
    if e.Lookup? {
      LookShrinks(s, KeyFor(e.request), e.request.tenant, e.request.feature, e.now);
    } else if e.Drop? {
      TurnShrinks(s, TargetOf(s, e.kind));
    } else if e.Resume? && e.op in w.ops && w.ops[e.op].task.Dropping? {
      TurnShrinks(s, w.ops[e.op].task.target);
    }
  }

  lemma LookShrinks(s: State, q: string, t: string, f: string, now: int)
    ensures forall k | k in LookedLocally(s, q, t, f, now).0.l1 ::
            k in s.l1 && LookedLocally(s, q, t, f, now).0.l1[k] == s.l1[k]
  {
  }

  lemma TurnShrinks(s: State, x: Target)
    ensures forall k | k in Proceed(s, x).0.l1 :: k in s.l1 && Proceed(s, x).0.l1[k] == s.l1[k]
  {
  }

  /** What a step may find in L2: the same as before, or a set that lands. */
  lemma L2Origin(c: Config, w: World, e: Event, i: nat, k: string)
    ensures var w' := Step(c, w, e, i);
            k in w'.l2 ==>
              || (k in w.l2 && w'.l2[k] == w.l2[k])
              || (e.Land? && e.op in w.ops && Writes(w.ops[e.op], k)
                  && w'.l2[k] == Remote(w.ops[e.op].task.decision,
                       if c.ttlSeconds > 0 then Some(e.now + TtlMs(c)) else None, w.ops[e.op].who))
  {
  }

  /** What calls may be under way after a step: the same as before, a new one, or one that has moved on. */
  lemma OpOrigin(c: Config, w: World, e: Event, i: nat, y: nat)
    ensures var w' := Step(c, w, e, i);
            y in w'.ops ==>
              || (y in w.ops && w'.ops[y] == w.ops[y])
              || (y == e.op && (w'.ops[y].task.Asking? || w'.ops[y].task.Dropping?))
              || (y == e.op && e.Store? && w'.ops[y] == Op(e.who, Writing(e.request, Decision(e.verdict, e.now, i))))
              || (y == e.op && e.Ask? && y in w.ops && w.ops[y].task.Asking?
                  && w'.ops[y] == Op(w.ops[y].who,
                       Hearing(w.ops[y].task.request, Fetch(w.l2, KeyFor(w.ops[y].task.request), e.now), e.now)))
  {
  }

  /** An answer comes from a fresh L1 entry, or from L2's answer in hand. */
  lemma AnswerOrigin(c: Config, w: World, e: Event, i: nat, j: nat)
    ensures var w' := Step(c, w, e, i);
            j in w'.answers ==>
              || (j in w.answers && w'.answers[j] == w.answers[j])
              || (j == i && e.Lookup? && w'.answers[j].who == e.who && w'.answers[j].request == e.request
                  && HasFresh1(Cache(w, e.who), KeyFor(e.request), e.now)
                  && w'.answers[j].decision == Cache(w, e.who).l1[KeyFor(e.request)].decision)
              || (j == i && e.Hear? && e.op in w.ops && w'.answers[j].who == w.ops[e.op].who
                   && w.ops[e.op].task.Hearing?
                  && w'.answers[j].request == w.ops[e.op].task.request
                  && w.ops[e.op].task.remote == Some(w'.answers[j].decision))
  {
  }

  // ---------------------------------------------------------------------------
  // Where answers come from
  // ---------------------------------------------------------------------------

  /** The decision was given to `set` for this key, at position `since` or later. */
  predicate Given(evs: seq<Event>, since: nat, k: string, d: Decision) {
    && since <= d.serial < |evs| && evs[d.serial].Store?
    && KeyFor(evs[d.serial].request) == k && d == Decision(evs[d.serial].verdict, evs[d.serial].now, d.serial)
  }

  ghost predicate OpsGiven(w: World, evs: seq<Event>, since: nat, who: nat, k: string) {
    forall y | y in w.ops :: OpGiven(w.ops[y], evs, since, who, k)
  }

  predicate OpGiven(op: Op, evs: seq<Event>, since: nat, who: nat, k: string) {
    && (Writes(op, k) ==> Given(evs, since, k, op.task.decision))
    && (Brings(op, who, k) ==> Given(evs, since, k, op.task.remote.value))
  }

  /** Whatever can become an answer of `who` for this key was given at `since` or later. */
  ghost predicate Sourced(w: World, evs: seq<Event>, since: nat, who: nat, k: string, now: int) {
    && (HasFresh1(Cache(w, who), k, now) ==> Given(evs, since, k, Cache(w, who).l1[k].decision))
    && (HasFresh2(w.l2, k, now) ==> Given(evs, since, k, w.l2[k].decision))
    && OpsGiven(w, evs, since, who, k)
  }

  lemma GivenLonger(evs: seq<Event>, since: nat, k: string, d: Decision)
    requires evs != [] && Given(evs[..|evs| - 1], since, k, d)
    ensures Given(evs, since, k, d)
  {
    assert evs[..|evs| - 1][d.serial] == evs[d.serial];
  }

  lemma SourcedKept(c: Config, w: World, evs: seq<Event>, since: nat, who: nat, k: string, clock: int)
    requires evs != [] && since < |evs| && clock <= evs[|evs| - 1].now
    requires Sourced(w, evs[..|evs| - 1], since, who, k, clock)
    ensures Sourced(Step(c, w, evs[|evs| - 1], |evs| - 1), evs, since, who, k, evs[|evs| - 1].now)
  {
    var n := |evs| - 1;
    var e, w' := evs[n], Step(c, w, evs[n], n);
    forall d | Given(evs[..n], since, k, d) ensures Given(evs, since, k, d) { GivenLonger(evs, since, k, d); }
    if e.op in w.ops { assert OpGiven(w.ops[e.op], evs[..n], since, who, k); }
    assert HasFresh1(Cache(w', who), k, e.now) ==> Given(evs, since, k, Cache(w', who).l1[k].decision) by {
      L1Origin(c, w, e, n, who, k);
    }
    assert HasFresh2(w'.l2, k, e.now) ==> Given(evs, since, k, w'.l2[k].decision) by { L2Origin(c, w, e, n, k); }
    forall y | y in w'.ops ensures OpGiven(w'.ops[y], evs, since, who, k) {
      OpOrigin(c, w, e, n, y);
      if y in w.ops { assert OpGiven(w.ops[y], evs[..n], since, who, k); }
    }
  }

  lemma {:induction false} SourcedFrom(c: Config, evs: seq<Event>, from: nat, since: nat, who: nat, k: string)
    requires Timed(evs) && since <= from <= |evs|
    requires Sourced(Run(c, evs[..from]), evs[..from], since, who, k, Clock(evs[..from]))
    ensures Sourced(Run(c, evs), evs, since, who, k, Clock(evs))
  {
    if from == |evs| {
      assert evs[..from] == evs;
    } else {
      var n := |evs| - 1;
      TimedPrefix(evs);
      assert evs[..n][..from] == evs[..from];
      SourcedFrom(c, evs[..n], from, since, who, k);
      SourcedKept(c, Run(c, evs[..n]), evs, since, who, k, Clock(evs[..n]));
    }
  }

  /** Answers are recorded once, by the event that gives them, and stay. */
  lemma {:induction false} AnswerAtItsTime(c: Config, evs: seq<Event>, i: nat)
    requires i in Run(c, evs).answers
    ensures i < |evs| && i !in Run(c, evs[..i]).answers
    ensures i in Step(c, Run(c, evs[..i]), evs[i], i).answers
            && Step(c, Run(c, evs[..i]), evs[i], i).answers[i] == Run(c, evs).answers[i]
  {
    var n := |evs| - 1;
    AnswerOrigin(c, Run(c, evs[..n]), evs[n], n, i);
    if i in Run(c, evs[..n]).answers {
      AnswerAtItsTime(c, evs[..n], i);
      AnswersStay(c, Run(c, evs[..n]), evs[n], n, i);
      assert evs[..n][..i] == evs[..i] && evs[..n][i] == evs[i];
    } else {
      assert i == n;
    }
  }

  lemma AnswersStay(c: Config, w: World, e: Event, n: nat, i: nat)
    requires i in w.answers && i != n
    ensures i in Step(c, w, e, n).answers && Step(c, w, e, n).answers[i] == w.answers[i]
  {
  }

  lemma NoFutureAnswers(c: Config, evs: seq<Event>, i: nat)
    requires i in Run(c, evs).answers
    ensures i < |evs|
  {
    AnswerAtItsTime(c, evs, i);
  }

  /** If nothing older was left at `from`, an answer given later was given to `set` since. */
  lemma AnswerSince(c: Config, evs: seq<Event>, i: nat, from: nat, since: nat)
    requires Timed(evs) && i in Run(c, evs).answers && since <= from <= i < |evs|
    requires var a := Run(c, evs).answers[i];
             Sourced(Run(c, evs[..from]), evs[..from], since, a.who, KeyFor(a.request), Clock(evs[..from]))
    ensures var a := Run(c, evs).answers[i]; Given(evs, since, KeyFor(a.request), a.decision) && a.decision.serial < i
  {
    var a := Run(c, evs).answers[i];
    var k := KeyFor(a.request);
    AnswerAtItsTime(c, evs, i);
    TimedCut(evs, i);
    assert evs[..i][..from] == evs[..from];
    SourcedFrom(c, evs[..i], from, since, a.who, k);
    var w := Run(c, evs[..i]);
    AnswerOrigin(c, w, evs[i], i, i);
    if evs[i].op in w.ops { assert OpGiven(w.ops[evs[i].op], evs[..i], since, a.who, k); }
    assert Given(evs[..i], since, k, a.decision);
    assert evs[..i][a.decision.serial] == evs[a.decision.serial];
  }

  /** The cache never changes a verdict: every answer was set earlier, for the very same tenant, feature and action. */
  lemma AnswersWereSet(c: Config, evs: seq<Event>, i: nat)
    requires Timed(evs) && i in Run(c, evs).answers
    ensures var a := Run(c, evs).answers[i];
            var j := a.decision.serial;
            && j < i < |evs| && evs[j].Store? && evs[j].request == a.request
            && a.decision.verdict == evs[j].verdict && a.decision.setAt == evs[j].now
  {
    var a := Run(c, evs).answers[i];
    AnswerAtItsTime(c, evs, i);
    assert evs[..0] == [];
    AnswerSince(c, evs, i, 0, 0);
    SameRequest(evs[a.decision.serial].request, a.request);
  }

  // ---------------------------------------------------------------------------
  // When an answer can be older than a moment
  // ---------------------------------------------------------------------------

  /** Something alive or under way holds a decision that can become an answer of `who` for this key. */
  ghost predicate Carried(w: World, who: nat, k: string, now: int) {
    || HasFresh1(Cache(w, who), k, now)
    || HasFresh2(w.l2, k, now)
    || exists y | y in w.ops :: Writes(w.ops[y], k) || Brings(w.ops[y], who, k)
  }

  /** The run can go on so that `who` answers this request with a decision set before now. */
  ghost predicate OldAnswerPossible(c: Config, evs: seq<Event>, who: nat, r: Request) {
    exists more: seq<Event>, i: nat :: OldAnswer(c, evs, more, i, who, r)
  }

  ghost predicate OldAnswer(c: Config, evs: seq<Event>, more: seq<Event>, i: nat, who: nat, r: Request) {
    && Timed(evs + more) && |evs| <= i && i in Run(c, evs + more).answers
    && Run(c, evs + more).answers[i].who == who && Run(c, evs + more).answers[i].request == r
    && Run(c, evs + more).answers[i].decision.serial < |evs|
  }

  /** Without L2 nothing waits for it and nothing is in it. */
  lemma {:induction false} LocalOnly(c: Config, evs: seq<Event>)
    requires !c.distributed
    ensures Run(c, evs).l2 == map[] && forall y | y in Run(c, evs).ops :: Run(c, evs).ops[y].task.Dropping?
  {
    if evs != [] { LocalOnly(c, evs[..|evs| - 1]); }
  }

  lemma UnusedOp(ops: map<nat, Op>) returns (x: nat)
    ensures x !in ops
  {
    x := Above(ops.Keys);
  }

  lemma Above(s: set<nat>) returns (x: nat)
    ensures forall y | y in s :: y < x
    decreases |s|
  {
    if s == {} {
      x := 0;
    } else {
      var top :| top in s;
      var rest := Above(s - {top});
      x := if rest <= top then top + 1 else rest;
      assert forall y | y in s :: y == top || y in s - {top};
    }
  }

  lemma TimedMore(evs: seq<Event>, e: Event)
    requires Timed(evs) && e.now == Clock(evs) && 0 <= Clock(evs)
    ensures Timed(evs + [e]) && Clock(evs + [e]) == Clock(evs)
  {
  }

  /** A fresh L1 entry can be looked up. */
  lemma OldFromL1(c: Config, evs: seq<Event>, more: seq<Event>, who: nat, r: Request)
    requires Timed(evs + more) && 0 <= Clock(evs + more)
    requires var w := Run(c, evs + more);
             HasFresh1(Cache(w, who), KeyFor(r), Clock(evs + more))
               && Cache(w, who).l1[KeyFor(r)].decision.serial < |evs|
    ensures OldAnswerPossible(c, evs, who, r)
  {
    var w := Run(c, evs + more);
    var x := UnusedOp(w.ops);
    var e := Lookup(x, who, r, Clock(evs + more));
    TimedMore(evs + more, e);
    RunSnoc(c, evs + more, e);
    assert evs + more + [e] == evs + (more + [e]);
    assert OldAnswer(c, evs, more + [e], |evs + more|, who, r);
  }

  /** An answer in hand can be remembered, and is then answered. */
  lemma OldFromHand(c: Config, evs: seq<Event>, more: seq<Event>, x: nat, who: nat, r: Request)
    requires Timed(evs + more) && 0 <= Clock(evs + more)
    requires var w := Run(c, evs + more);
             x in w.ops && w.ops[x].who == who && w.ops[x].task.Hearing? && w.ops[x].task.request == r
               && w.ops[x].task.remote.Some? && w.ops[x].task.remote.value.serial < |evs|
    ensures OldAnswerPossible(c, evs, who, r)
  {
    var e := Hear(x, Clock(evs + more));
    TimedMore(evs + more, e);
    RunSnoc(c, evs + more, e);
    assert evs + more + [e] == evs + (more + [e]);
    assert OldAnswer(c, evs, more + [e], |evs + more|, who, r);
  }

  lemma AskedFor(c: Config, w: World, x: nat, who: nat, r: Request, now: int, i: nat)
    requires c.distributed && x !in w.ops && !HasFresh1(Cache(w, who), KeyFor(r), now)
             && HasFresh2(w.l2, KeyFor(r), now)
    ensures var w' := Step(c, Step(c, w, Lookup(x, who, r, now), i), Ask(x, now), i + 1);
            x in w'.ops && w'.ops[x] == Op(who, Hearing(r, Some(w.l2[KeyFor(r)].decision), now))
  {
  }

  /** A fresh L2 entry can be asked for. */
  lemma OldFromL2(c: Config, evs: seq<Event>, more: seq<Event>, who: nat, r: Request)
    requires Timed(evs + more) && 0 <= Clock(evs + more) && c.distributed
    requires var w := Run(c, evs + more);
             && HasFresh2(w.l2, KeyFor(r), Clock(evs + more)) && w.l2[KeyFor(r)].decision.serial < |evs|
             && (HasFresh1(Cache(w, who), KeyFor(r), Clock(evs + more)) ==>
                  Cache(w, who).l1[KeyFor(r)].decision.serial < |evs|)
    ensures OldAnswerPossible(c, evs, who, r)
  {
    var w, now := Run(c, evs + more), Clock(evs + more);
    if HasFresh1(Cache(w, who), KeyFor(r), now) {
      OldFromL1(c, evs, more, who, r);
    } else {
      var x := UnusedOp(w.ops);
      var a, b := Lookup(x, who, r, now), Ask(x, now);
      TimedMore(evs + more, a);
      RunSnoc(c, evs + more, a);
      TimedMore(evs + more + [a], b);
      RunSnoc(c, evs + more + [a], b);
      AskedFor(c, w, x, who, r, now, |evs + more|);
      assert evs + more + [a] + [b] == evs + (more + [a] + [b]);
      OldFromHand(c, evs, more + [a] + [b], x, who, r);
    }
  }

  /** A set under way can land, and is then asked for. */
  lemma OldFromWrite(c: Config, evs: seq<Event>, x: nat, who: nat, r: Request)
    requires Timed(evs) && c.distributed && x in Run(c, evs).ops && Writes(Run(c, evs).ops[x], KeyFor(r))
    requires Run(c, evs).ops[x].task.decision.serial < |evs|
    requires HasFresh1(Cache(Run(c, evs), who), KeyFor(r), Clock(evs)) ==>
             Cache(Run(c, evs), who).l1[KeyFor(r)].decision.serial < |evs|
    ensures OldAnswerPossible(c, evs, who, r)
  {
    var e := Land(x, Clock(evs));
    TimedMore(evs, e);
    RunSnoc(c, evs, e);
    OldFromL2(c, evs, [e], who, r);
  }

  /** In every run, whatever is cached or under way was set before. */
  lemma AllFromThePast(c: Config, evs: seq<Event>, who: nat, k: string)
    requires Timed(evs)
    ensures Sourced(Run(c, evs), evs, 0, who, k, Clock(evs))
  {
    assert evs[..0] == [];
    SourcedFrom(c, evs, 0, 0, who, k);
  }

  /**
   * Exactly when an answer can be older: after any run, an instance can yet answer a request with a decision set
   * before this moment if and only if a copy is fresh in its L1 or in L2, one of its own lookups has L2's answer
   * in hand, or a set of any instance is still on its way to L2.
   */
  lemma OldAnswerIff(c: Config, evs: seq<Event>, who: nat, r: Request)
    requires Timed(evs)
    ensures OldAnswerPossible(c, evs, who, r) <==> Carried(Run(c, evs), who, KeyFor(r), Clock(evs))
  {
    if Carried(Run(c, evs), who, KeyFor(r), Clock(evs)) {
      CarriedIsPossible(c, evs, who, r);
    } else if OldAnswerPossible(c, evs, who, r) {
      var more: seq<Event>, i: nat :| OldAnswer(c, evs, more, i, who, r);
      NothingOlder(c, evs, more, i, who, r);
      assert false;
    }
  }

  lemma NothingOlder(c: Config, evs: seq<Event>, more: seq<Event>, i: nat, who: nat, r: Request)
    requires Timed(evs + more) && |evs| <= i && i in Run(c, evs + more).answers
             && !Carried(Run(c, evs), who, KeyFor(r), Clock(evs))
    requires Run(c, evs + more).answers[i].who == who && Run(c, evs + more).answers[i].request == r
    ensures Run(c, evs + more).answers[i].decision.serial >= |evs|
  {
    var k := KeyFor(r);
    assert (evs + more)[..|evs|] == evs;
    forall y | y in Run(c, evs).ops ensures OpGiven(Run(c, evs).ops[y], evs, |evs|, who, k) {
      assert !(Writes(Run(c, evs).ops[y], k) || Brings(Run(c, evs).ops[y], who, k));
    }
    NoFutureAnswers(c, evs + more, i);
    AnswerSince(c, evs + more, i, |evs|, |evs|);
  }

  lemma CarriedIsPossible(c: Config, evs: seq<Event>, who: nat, r: Request)
    requires Timed(evs) && Carried(Run(c, evs), who, KeyFor(r), Clock(evs))
    ensures OldAnswerPossible(c, evs, who, r)
  {
    var w, k := Run(c, evs), KeyFor(r);
    AllFromThePast(c, evs, who, k);
    if !c.distributed { LocalOnly(c, evs); }
    assert evs + [] == evs;
    assert 0 <= Clock(evs);
    if HasFresh1(Cache(w, who), k, Clock(evs)) {
      OldFromL1(c, evs, [], who, r);
    } else if HasFresh2(w.l2, k, Clock(evs)) {
      OldFromL2(c, evs, [], who, r);
    } else {
      var y :| y in w.ops && (Writes(w.ops[y], k) || Brings(w.ops[y], who, k));
      assert OpGiven(w.ops[y], evs, 0, who, k);
      SameRequest(w.ops[y].task.request, r);
      if Writes(w.ops[y], k) { OldFromWrite(c, evs, y, who, r); } else { OldFromHand(c, evs, [], y, who, r); }
    }
  }

  // ---------------------------------------------------------------------------
  // How old answers get
  // ---------------------------------------------------------------------------

  /** L2 calls take at most `lag`: a set lands, and an answer of L2 is remembered, that soon. */
  ghost predicate Prompt(c: Config, evs: seq<Event>, lag: int) {
    forall i | 0 <= i < |evs| :: PromptStep(Run(c, evs[..i]), evs[i], lag)
  }

  predicate PromptStep(w: World, e: Event, lag: int) {
    e.op in w.ops ==>
      var task := w.ops[e.op].task;
      && (e.Land? && task.Writing? ==> e.now <= task.decision.setAt + lag)
      && (e.Hear? && task.Hearing? ==> e.now <= task.askedAt + lag)
  }

  lemma PromptPrefix(c: Config, evs: seq<Event>, lag: int)
    requires evs != [] && Prompt(c, evs, lag)
    ensures Prompt(c, evs[..|evs| - 1], lag) && PromptStep(Run(c, evs[..|evs| - 1]), evs[|evs| - 1], lag)
  {
    var n := |evs| - 1;
    forall i | 0 <= i < n ensures PromptStep(Run(c, evs[..n][..i]), evs[..n][i], lag) {
      assert evs[..n][..i] == evs[..i] && PromptStep(Run(c, evs[..i]), evs[i], lag);
    }
  }

  predicate Aged1(c: Config, lag: int, e: Entry) { 0 < e.expiresAtMs < e.decision.setAt + 2 * TtlMs(c) + 2 * lag }

  predicate Aged2(c: Config, lag: int, r: Remote) {
    r.expiresAt.Some? && r.expiresAt.value <= r.decision.setAt + TtlMs(c) + lag
  }

  predicate AgedOp(c: Config, lag: int, who: nat, k: string, op: Op) {
    Brings(op, who, k) ==> op.task.askedAt < op.task.remote.value.setAt + TtlMs(c) + lag
  }

  ghost predicate Aged(c: Config, lag: int, w: World, who: nat, k: string) {
    && (k in Cache(w, who).l1 ==> Aged1(c, lag, Cache(w, who).l1[k])) && (k in w.l2 ==> Aged2(c, lag, w.l2[k]))
    && (forall y | y in w.ops :: AgedOp(c, lag, who, k, w.ops[y]))
  }

  lemma AgedKept(c: Config, lag: int, w: World, e: Event, i: nat, who: nat, k: string)
    requires c.ttlSeconds > 0 && lag >= 0 && 0 <= e.now && PromptStep(w, e, lag) && Aged(c, lag, w, who, k)
    ensures Aged(c, lag, Step(c, w, e, i), who, k)
  {
    var w' := Step(c, w, e, i);
    if e.op in w.ops { assert AgedOp(c, lag, who, k, w.ops[e.op]); }
    assert k in Cache(w', who).l1 ==> Aged1(c, lag, Cache(w', who).l1[k]) by { L1Origin(c, w, e, i, who, k); }
    assert k in w'.l2 ==> Aged2(c, lag, w'.l2[k]) by { L2Origin(c, w, e, i, k); }
    forall y | y in w'.ops ensures AgedOp(c, lag, who, k, w'.ops[y]) {
      OpOrigin(c, w, e, i, y);
      if y in w.ops { assert AgedOp(c, lag, who, k, w.ops[y]); }
    }
  }

  lemma {:induction false} AgedInEveryRun(c: Config, lag: int, evs: seq<Event>, who: nat, k: string)
    requires c.ttlSeconds > 0 && lag >= 0 && Timed(evs) && Prompt(c, evs, lag)
    ensures Aged(c, lag, Run(c, evs), who, k)
  {
    if evs != [] {
      TimedPrefix(evs);
      PromptPrefix(c, evs, lag);
      AgedInEveryRun(c, lag, evs[..|evs| - 1], who, k);
      AgedKept(c, lag, Run(c, evs[..|evs| - 1]), evs[|evs| - 1], |evs| - 1, who, k);
    }
  }

  lemma PromptCut(c: Config, evs: seq<Event>, lag: int, n: nat)
    requires Prompt(c, evs, lag) && n < |evs|
    ensures Prompt(c, evs[..n], lag) && PromptStep(Run(c, evs[..n]), evs[n], lag)
  {
    forall i | 0 <= i < n ensures PromptStep(Run(c, evs[..n][..i]), evs[..n][i], lag) {
      assert evs[..n][..i] == evs[..i] && PromptStep(Run(c, evs[..i]), evs[i], lag);
    }
  }

  /**
   * Any number of instances, any interleaving: an answer was set less than twice the lifetime before, plus twice
   * the time an L2 call can take. An L2 hit is remembered in L1 for a second lifetime but never written back.
   */
  lemma AnswerAge(c: Config, lag: int, evs: seq<Event>, i: nat)
    requires c.ttlSeconds > 0 && lag >= 0 && Timed(evs) && Prompt(c, evs, lag) && i in Run(c, evs).answers
    ensures i < |evs| && evs[i].now - Run(c, evs).answers[i].decision.setAt <= 2 * (1000 * c.ttlSeconds) + 2 * lag - 2
  {
    AnswerAtItsTime(c, evs, i);
    TimedCut(evs, i);
    PromptCut(c, evs, lag, i);
    var a, w := Run(c, evs).answers[i], Run(c, evs[..i]);
    AgedInEveryRun(c, lag, evs[..i], a.who, KeyFor(a.request));
    AnswerOrigin(c, w, evs[i], i, i);
    if evs[i].op in w.ops { assert AgedOp(c, lag, a.who, KeyFor(a.request), w.ops[evs[i].op]); }
  }
}
