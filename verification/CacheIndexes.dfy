/**
 * The cache's indexes over interleaved runs: as long as the calls of an instance about one request come one at a
 * time, whatever else it does meanwhile, its entry is indexed and an invalidation that covers it is thorough.
 */
module CacheIndexes {
  import opened Common
  import opened Quota
  import opened EntitlementCache
  import opened CacheRuns

  /** The loop is meant to drop this request. */
  predicate Covers(x: Target, r: Request) {
    match x
    case OfTenant(t, _, _) => t == r.tenant
    case OfFeature(f, _, _) => f == r.feature
    case OfPair(t, f, _) => t == r.tenant && f == r.feature
    case OfAll(_) => true
  }

  predicate KindCovers(kind: Kind, r: Request) {
    match kind
    case ByTenant(t) => t == r.tenant
    case ByFeature(f) => f == r.feature
    case ByPair(t, f) => t == r.tenant && f == r.feature
    case Everything(_) => true
  }

  /** A call of this instance about this request: a lookup, a set, or an invalidation that covers it. */
  predicate Concerns(op: Op, me: nat, r: Request) {
    op.who == me && if op.task.Dropping? then Covers(op.task.target, r) else op.task.request == r
  }

  predicate Starts(e: Event, me: nat, r: Request) {
    match e
    case Lookup(_, who, q, _) => who == me && q == r
    case Store(_, who, q, _, _) => who == me && q == r
    case Drop(_, who, kind, _) => who == me && KindCovers(kind, r)
    case _ => false
  }

  /** No call of this instance about this request is under way. */
  ghost predicate Idle(w: World, me: nat, r: Request) { forall y | y in w.ops :: !Concerns(w.ops[y], me, r) }

  /** The calls of this instance about this request come one at a time. Calls about anything else may overlap them. */
  ghost predicate Serial(c: Config, evs: seq<Event>, me: nat, r: Request) {
    forall i | 0 <= i < |evs| && Starts(evs[i], me, r) :: Idle(Run(c, evs[..i]), me, r)
  }

  // ---------------------------------------------------------------------------
  // Key sets
  // ---------------------------------------------------------------------------

  predicate HoldsAt(m: Index, x: string, gen: nat, i: nat, k: string) {
    i < |List(m, x, gen)| && List(m, x, gen)[i] == Some(k)
  }

  /** The key keeps every place it has. */
  ghost predicate Kept(m: Index, m': Index, k: string) {
    forall x, gen: nat, i: nat | HoldsAt(m, x, gen, i, k) :: HoldsAt(m', x, gen, i, k)
  }

  /** The key is in no set of any tenant or feature but `own`. */
  ghost predicate OnlyUnder(m: Index, own: string, k: string) {
    forall x, gen: nat, i: nat | HoldsAt(m, x, gen, i, k) :: x == own
  }

  lemma AddKeeps(m: Index, x: string, k2: string, k: string)
    ensures Kept(m, Add(m, x, k2), k)
  {
  }

  lemma RemoveKeeps(m: Index, x: string, k2: string, k: string)
    requires k2 != k
    ensures Kept(m, Remove(m, x, k2), k)
  {
  }

  lemma AddSound(m: Index, x: string, k2: string, own: string, k: string)
    requires OnlyUnder(m, own, k) && (k2 == k ==> x == own)
    ensures OnlyUnder(Add(m, x, k2), own, k)
  {
    var m' := Add(m, x, k2);
    forall y, gen: nat, i: nat | HoldsAt(m', y, gen, i, k) ensures y == own {
      if !HoldsAt(m, y, gen, i, k) { assert y == x && k2 == k; }
    }
  }

  lemma RemoveSound(m: Index, x: string, k2: string, own: string, k: string)
    requires OnlyUnder(m, own, k)
    ensures OnlyUnder(Remove(m, x, k2), own, k)
  {
    var m' := Remove(m, x, k2);
    forall y, gen: nat, i: nat | HoldsAt(m', y, gen, i, k) ensures y == own { assert HoldsAt(m, y, gen, i, k); }
  }

  /** Listing after an addition: the key added, and every key that was listed. */
  lemma AddLists(m: Index, x: string, k2: string, own: string, k: string)
    ensures Lists(Add(m, x, k2), x, k2)
    ensures Lists(m, own, k) ==> Lists(Add(m, x, k2), own, k)
  {
    var b, b' := Of(m, x), Of(Add(m, x, k2), x);
    if IsAttached(m, x) {
      var l := b.lists[|b.lists| - 1];
      if Some(k2) in l {} else { assert Insert(l, k2)[|l|] == Some(k2); }
    } else {
      assert b'.lists[|b.lists|] == [Some(k2)] && [Some(k2)][0] == Some(k2);
    }
    if Lists(m, own, k) && own == x {
      var l := List(m, x, Current(m, x));
      var i :| 0 <= i < |l| && l[i] == Some(k);
      assert Insert(l, k2)[i] == Some(k);
    }
  }

  lemma RemoveLists(m: Index, x: string, k2: string, own: string, k: string)
    requires k2 != k && Lists(m, own, k)
    ensures Lists(Remove(m, x, k2), own, k)
  {
    if own == x && IsAttached(m, x) {
      var l := List(m, x, Current(m, x));
      var i :| 0 <= i < |l| && l[i] == Some(k);
      assert Strike(l, k2)[i] == Some(k);
    }
  }

  // ---------------------------------------------------------------------------
  // Steps that are not about the request
  // ---------------------------------------------------------------------------

  predicate Listed(s: State, r: Request) {
    Lists(s.byTenant, r.tenant, KeyFor(r)) && Lists(s.byFeature, r.feature, KeyFor(r))
  }

  ghost predicate Sound(s: State, r: Request) {
    OnlyUnder(s.byTenant, r.tenant, KeyFor(r)) && OnlyUnder(s.byFeature, r.feature, KeyFor(r))
  }

  /** The request's entry, its listings and its places in key sets survive. */
  ghost predicate Quiet(s: State, s': State, r: Request) {
    var k := KeyFor(r);
    && (k in s.l1 <==> k in s'.l1) && (k in s.l1 ==> s'.l1[k] == s.l1[k])
    && (Lists(s.byTenant, r.tenant, k) ==> Lists(s'.byTenant, r.tenant, k))
    && (Lists(s.byFeature, r.feature, k) ==> Lists(s'.byFeature, r.feature, k))
    && Kept(s.byTenant, s'.byTenant, k) && Kept(s.byFeature, s'.byFeature, k)
  }

  lemma RememberQuiet(c: Config, s: State, q: Request, d: Decision, now: int, r: Request)
    requires q != r
    ensures Quiet(s, Remember(c, s, KeyFor(q), q.tenant, q.feature, d, now), r)
  {
    if KeyFor(q) == KeyFor(r) { SameRequest(q, r); }
    AddKeeps(s.byTenant, q.tenant, KeyFor(q), KeyFor(r));
    AddKeeps(s.byFeature, q.feature, KeyFor(q), KeyFor(r));
    AddLists(s.byTenant, q.tenant, KeyFor(q), r.tenant, KeyFor(r));
    AddLists(s.byFeature, q.feature, KeyFor(q), r.feature, KeyFor(r));
  }

  lemma ForgetQuiet(s: State, q: Request, r: Request)
    requires q != r
    ensures Quiet(s, Forget(s, KeyFor(q), q.tenant, q.feature), r)
  {
    if KeyFor(q) == KeyFor(r) { SameRequest(q, r); }
    RemoveKeeps(s.byTenant, q.tenant, KeyFor(q), KeyFor(r));
    RemoveKeeps(s.byFeature, q.feature, KeyFor(q), KeyFor(r));
    if Lists(s.byTenant, r.tenant, KeyFor(r)) { RemoveLists(s.byTenant, q.tenant, KeyFor(q), r.tenant, KeyFor(r)); }
    if Lists(s.byFeature, r.feature, KeyFor(r)) {
      RemoveLists(s.byFeature, q.feature, KeyFor(q), r.feature, KeyFor(r));
    }
  }

  lemma RememberSound(c: Config, s: State, q: Request, d: Decision, now: int, r: Request)
    requires Sound(s, r)
    ensures Sound(Remember(c, s, KeyFor(q), q.tenant, q.feature, d, now), r)
  {
    if KeyFor(q) == KeyFor(r) { SameRequest(q, r); }
    AddSound(s.byTenant, q.tenant, KeyFor(q), r.tenant, KeyFor(r));
    AddSound(s.byFeature, q.feature, KeyFor(q), r.feature, KeyFor(r));
  }

  lemma ForgetSound(s: State, q: Request, r: Request)
    requires Sound(s, r)
    ensures Sound(Forget(s, KeyFor(q), q.tenant, q.feature), r)
  {
    RemoveSound(s.byTenant, q.tenant, KeyFor(q), r.tenant, KeyFor(r));
    RemoveSound(s.byFeature, q.feature, KeyFor(q), r.feature, KeyFor(r));
  }

  /** A loop that does not cover the request has not got its key. */
  predicate Aside(x: Target, r: Request) { !Covers(x, r) && (x.OfPair? ==> KeyFor(r) !in x.left) }

  lemma TurnQuiet(s: State, x: Target, r: Request)
    requires Aside(x, r) && Sound(s, r)
    ensures var (s', next) := Proceed(s, x);
            Quiet(s, s', r) && (next.Some? ==> next.value.1 != KeyFor(r) && Aside(next.value.0, r))
  {
    var (l, i) := Rest(s, x);
    var j := Seek(l, i);
    if j < |l| {
      match x
      case OfTenant(t, g, _) => if l[j].value == KeyFor(r) { assert HoldsAt(s.byTenant, t, g, j, KeyFor(r)); }
      case OfFeature(f, g, _) => if l[j].value == KeyFor(r) { assert HoldsAt(s.byFeature, f, g, j, KeyFor(r)); }
      case OfPair(_, _, left) => assert l[j].value == left[j];
      case OfAll(_) =>
    }
  }

  lemma TurnSound(s: State, x: Target, r: Request)
    requires Sound(s, r)
    ensures Sound(Proceed(s, x).0, r)
  {
    var s' := Proceed(s, x).0;
    forall y, gen: nat, i: nat | HoldsAt(s'.byTenant, y, gen, i, KeyFor(r)) ensures y == r.tenant {
      assert HoldsAt(s.byTenant, y, gen, i, KeyFor(r));
    }
    forall y, gen: nat, i: nat | HoldsAt(s'.byFeature, y, gen, i, KeyFor(r)) ensures y == r.feature {
      assert HoldsAt(s.byFeature, y, gen, i, KeyFor(r));
    }
  }

  lemma TargetAside(s: State, kind: Kind, r: Request)
    ensures Covers(TargetOf(s, kind), r) <==> KindCovers(kind, r)
    ensures !KindCovers(kind, r) ==> Aside(TargetOf(s, kind), r)
  {
    if kind.ByPair? && !KindCovers(kind, r) {
      forall a: Action | KeyOf(kind.pairTenant, kind.pairFeature, a) == KeyFor(r) ensures false {
        KeysAreDistinct(kind.pairTenant, kind.pairFeature, a, r.tenant, r.feature, r.action);
      }
    }
  }

  // ---------------------------------------------------------------------------
  // The invariant
  // ---------------------------------------------------------------------------

  /** L2 holds the entry, unexpired, and this instance wrote it. */
  predicate OwnFresh(w: World, me: nat, k: string, now: int) { HasFresh2(w.l2, k, now) && w.l2[k].writer == me }

  /** The loop will still come to the key. */
  ghost predicate Reaches(s: State, x: Target, k: string) {
    match x
    case OfTenant(t, g, i) => exists j: nat | i <= j :: HoldsAt(s.byTenant, t, g, j, k)
    case OfFeature(f, g, i) => exists j: nat | i <= j :: HoldsAt(s.byFeature, f, g, j, k)
    case OfPair(_, _, left) => k in left
    case OfAll(all) => k in all
  }

  /** A loop that will come to the key takes it now or keeps it ahead; it does not end. */
  lemma TurnReaches(s: State, x: Target, k: string)
    requires Reaches(s, x, k)
    ensures var (s', next) := Proceed(s, x);
            next.Some? && (next.value.1 == k || Reaches(s', next.value.0, k))
  {
    var (l, i) := Rest(s, x);
    var j := Seek(l, i);
    match x
    case OfTenant(t, g, _) =>
      var m: nat :| i <= m && HoldsAt(s.byTenant, t, g, m, k);
      assert l[m].Some?;
      assert j <= m;
    case OfFeature(f, g, _) =>
      var m: nat :| i <= m && HoldsAt(s.byFeature, f, g, m, k);
      assert l[m].Some?;
      assert j <= m;
    case OfPair(_, _, left) => ListReaches(left, k);
    case OfAll(all) => ListReaches(all, k);
  }

  lemma ListReaches(left: seq<string>, k: string)
    requires k in left
    ensures Seek(Somes(left), 0) == 0 && (left[0] == k || k in left[1..])
  {
    assert Somes(left)[0] == Some(left[0]);
  }

  /** An invalidation that covers a listed entry will come to it. */
  lemma StartReaches(s: State, kind: Kind, r: Request)
    requires KindCovers(kind, r) && KindOk(s, kind) && KeyFor(r) in s.l1 && Listed(s, r)
    ensures Reaches(s, TargetOf(s, kind), KeyFor(r))
  {
    var k := KeyFor(r);
    match kind
    case ByTenant(t) =>
      var l := List(s.byTenant, t, Current(s.byTenant, t));
      var j :| 0 <= j < |l| && l[j] == Some(k);
      assert HoldsAt(s.byTenant, t, Current(s.byTenant, t), j, k);
    case ByFeature(f) =>
      var l := List(s.byFeature, f, Current(s.byFeature, f));
      var j :| 0 <= j < |l| && l[j] == Some(k);
      assert HoldsAt(s.byFeature, f, Current(s.byFeature, f), j, k);
    case ByPair(t, f) =>
      assert PairTarget(t, f).left[if r.action == Read then 0 else 1] == k;
    case Everything(order) => assert k in set q | q in order;
  }

  lemma QuietReaches(s: State, s': State, x: Target, r: Request)
    requires Quiet(s, s', r) && Reaches(s, x, KeyFor(r))
    ensures Reaches(s', x, KeyFor(r))
  {
    match x
    case OfTenant(t, g, i) =>
      var j: nat :| i <= j && HoldsAt(s.byTenant, t, g, j, KeyFor(r));
      assert HoldsAt(s'.byTenant, t, g, j, KeyFor(r));
    case OfFeature(f, g, i) =>
      var j: nat :| i <= j && HoldsAt(s.byFeature, f, g, j, KeyFor(r));
      assert HoldsAt(s'.byFeature, f, g, j, KeyFor(r));
    case OfPair(_, _, _) =>
    case OfAll(_) =>
  }

  /**
   * In every run: key sets hold only their own keys, and a loop that does not cover the request never takes its key.
   */
  ghost predicate Apart(w: World, me: nat, r: Request) {
    Sound(Cache(w, me), r) && forall y | y in w.ops :: ApartOp(w.ops[y], me, r)
  }

  predicate ApartOp(op: Op, me: nat, r: Request) {
    op.who == me && op.task.Dropping? && !Covers(op.task.target, r) ==>
      Aside(op.task.target, r) && op.task.key != KeyFor(r)
  }

  lemma ApartKept(c: Config, w: World, e: Event, i: nat, me: nat, r: Request)
    requires Apart(w, me, r)
    ensures Apart(Step(c, w, e, i), me, r)
  {
    var s, w' := Cache(w, me), Step(c, w, e, i);
    CacheIs(c, w, e, i, me);
    if e.Lookup? {
      ForgetSound(s, e.request, r);
    } else if e.Store? {
      RememberSound(c, s, e.request, Decision(e.verdict, e.now, i), e.now, r);
    } else if e.Drop? {
      TurnSound(s, TargetOf(s, e.kind), r);
    } else if e.op in w.ops {
      ContinuedSound(c, s, w.ops[e.op].task, e, r);
    }
    forall y | y in w'.ops ensures ApartOp(w'.ops[y], me, r) {
      if y in w.ops { assert ApartOp(w.ops[y], me, r); }
      if y == e.op { MovedApart(c, w, e, i, me, r); }
    }
  }

  lemma ContinuedSound(c: Config, s: State, task: Task, e: Event, r: Request)
    requires Sound(s, r)
    ensures Sound(ContinuedCache(c, s, task, e), r)
  {
    if e.Hear? && task.Hearing? && task.remote.Some? {
      RememberSound(c, s, task.request, task.remote.value, e.now, r);
    } else if e.Resume? && task.Dropping? {
      TurnSound(s, task.target, r);
    }
  }

  lemma MovedApart(c: Config, w: World, e: Event, i: nat, me: nat, r: Request)
    requires Apart(w, me, r)
    ensures e.op in Step(c, w, e, i).ops ==> ApartOp(Step(c, w, e, i).ops[e.op], me, r)
  {
    var s := Cache(w, me);
    if e.op in w.ops { assert ApartOp(w.ops[e.op], me, r); }
    if e.Drop? && e.who == me && e.op !in w.ops {
      TargetAside(s, e.kind, r);
      TurnStays(s, TargetOf(s, e.kind), r);
      if !KindCovers(e.kind, r) { TurnQuiet(s, TargetOf(s, e.kind), r); }
    } else if e.Resume? && e.op in w.ops && w.ops[e.op].who == me && w.ops[e.op].task.Dropping? {
      var x := w.ops[e.op].task.target;
      TurnStays(s, x, r);
      if !Covers(x, r) { TurnQuiet(s, x, r); }
    }
  }

  /** A loop covers the same requests from turn to turn. */
  lemma TurnStays(s: State, x: Target, r: Request)
    ensures Proceed(s, x).1.Some? ==> (Covers(Proceed(s, x).1.value.0, r) <==> Covers(x, r))
  {
  }

  ghost predicate OpOrderly(w: World, me: nat, r: Request, op: Op, now: int) {
    var s, k := Cache(w, me), KeyFor(r);
    match op.task
    case Asking(_) => k !in s.l1
    case Hearing(_, remote, _) => k !in s.l1 && (remote.None? ==> !OwnFresh(w, me, k, now))
    case Writing(_, _) => k in s.l1
    case Dropping(x, key, deleted) =>
        (k in s.l1 ==> Reaches(s, x, k))
        && (OwnFresh(w, me, k, now) ==> k in s.l1 || (key == k && !deleted))
  }

  /**
   * The entry is indexed; what this instance wrote to L2 is in its L1, except while a call about the request is under
   * way that takes care of it.
   */
  ghost predicate Orderly(c: Config, w: World, me: nat, r: Request, now: int) {
    var s, k := Cache(w, me), KeyFor(r);
    && Apart(w, me, r) && (k in s.l1 ==> Listed(s, r))
    && (forall x, y | x in w.ops && y in w.ops && Concerns(w.ops[x], me, r) && Concerns(w.ops[y], me, r) :: x == y)
    && (forall y | y in w.ops && Concerns(w.ops[y], me, r) :: OpOrderly(w, me, r, w.ops[y], now))
    && (Idle(w, me, r) && OwnFresh(w, me, k, now) ==> k in s.l1)
    && (!c.distributed ==> w.l2 == map[])
  }

  // A step about something else.

  /**
   * Nothing about the request moves: its entry and listings stay, its calls stay, and L2 gains nothing of it from
   * this instance.
   */
  ghost predicate Elsewhere(w: World, w': World, me: nat, r: Request) {
    && Quiet(Cache(w, me), Cache(w', me), r)
    && (forall y | y in w'.ops && Concerns(w'.ops[y], me, r) :: y in w.ops && w'.ops[y] == w.ops[y])
    && (forall y | y in w.ops && Concerns(w.ops[y], me, r) :: y in w'.ops && w'.ops[y] == w.ops[y])
    && (KeyFor(r) in w'.l2 && w'.l2[KeyFor(r)].writer == me ==>
         KeyFor(r) in w.l2 && w'.l2[KeyFor(r)] == w.l2[KeyFor(r)])
  }

  lemma ElsewhereKept(c: Config, w: World, w': World, me: nat, r: Request, clock: int, now: int)
    requires Orderly(c, w, me, r, clock) && clock <= now && Elsewhere(w, w', me, r) && Apart(w', me, r)
             && (!c.distributed ==> w'.l2 == map[])
    ensures Orderly(c, w', me, r, now)
  {
    var s, s', k := Cache(w, me), Cache(w', me), KeyFor(r);
    forall y | y in w'.ops && Concerns(w'.ops[y], me, r) ensures OpOrderly(w', me, r, w'.ops[y], now) {
      assert OpOrderly(w, me, r, w.ops[y], clock);
      if w.ops[y].task.Dropping? && k in s'.l1 { QuietReaches(s, s', w.ops[y].task.target, r); }
    }
    if Idle(w', me, r) { assert Idle(w, me, r); }
  }

  lemma SameIsQuiet(s: State, r: Request)
    ensures Quiet(s, s, r)
  {
  }

  lemma ElsewhereCache(c: Config, w: World, e: Event, i: nat, me: nat, r: Request)
    requires Apart(w, me, r) && !Starts(e, me, r) && (e.op in w.ops ==> !Concerns(w.ops[e.op], me, r))
    ensures Quiet(Cache(w, me), Cache(Step(c, w, e, i), me), r)
  {
    var s := Cache(w, me);
    CacheIs(c, w, e, i, me);
    SameIsQuiet(s, r);
    if e.op !in w.ops {
      if e.Lookup? && e.who == me {
        ForgetQuiet(s, e.request, r);
      } else if e.Store? && e.who == me {
        RememberQuiet(c, s, e.request, Decision(e.verdict, e.now, i), e.now, r);
      } else if e.Drop? && e.who == me {
        TargetAside(s, e.kind, r);
        TurnQuiet(s, TargetOf(s, e.kind), r);
      }
    } else if w.ops[e.op].who == me {
      ContinuedQuiet(c, s, w.ops[e.op], e, me, r);
    }
  }

  lemma ContinuedQuiet(c: Config, s: State, op: Op, e: Event, me: nat, r: Request)
    requires op.who == me && !Concerns(op, me, r) && ApartOp(op, me, r) && Sound(s, r)
    ensures Quiet(s, ContinuedCache(c, s, op.task, e), r)
  {
    SameIsQuiet(s, r);
    if e.Hear? && op.task.Hearing? {
      if op.task.remote.Some? { RememberQuiet(c, s, op.task.request, op.task.remote.value, e.now, r); }
    } else if e.Resume? && op.task.Dropping? {
      TurnQuiet(s, op.task.target, r);
    }
  }

  lemma ElsewhereStep(c: Config, w: World, e: Event, i: nat, me: nat, r: Request)
    requires Apart(w, me, r) && !Starts(e, me, r) && (e.op in w.ops ==> !Concerns(w.ops[e.op], me, r))
    ensures Elsewhere(w, Step(c, w, e, i), me, r)
  {
    var w', k := Step(c, w, e, i), KeyFor(r);
    ElsewhereCache(c, w, e, i, me, r);
    OthersStay(c, w, e, i);
    NewIsElsewhere(c, w, e, i, me, r);
    if k in w'.l2 && w'.l2[k].writer == me {
      L2Origin(c, w, e, i, k);
      if e.Land? && e.op in w.ops && Writes(w.ops[e.op], k) && w.ops[e.op].who == me {
        SameRequest(w.ops[e.op].task.request, r);
      }
    }
  }

  /** A step moves one call. */
  lemma OthersStay(c: Config, w: World, e: Event, i: nat)
    ensures forall y | y != e.op ::
            (y in Step(c, w, e, i).ops <==> y in w.ops)
            && (y in w.ops ==> Step(c, w, e, i).ops[y] == w.ops[y])
  {
  }

  lemma NewIsElsewhere(c: Config, w: World, e: Event, i: nat, me: nat, r: Request)
    requires !Starts(e, me, r) && (e.op in w.ops ==> !Concerns(w.ops[e.op], me, r))
    ensures e.op in Step(c, w, e, i).ops ==> !Concerns(Step(c, w, e, i).ops[e.op], me, r)
  {
    if e.Drop? && e.op !in w.ops {
      TargetAside(Cache(w, e.who), e.kind, r);
      TurnStays(Cache(w, e.who), TargetOf(Cache(w, e.who), e.kind), r);
    } else if e.Resume? && e.op in w.ops && w.ops[e.op].task.Dropping? {
      TurnStays(Cache(w, w.ops[e.op].who), w.ops[e.op].task.target, r);
    }
  }

  // A call about the request begins.

  lemma LookupBegins(c: Config, w: World, e: Event, i: nat, me: nat, r: Request, clock: int)
    requires Orderly(c, w, me, r, clock) && clock <= e.now && Idle(w, me, r) && e.Lookup? && Starts(e, me, r)
             && e.op !in w.ops
    ensures Orderly(c, Step(c, w, e, i), me, r, e.now)
  {
    var s, k, w' := Cache(w, me), KeyFor(r), Step(c, w, e, i);
    ApartKept(c, w, e, i, me, r);
    OthersStay(c, w, e, i);
    if HasFresh1(s, k, e.now) {
      assert Idle(w', me, r);
    } else {
      LookupMisses(c, w, e, i, me, r);
      if c.distributed {
        assert Concerns(w'.ops[e.op], me, r);
        assert OpOrderly(w', me, r, w'.ops[e.op], e.now);
      } else {
        assert forall y | y in w'.ops :: w'.ops[y] == w.ops[y];
      }
    }
  }

  lemma LookupMisses(c: Config, w: World, e: Event, i: nat, me: nat, r: Request)
    requires e.Lookup? && e.who == me && e.request == r && e.op !in w.ops && !HasFresh1(Cache(w, me), KeyFor(r), e.now)
    ensures var w' := Step(c, w, e, i);
            && KeyFor(r) !in Cache(w', me).l1 && w'.l2 == w.l2
            && w'.ops == if c.distributed then w.ops[e.op := Op(me, Asking(r))] else w.ops
  {
  }

  lemma StoreBegins(c: Config, w: World, e: Event, i: nat, me: nat, r: Request, clock: int)
    requires Orderly(c, w, me, r, clock) && clock <= e.now && Idle(w, me, r) && e.Store? && Starts(e, me, r)
             && e.op !in w.ops
    ensures Orderly(c, Step(c, w, e, i), me, r, e.now)
  {
    var s, k, w' := Cache(w, me), KeyFor(r), Step(c, w, e, i);
    ApartKept(c, w, e, i, me, r);
    OthersStay(c, w, e, i);
    AddLists(s.byTenant, r.tenant, k, r.tenant, k);
    AddLists(s.byFeature, r.feature, k, r.feature, k);
    assert k in Cache(w', me).l1 && Listed(Cache(w', me), r);
  }

  /** A turn of an invalidation that covers the request: it has taken the key, or still comes to it. */
  lemma TurnOrderly(c: Config, w: World, w': World, x: nat, target: Target, me: nat, r: Request, now: int)
    requires w' == Turned(w, x, me, target) && Covers(target, r) && Apart(w', me, r)
             && (!c.distributed ==> w.l2 == map[])
    requires forall y | y in w.ops && y != x :: !Concerns(w.ops[y], me, r)
    requires KeyFor(r) in Cache(w, me).l1 ==> Listed(Cache(w, me), r) && Reaches(Cache(w, me), target, KeyFor(r))
    requires OwnFresh(w, me, KeyFor(r), now) ==> KeyFor(r) in Cache(w, me).l1
    ensures Orderly(c, w', me, r, now)
    ensures x !in w'.ops ==> KeyFor(r) !in Cache(w', me).l1 && !OwnFresh(w', me, KeyFor(r), now)
  {
    var s, s', k := Cache(w, me), Cache(w', me), KeyFor(r);
    TurnStays(s, target, r);
    TurnShrinks(s, target);
    if k in s.l1 { TurnReaches(s, target, k); }
    assert forall y | y in w'.ops && y != x :: y in w.ops && w'.ops[y] == w.ops[y];
    if k in s'.l1 { TurnLists(s, target, r); }
  }

  lemma TurnLists(s: State, target: Target, r: Request)
    requires Proceed(s, target).1.Some? && Listed(s, r)
    ensures Listed(Proceed(s, target).0, r)
  {
  }

  lemma DropBegins(c: Config, w: World, e: Event, i: nat, me: nat, r: Request, clock: int)
    requires Orderly(c, w, me, r, clock) && clock <= e.now && Idle(w, me, r) && e.Drop? && Starts(e, me, r)
             && e.op !in w.ops && KindOk(Cache(w, me), e.kind)
    ensures Orderly(c, Step(c, w, e, i), me, r, e.now)
    ensures e.op !in Step(c, w, e, i).ops ==>
      KeyFor(r) !in Cache(Step(c, w, e, i), me).l1 && !OwnFresh(Step(c, w, e, i), me, KeyFor(r), e.now)
  {
    var s, k := Cache(w, me), KeyFor(r);
    ApartKept(c, w, e, i, me, r);
    TargetAside(s, e.kind, r);
    if k in s.l1 { StartReaches(s, e.kind, r); }
    TurnOrderly(c, w, Step(c, w, e, i), e.op, TargetOf(s, e.kind), me, r, e.now);
  }

  // A call about the request goes on.

  lemma AskGoesOn(c: Config, w: World, e: Event, i: nat, me: nat, r: Request, clock: int)
    requires Orderly(c, w, me, r, clock) && clock <= e.now && e.op in w.ops && Concerns(w.ops[e.op], me, r) && e.Ask?
             && w.ops[e.op].task.Asking?
    ensures Orderly(c, Step(c, w, e, i), me, r, e.now)
  {
    ApartKept(c, w, e, i, me, r);
    assert OpOrderly(w, me, r, w.ops[e.op], clock);
    var w' := Step(c, w, e, i);
    assert !Idle(w', me, r) by { assert Concerns(w'.ops[e.op], me, r); }
    OthersStay(c, w, e, i);
  }

  lemma HearGoesOn(c: Config, w: World, e: Event, i: nat, me: nat, r: Request, clock: int)
    requires Orderly(c, w, me, r, clock) && clock <= e.now && e.op in w.ops && Concerns(w.ops[e.op], me, r)
             && e.Hear? && w.ops[e.op].task.Hearing?
    ensures Orderly(c, Step(c, w, e, i), me, r, e.now)
  {
    var s, k, w' := Cache(w, me), KeyFor(r), Step(c, w, e, i);
    ApartKept(c, w, e, i, me, r);
    OthersStay(c, w, e, i);
    assert OpOrderly(w, me, r, w.ops[e.op], clock);
    assert forall y | y in w'.ops :: !Concerns(w'.ops[y], me, r);
    AddLists(s.byTenant, r.tenant, k, r.tenant, k);
    AddLists(s.byFeature, r.feature, k, r.feature, k);
  }

  lemma LandGoesOn(c: Config, w: World, e: Event, i: nat, me: nat, r: Request, clock: int)
    requires Orderly(c, w, me, r, clock) && clock <= e.now && e.op in w.ops && Concerns(w.ops[e.op], me, r)
             && e.Land? && w.ops[e.op].task.Writing?
    requires c.distributed
    ensures Orderly(c, Step(c, w, e, i), me, r, e.now)
  {
    var w' := Step(c, w, e, i);
    ApartKept(c, w, e, i, me, r);
    OthersStay(c, w, e, i);
    assert OpOrderly(w, me, r, w.ops[e.op], clock);
    assert forall y | y in w'.ops :: !Concerns(w'.ops[y], me, r);
    assert Cache(w', me) == Cache(w, me);
  }

  lemma DeleteGoesOn(c: Config, w: World, e: Event, i: nat, me: nat, r: Request, clock: int)
    requires Orderly(c, w, me, r, clock) && clock <= e.now && e.op in w.ops && Concerns(w.ops[e.op], me, r) && e.Delete?
    requires w.ops[e.op].task.Dropping? && !w.ops[e.op].task.deleted
    ensures Orderly(c, Step(c, w, e, i), me, r, e.now)
  {
    var w' := Step(c, w, e, i);
    ApartKept(c, w, e, i, me, r);
    OthersStay(c, w, e, i);
    assert OpOrderly(w, me, r, w.ops[e.op], clock);
    assert Concerns(w'.ops[e.op], me, r) && Cache(w', me) == Cache(w, me);
    assert OpOrderly(w', me, r, w'.ops[e.op], e.now);
  }

  lemma ResumeGoesOn(c: Config, w: World, e: Event, i: nat, me: nat, r: Request, clock: int)
    requires Orderly(c, w, me, r, clock) && clock <= e.now && e.op in w.ops && Concerns(w.ops[e.op], me, r) && e.Resume?
    requires w.ops[e.op].task.Dropping? && w.ops[e.op].task.deleted
    ensures Orderly(c, Step(c, w, e, i), me, r, e.now)
    ensures e.op !in Step(c, w, e, i).ops ==>
      KeyFor(r) !in Cache(Step(c, w, e, i), me).l1 && !OwnFresh(Step(c, w, e, i), me, KeyFor(r), e.now)
  {
    ApartKept(c, w, e, i, me, r);
    assert OpOrderly(w, me, r, w.ops[e.op], clock);
    TurnOrderly(c, w, Step(c, w, e, i), e.op, w.ops[e.op].task.target, me, r, e.now);
  }

  // All steps.

  lemma LocalStays(c: Config, w: World, e: Event, i: nat)
    requires !c.distributed && w.l2 == map[] && forall y | y in w.ops :: w.ops[y].task.Dropping?
    ensures Step(c, w, e, i).l2 == map[]
  {
  }

  lemma OrderlyKept(c: Config, w: World, e: Event, i: nat, me: nat, r: Request, clock: int)
    requires Orderly(c, w, me, r, clock) && clock <= e.now && (Starts(e, me, r) ==> Idle(w, me, r))
    requires !c.distributed ==> forall y | y in w.ops :: w.ops[y].task.Dropping?
    ensures Orderly(c, Step(c, w, e, i), me, r, e.now)
  {
    var w' := Step(c, w, e, i);
    if !c.distributed { LocalStays(c, w, e, i); }
    if Starts(e, me, r) && e.op !in w.ops {
      if e.Lookup? { LookupBegins(c, w, e, i, me, r, clock); }
      else if e.Store? { StoreBegins(c, w, e, i, me, r, clock); }
      else if KindOk(Cache(w, me), e.kind) { DropBegins(c, w, e, i, me, r, clock); }
      else { Stutters(c, w, w', me, r, clock, e.now); }
    } else if !Starts(e, me, r) && (e.op in w.ops ==> !Concerns(w.ops[e.op], me, r)) {
      ApartKept(c, w, e, i, me, r);
      ElsewhereStep(c, w, e, i, me, r);
      ElsewhereKept(c, w, w', me, r, clock, e.now);
    } else {
      GoesOn(c, w, e, i, me, r, clock);
    }
  }

  lemma Stutters(c: Config, w: World, w': World, me: nat, r: Request, clock: int, now: int)
    requires Orderly(c, w, me, r, clock) && clock <= now && w' == w
    ensures Orderly(c, w', me, r, now)
  {
    SameIsQuiet(Cache(w, me), r);
    ElsewhereKept(c, w, w, me, r, clock, now);
  }

  lemma GoesOn(c: Config, w: World, e: Event, i: nat, me: nat, r: Request, clock: int)
    requires Orderly(c, w, me, r, clock) && clock <= e.now && e.op in w.ops
             && (Starts(e, me, r) || Concerns(w.ops[e.op], me, r))
    requires !c.distributed ==> forall y | y in w.ops :: w.ops[y].task.Dropping?
    ensures Orderly(c, Step(c, w, e, i), me, r, e.now)
  {
    var task := w.ops[e.op].task;
    if e.Lookup? || e.Store? || e.Drop? { Stutters(c, w, Step(c, w, e, i), me, r, clock, e.now); }
    else if e.Ask? && task.Asking? { AskGoesOn(c, w, e, i, me, r, clock); }
    else if e.Hear? && task.Hearing? { HearGoesOn(c, w, e, i, me, r, clock); }
    else if e.Land? && task.Writing? { LandGoesOn(c, w, e, i, me, r, clock); }
    else if e.Delete? && task.Dropping? && !task.deleted { DeleteGoesOn(c, w, e, i, me, r, clock); }
    else if e.Resume? && task.Dropping? && task.deleted { ResumeGoesOn(c, w, e, i, me, r, clock); }
    else { Stutters(c, w, Step(c, w, e, i), me, r, clock, e.now); }
  }
}
