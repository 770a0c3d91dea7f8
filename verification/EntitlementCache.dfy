/**
 * The entitlement cache: an in-process map (L1) over an optional shared cache (L2), with a tenant
 * index and a feature index for targeted invalidation.
 *
 * Each function below is one uninterrupted stretch of the source: up to a call of L2, or from its answer on.
 */
module EntitlementCache {
  import opened Common
  import opened Text
  import opened Quota

  /** What is cached. `setAt` and `serial` record when `set` was called with it, by clock and by position in a run. */
  datatype Decision = Decision(verdict: int, setAt: int, serial: nat)

  /** Tenant ids hold no colon; `KeysCollide` says what goes wrong otherwise. */
  type TenantId = t: string | ':' !in t

  function KeyOf(tenant: string, feature: string, a: Action): string {
    "entitlement:" + tenant + ":" + feature + ":" + ActionText(a)
  }

  /** Two requests share a key exactly when they share the action and the text of tenant, colon, feature. */
  lemma KeysCollide(t1: string, f1: string, a1: Action, t2: string, f2: string, a2: Action)
    ensures KeyOf(t1, f1, a1) == KeyOf(t2, f2, a2) <==> a1 == a2 && t1 + ":" + f1 == t2 + ":" + f2
  {
    var p := "entitlement:";
    var h1, h2 := t1 + ":" + f1, t2 + ":" + f2;
    assert KeyOf(t1, f1, a1) == (p + h1) + [':'] + ActionText(a1);
    assert KeyOf(t2, f2, a2) == (p + h2) + [':'] + ActionText(a2);
    if KeyOf(t1, f1, a1) == KeyOf(t2, f2, a2) {
      LastSeparatorIsUnique(p + h1, ActionText(a1), p + h2, ActionText(a2), ':');
      assert (p + h1)[|p|..] == h1 && (p + h2)[|p|..] == h2;
      assert |ActionText(a1)| == |ActionText(a2)|;
    }
  }

  /** With colon-free tenants the key determines the request. */
  lemma KeysAreDistinct(t1: TenantId, f1: string, a1: Action, t2: TenantId, f2: string, a2: Action)
    requires KeyOf(t1, f1, a1) == KeyOf(t2, f2, a2)
    ensures t1 == t2 && f1 == f2 && a1 == a2
  {
    KeysCollide(t1, f1, a1, t2, f2, a2);
    FirstSeparatorIsUnique(t1, f1, t2, f2, ':');
  }

  /** With a colon in a tenant id, two tenants can share every entry. */
  lemma ColonMergesTenants()
    ensures KeyOf("a:b", "c", Read) == KeyOf("a", "b:c", Read)
  {
    KeysCollide("a:b", "c", Read, "a", "b:c", Read);
    assert "a:b" + ":" + "c" == "a" + ":" + "b:c";
  }

  // ---------------------------------------------------------------------------
  // State
  // ---------------------------------------------------------------------------

  /** An L1 entry; an expiry of 0 means none. */
  datatype Entry = Entry(decision: Decision, expiresAtMs: int)

  /**
   * An insertion-ordered set of keys as an iterator sees it (the Set objects of ECMA-262): a deleted key leaves
   * a gap, a key that is added goes to the end, and an iterator that is under way will reach it there.
   */
  type KeyList = seq<Option<string>>

  /**
   * The key sets an index has held for one tenant or feature, oldest first; the last one is in the index while
   * `attached`.
   */
  datatype Buckets = Buckets(lists: seq<KeyList>, attached: bool)

  type Index = map<string, Buckets>

  datatype State = State(l1: map<string, Entry>, byTenant: Index, byFeature: Index)

  const Empty: State := State(map[], map[], map[])

  /** An L2 entry, with the instance that wrote it. */
  datatype Remote = Remote(decision: Decision, expiresAt: Option<int>, writer: nat)

  type Shared = map<string, Remote>

  datatype Config = Config(ttlSeconds: int, distributed: bool)

  function TtlMs(c: Config): int { c.ttlSeconds * 1000 }

  predicate Fresh1(e: Entry, now: int) { e.expiresAtMs == 0 || e.expiresAtMs > now }

  predicate Fresh2(r: Remote, now: int) { r.expiresAt.None? || now < r.expiresAt.value }

  // ---------------------------------------------------------------------------
  // Indexes
  // ---------------------------------------------------------------------------

  function Of(m: Index, x: string): Buckets { if x in m then m[x] else Buckets([], false) }

  predicate IsAttached(m: Index, x: string) { Of(m, x).attached && Of(m, x).lists != [] }

  /** The key set with this number. */
  function List(m: Index, x: string, gen: nat): KeyList { if gen < |Of(m, x).lists| then Of(m, x).lists[gen] else [] }

  /** The number of the key set that is in the index, or the number of none. */
  function Current(m: Index, x: string): nat { if IsAttached(m, x) then |Of(m, x).lists| - 1 else |Of(m, x).lists| }

  /** The index lists the key. */
  predicate Lists(m: Index, x: string, k: string) { Some(k) in List(m, x, Current(m, x)) }

  function Insert(l: KeyList, k: string): KeyList { if Some(k) in l then l else l + [Some(k)] }

  function Strike(l: KeyList, k: string): KeyList {
    seq(|l|, i requires 0 <= i < |l| => if l[i] == Some(k) then None else l[i])
  }

  function Add(m: Index, x: string, k: string): Index {
    var b := Of(m, x);
    m[x := if IsAttached(m, x) then b.(lists := b.lists[|b.lists| - 1 := Insert(b.lists[|b.lists| - 1], k)])
           else Buckets(b.lists + [[Some(k)]], true)]
  }

  function Remove(m: Index, x: string, k: string): Index {
    var b := Of(m, x);
    if IsAttached(m, x) then m[x := b.(lists := b.lists[|b.lists| - 1 := Strike(b.lists[|b.lists| - 1], k)])] else m
  }

  function Detach(m: Index, x: string): Index { if x in m then m[x := m[x].(attached := false)] else m }

  function DetachAll(m: Index): Index { map x | x in m :: m[x].(attached := false) }

  // ---------------------------------------------------------------------------
  // Lookups and sets
  // ---------------------------------------------------------------------------

  function Remember(c: Config, s: State, k: string, t: string, f: string, d: Decision, now: int): State {
    State(s.l1[k := Entry(d, if c.ttlSeconds > 0 then now + TtlMs(c) else 0)], Add(s.byTenant, t, k),
      Add(s.byFeature, f, k))
  }

  function Forget(s: State, k: string, t: string, f: string): State {
    State(s.l1 - {k}, Remove(s.byTenant, t, k), Remove(s.byFeature, f, k))
  }

  /** `get` up to its question to L2: the answer if L1 has one, and otherwise an expired entry is forgotten. */
  function LookedLocally(s: State, k: string, t: string, f: string, now: int): (State, Option<Decision>) {
    if k !in s.l1 then (s, None)
    else if Fresh1(s.l1[k], now) then (s, Some(s.l1[k].decision))
    else (Forget(s, k, t, f), None)
  }

  /** What L2 answers. */
  function Fetch(l2: Shared, k: string, now: int): Option<Decision> {
    if k in l2 && Fresh2(l2[k], now) then Some(l2[k].decision) else None
  }

  /** `get` from L2's answer on. */
  function Heard(c: Config, s: State, k: string, t: string, f: string, remote: Option<Decision>, now: int): State {
    if remote.None? then s else Remember(c, s, k, t, f, remote.value, now)
  }

  function Put(c: Config, l2: Shared, k: string, d: Decision, now: int, me: nat): Shared {
    l2[k := Remote(d, if c.ttlSeconds > 0 then Some(now + TtlMs(c)) else None, me)]
  }

  // ---------------------------------------------------------------------------
  // Invalidation
  // ---------------------------------------------------------------------------

  /** A loop over keys to drop, with what is left of it: the place of its iterator in a key set, or a list of keys. */
  datatype Target =
    | OfTenant(tenant: string, gen: nat, cursor: nat)
    | OfFeature(feature: string, gen: nat, cursor: nat)
    | OfPair(pairTenant: string, pairFeature: string, left: seq<string>)
    | OfAll(all: seq<string>)

  function TenantTarget(s: State, t: string): Target { OfTenant(t, Current(s.byTenant, t), 0) }

  function FeatureTarget(s: State, f: string): Target { OfFeature(f, Current(s.byFeature, f), 0) }

  function PairTarget(t: string, f: string): Target { OfPair(t, f, [KeyOf(t, f, Read), KeyOf(t, f, Write)]) }

  /** The next place at or after `i` that holds a key, or the end. */
  function Seek(l: KeyList, i: nat): (j: nat)
    ensures i <= j && (j < |l| ==> l[j].Some?) && forall m | i <= m < j && m < |l| :: l[m].None?
    decreases if i < |l| then |l| - i else 0
  {
    if i >= |l| then i else if l[i].Some? then i else Seek(l, i + 1)
  }

  /** The keys still to come, as the loop finds them now. */
  function Rest(s: State, x: Target): (seq<Option<string>>, nat) {
    match x
    case OfTenant(t, g, i) => (List(s.byTenant, t, g), i)
    case OfFeature(f, g, i) => (List(s.byFeature, f, g), i)
    case OfPair(_, _, left) => (Somes(left), 0)
    case OfAll(all) => (Somes(all), 0)
  }

  function Somes(ks: seq<string>): KeyList { seq(|ks|, i requires 0 <= i < |ks| => Some(ks[i])) }

  /** The loop after the key at place `j`. */
  function Past(x: Target, j: nat): Target {
    match x
    case OfTenant(t, g, _) => OfTenant(t, g, j + 1)
    case OfFeature(f, g, _) => OfFeature(f, g, j + 1)
    case OfPair(t, f, left) => OfPair(t, f, if j < |left| then left[j + 1..] else [])
    case OfAll(all) => OfAll(if j < |all| then all[j + 1..] else [])
  }

  /** What an invalidation does after its loop. */
  function Finished(s: State, x: Target): State {
    match x
    case OfTenant(t, _, _) => s.(byTenant := Detach(s.byTenant, t))
    case OfFeature(f, _, _) => s.(byFeature := Detach(s.byFeature, f))
    case OfPair(_, _, _) => s
    case OfAll(_) => State(map[], DetachAll(s.byTenant), DetachAll(s.byFeature))
  }

  /** One turn of a dropping loop: the next key leaves L1 and is to leave L2, or the invalidation ends. */
  function Proceed(s: State, x: Target): (State, Option<(Target, string)>) {
    var (l, i) := Rest(s, x);
    var j := Seek(l, i);
    if j < |l| then (s.(l1 := s.l1 - {l[j].value}), Some((Past(x, j), l[j].value))) else (Finished(s, x), None)
  }

  // ---------------------------------------------------------------------------
  // The class
  // ---------------------------------------------------------------------------

  /** The L2 port over one shared Redis; it does not fail. */
  class RedisCache {
    var data: Shared

    constructor ()
      ensures data == map[]
    {
      data := map[];
    }

    method Delete(k: string)
      modifies this
      ensures data == old(data) - {k}
    {
      data := data - {k};
    }
  }

  class EntitlementCache {
    const config: Config
    const me: nat
    const l2: RedisCache
    var l1: map<string, Entry>
    var byTenant: Index
    var byFeature: Index

    constructor (config: Config, me: nat, l2: RedisCache)
      ensures this.config == config && this.me == me && this.l2 == l2 && Value() == Empty
    {
      this.config, this.me, this.l2 := config, me, l2;
      l1, byTenant, byFeature := map[], map[], map[];
    }

    function Value(): State
      reads this
    {
      State(l1, byTenant, byFeature)
    }

    method GetLocally(t: string, f: string, a: Action, now: int) returns (d: Option<Decision>)
      modifies this
      ensures (Value(), d) == LookedLocally(old(Value()), KeyOf(t, f, a), t, f, now)
    {
      var k := KeyOf(t, f, a);
      if k in l1 {
        if Fresh1(l1[k], now) {
          return Some(l1[k].decision);
        }
        ForgetKey(k, t, f);
      }
      d := None;
    }

    /** A whole lookup with nothing in between: L2 is asked at `now` and its answer remembered at `later`. */
    method Get(t: string, f: string, a: Action, now: int, later: int) returns (d: Option<Decision>)
      modifies this
      ensures var (s, local) := LookedLocally(old(Value()), KeyOf(t, f, a), t, f, now);
              var remote := if config.distributed then Fetch(l2.data, KeyOf(t, f, a), now) else None;
              if local.Some? then d == local && Value() == s
              else d == remote && Value() == Heard(config, s, KeyOf(t, f, a), t, f, remote, later)
    {
      d := GetLocally(t, f, a, now);
      if d.None? && config.distributed {
        d := Fetch(l2.data, KeyOf(t, f, a), now);
        if d.Some? {
          RememberKey(KeyOf(t, f, a), t, f, d.value, later);
        }
      }
    }

    /** A whole set with nothing in between: L1 at `now`, L2 at `later`. */
    method Set(t: string, f: string, a: Action, d: Decision, now: int, later: int)
      modifies this, l2
      ensures Value() == Remember(config, old(Value()), KeyOf(t, f, a), t, f, d, now)
      ensures l2.data == if config.distributed then Put(config, old(l2.data), KeyOf(t, f, a), d, later, me)
              else old(l2.data)
    {
      RememberKey(KeyOf(t, f, a), t, f, d, now);
      if config.distributed {
        l2.data := Put(config, l2.data, KeyOf(t, f, a), d, later, me);
      }
    }

    /** One turn of a loop: the key it takes from L1, or nothing when the invalidation is over. */
    method Turn(x: Target) returns (next: Option<(Target, string)>)
      modifies this
      ensures (Value(), next) == Proceed(old(Value()), x)
    {
      var (l, i) := Rest(Value(), x);
      var j := Seek(l, i);
      if j < |l| {
        l1 := l1 - {l[j].value};
        return Some((Past(x, j), l[j].value));
      }
      match x
      case OfTenant(t, _, _) => byTenant := Detach(byTenant, t); return None;
      case OfFeature(f, _, _) => byFeature := Detach(byFeature, f); return None;
      case OfPair(_, _, _) => return None;
      case OfAll(_) => l1, byTenant, byFeature := map[], DetachAll(byTenant), DetachAll(byFeature); return None;
    }

    method RememberKey(k: string, t: string, f: string, d: Decision, now: int)
      modifies this
      ensures Value() == Remember(config, old(Value()), k, t, f, d, now)
    {
      l1 := l1[k := Entry(d, if config.ttlSeconds > 0 then now + TtlMs(config) else 0)];
      byTenant := Add(byTenant, t, k);
      byFeature := Add(byFeature, f, k);
    }

    method ForgetKey(k: string, t: string, f: string)
      modifies this
      ensures Value() == Forget(old(Value()), k, t, f)
    {
      l1 := l1 - {k};
      byTenant := Remove(byTenant, t, k);
      byFeature := Remove(byFeature, f, k);
    }

    /** A whole invalidation with nothing in between. */
    method Invalidate(x: Target)
      modifies this, l2
      ensures (Value(), l2.data) == Invalidated(config, old(Value()), old(l2.data), x)
      decreases Length(Value(), x)
    {
      var next := Turn(x);
      if next.Some? {
        if config.distributed {
          l2.Delete(next.value.1);
        }
        Invalidate(next.value.0);
      }
    }
  }

  /** How many places a loop has left. */
  function Length(s: State, x: Target): nat {
    var (l, i) := Rest(s, x);
    if i < |l| then |l| - i else 0
  }

  /** The turns of a loop with nothing in between. */
  function Invalidated(c: Config, s: State, l2: Shared, x: Target): (State, Shared)
    decreases Length(s, x)
  {
    var (s1, next) := Proceed(s, x);
    if next.None? then (s1, l2)
    else Invalidated(c, s1, if c.distributed then l2 - {next.value.1} else l2, next.value.0)
  }

  /** The keys a loop will take if nothing comes in between. */
  function Ahead(s: State, x: Target): set<string> {
    KeysFrom(Rest(s, x).0, Rest(s, x).1)
  }

  /** The keys at or after place `i`. */
  function KeysFrom(l: KeyList, i: nat): set<string> { set j | i <= j < |l| && l[j].Some? :: l[j].value }

  /**
   * Uninterrupted, an invalidation removes exactly the keys ahead of it, from both levels, and then ends as it does.
   */
  lemma {:induction false} InvalidatedIsExact(c: Config, s: State, l2: Shared, x: Target)
    ensures var (s', l2') := Invalidated(c, s, l2, x);
            && s' == Finished(s.(l1 := s.l1 - Ahead(s, x)), x)
            && l2' == if c.distributed then l2 - Ahead(s, x) else l2
    decreases Length(s, x)
  {
    var (l, i) := Rest(s, x);
    var j := Seek(l, i);
    if j < |l| {
      var (s1, next) := Proceed(s, x);
      var k, y := l[j].value, Past(x, j);
      InvalidatedIsExact(c, s1, if c.distributed then l2 - {k} else l2, y);
      AheadSplits(s, s1, x, j);
      MinusTwice(s.l1, {k}, Ahead(s1, y));
      MinusTwice(l2, {k}, Ahead(s1, y));
    } else {
      assert Ahead(s, x) == {};
      assert s.l1 - {} == s.l1 && l2 - {} == l2;
    }
  }

  lemma MinusTwice<V>(m: map<string, V>, a: set<string>, b: set<string>)
    ensures m - a - b == m - (a + b)
  {
  }

  lemma AheadSplits(s: State, s1: State, x: Target, j: nat)
    requires var (l, i) := Rest(s, x); j == Seek(l, i) && j < |l| && s1 == s.(l1 := s1.l1)
    ensures var k := Rest(s, x).0[j].value; Ahead(s, x) == {k} + Ahead(s1, Past(x, j))
    ensures Length(s1, Past(x, j)) < Length(s, x)
  {
    var (l, i) := Rest(s, x);
    var (l1, i1) := Rest(s1, Past(x, j));
    if x.OfPair? || x.OfAll? {
      assert l1 == l[j + 1..] && i1 == 0;
      PlacesShift(l, j);
    } else {
      assert l1 == l && i1 == j + 1;
    }
  }

  lemma PlacesShift(l: KeyList, j: nat)
    requires j < |l|
    ensures KeysFrom(l[j + 1..], 0) == KeysFrom(l, j + 1)
  {
    var rest := l[j + 1..];
    forall m | 0 <= m < |rest| ensures rest[m] == l[m + j + 1] {}
    forall k | k in KeysFrom(l, j + 1) ensures k in KeysFrom(rest, 0) {
      var m :| j + 1 <= m < |l| && l[m].Some? && l[m].value == k;
      assert rest[m - j - 1] == l[m];
    }
  }
}
