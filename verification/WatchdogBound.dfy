/**
 * How many restarts of one task a window can hold when examinations of it overlap: exactly, by the cap and the
 * number of examinations in flight at once.
 */
module WatchdogBound {
  import opened Watchdog

  /** How many of the times lie in the half-open interval from `lo` to `hi`. */
  function CountIn(times: seq<int>, lo: int, hi: int): (n: nat)
    ensures n <= |times|
  {
    if times == [] then 0
    else CountIn(times[..|times| - 1], lo, hi) + (if lo <= times[|times| - 1] < hi then 1 else 0)
  }

  lemma CountAppend(times: seq<int>, t: int, lo: int, hi: int)
    ensures CountIn(times + [t], lo, hi) == CountIn(times, lo, hi) + (if lo <= t < hi then 1 else 0)
  {
    assert (times + [t])[..|times|] == times;
  }

  /** Pruning takes nothing out of an interval that begins later. */
  lemma {:induction false} CountRecent(times: seq<int>, bound: int, lo: int, hi: int)
    requires bound < lo
    ensures CountIn(Recent(times, bound), lo, hi) == CountIn(times, lo, hi)
  {
    if times != [] {
      var last, earlier := times[|times| - 1], times[..|times| - 1];
      CountRecent(earlier, bound, lo, hi);
      if last > bound {
        CountAppend(Recent(earlier, bound), last, lo, hi);
      } else {
        assert Recent(times, bound) == Recent(earlier, bound);
      }
    }
  }

  // ---------------------------------------------------------------------------
  // The bound
  // ---------------------------------------------------------------------------

  /** The binomial coefficient of `q + a` over `a`. */
  function Ways(q: nat, a: nat): (n: nat)
    ensures n >= 1
  {
    if q == 0 || a == 0 then 1 else Ways(q - 1, a) + Ways(q, a - 1)
  }

  /** The most restarts a window can hold. */
  function AtMost(cap: nat, inFlight: nat): nat {
    if inFlight == 0 then 0 else AtMost(cap, inFlight - 1) + Ways(inFlight, cap) - 1
  }

  /** In closed form: a binomial coefficient, less one more than the number in flight. */
  lemma {:induction false} AtMostIs(cap: nat, inFlight: nat)
    ensures AtMost(cap, inFlight) == Ways(inFlight, cap + 1) - 1 - inFlight
  {
    if inFlight > 0 { AtMostIs(cap, inFlight - 1); }
  }

  lemma {:induction false} WaysOfOne(a: nat)
    ensures Ways(1, a) == a + 1
  {
    if a > 0 { WaysOfOne(a - 1); }
  }

  /** One in flight gives the cap itself, and two give cap * (cap + 5) / 2. */
  lemma {:induction false} SmallBounds(cap: nat)
    ensures AtMost(cap, 1) == cap && 2 * AtMost(cap, 2) == cap * (cap + 5)
  {
    WaysOfOne(cap);
    assert AtMost(cap, 1) == AtMost(cap, 0) + Ways(1, cap) - 1;
    assert AtMost(cap, 2) == AtMost(cap, 1) + Ways(2, cap) - 1;
    WaysOfTwo(cap);
  }

  lemma {:induction false} WaysOfTwo(a: nat)
    ensures 2 * Ways(2, a) == (a + 1) * (a + 2)
  {
    if a > 0 {
      WaysOfTwo(a - 1);
      WaysOfOne(a);
      assert Ways(2, a) == Ways(1, a) + Ways(2, a - 1);
    }
  }

  lemma {:induction false} WaysGrow(q: nat, r: nat, a: nat)
    requires q <= r
    ensures Ways(q, a) <= Ways(r, a)
    decreases r
  {
    if q < r { WaysGrow(q, r - 1, a); }
  }

  lemma {:induction false} WaysAtLeast(q: nat, a: nat)
    ensures Ways(q, a + 1) >= q + 1
  {
    if q > 0 { WaysAtLeast(q - 1, a); }
  }

  // ---------------------------------------------------------------------------
  // Waste: what the calls in flight can no longer add
  // ---------------------------------------------------------------------------

  /** What is lost at level `v` when only `n` of `p` places reach it. */
  function Gap(p: nat, n: nat, v: nat): nat { if n >= p then 0 else Ways(p - n - 1, v + 1) }

  function Waste(p: nat, ns: seq<nat>): nat {
    if ns == [] then 0 else Waste(p, ns[..|ns| - 1]) + Gap(p, ns[|ns| - 1], |ns| - 1)
  }

  lemma GapStep(p: nat, n: nat, v: nat)
    requires 1 <= n <= p
    ensures Gap(p, n - 1, v) == Gap(p, n, v) + Ways(p - n, v)
  {
  }

  lemma GapShrinks(p: nat, n: nat, n': nat, v: nat)
    requires n <= n'
    ensures Gap(p, n, v) >= Gap(p, n', v)
  {
    if n' < p { WaysGrow(p - n' - 1, p - n - 1, v + 1); }
  }

  /** A level that nothing reaches loses at least one for each missing place. */
  lemma {:induction false} GapAtLeast(p: nat, n: nat, k: nat, v: nat)
    requires n <= k <= p
    ensures Gap(p, k, v) + k - n <= Gap(p, n, v)
    decreases k
  {
    if n < k {
      GapStep(p, k, v);
      GapAtLeast(p, n, k - 1, v);
    }
  }

  lemma {:induction false} WasteGrows(p: nat, ns: seq<nat>, ns': seq<nat>)
    requires |ns| == |ns'| && forall v | 0 <= v < |ns| :: ns'[v] <= ns[v]
    ensures Waste(p, ns) <= Waste(p, ns')
  {
    if ns != [] {
      var n := |ns| - 1;
      WasteGrows(p, ns[..n], ns'[..n]);
      GapShrinks(p, ns'[n], ns[n], n);
    }
  }

  lemma {:induction false} WasteAtMost(p: nat, ns: seq<nat>, n: nat)
    requires n <= p && forall v | 0 <= v < |ns| :: ns[v] >= n
    ensures Waste(p, ns) <= Ways(p - n, |ns|) - 1
  {
    if ns != [] {
      var a := |ns| - 1;
      WasteAtMost(p, ns[..a], n);
      GapShrinks(p, n, ns[a], a);
    }
  }

  /** An answer at level `a`: whatever it restores below, it wastes more at its own level. */
  lemma {:induction false} WasteAnswered(p: nat, ns: seq<nat>, ns': seq<nat>, a: nat)
    requires |ns| == |ns'| && a < |ns| && 1 <= ns[a] <= p && ns'[a] < ns[a]
    requires (forall v | 0 <= v < a :: ns[v] >= ns[a]) && forall v | a < v < |ns| :: ns'[v] <= ns[v]
    ensures Waste(p, ns) + 1 <= Waste(p, ns')
  {
    var n := |ns| - 1;
    if a == n {
      WasteAtMost(p, ns[..n], ns[a]);
      GapStep(p, ns[a], a);
      GapShrinks(p, ns'[a], ns[a] - 1, a);
    } else {
      WasteAnswered(p, ns[..n], ns'[..n], a);
      GapShrinks(p, ns'[n], ns[n], n);
    }
  }

  // ---------------------------------------------------------------------------
  // The invariant
  // ---------------------------------------------------------------------------

  function OpenOf(s: State, key: string): set<(nat, string)> { set k | k in s.open && k.1 == key }

  /** At no point of these events are more than `p` examinations of the task in flight. */
  ghost predicate InFlight(c: Config, s: State, evs: seq<Event>, key: string, p: nat) {
    forall i | 0 <= i <= |evs| :: |OpenOf(Watch(c, s, evs[..i]), key)| <= p
  }

  /**
   * How many restarts of the interval memory will lack after this examination is acknowledged; one that was begun
   * before the interval leaves none in memory.
   */
  function Level(c: Config, lo: int, e: Exam): int {
    if e.at < lo then c.maxRestarts
    else if e.at >= lo + c.restartWindowMs then -1
    else c.maxRestarts - 1 - CountIn(e.history, lo, lo + c.restartWindowMs)
  }

  /** The level an examination begun now would have. */
  function MemoryLevel(c: Config, s: State, key: string, lo: int, clock: int): int {
    if clock >= lo + c.restartWindowMs then -1
    else c.maxRestarts - 1 - CountIn(History(s.restarts, key), lo, lo + c.restartWindowMs)
  }

  function Above(c: Config, s: State, key: string, lo: int, v: int): set<(nat, string)> {
    set k | k in s.open && k.1 == key && Level(c, lo, s.open[k]) >= v
  }

  /**
   * How many of the `p` places reach each level: those in flight that do, and the free ones if a new examination
   * would.
   */
  function Places(c: Config, s: State, key: string, lo: int, clock: int, p: nat): seq<nat>
    requires c.maxRestarts >= 0
  {
    seq(c.maxRestarts + 1, v requires 0 <= v => if v <= MemoryLevel(c, s, key, lo, clock) then p
      else |Above(c, s, key, lo, v)|)
  }

  function Counted(c: Config, s: State, key: string, lo: int): nat {
    CountIn(Acked(s.log, key), lo, lo + c.restartWindowMs)
  }

  predicate ExamSane(c: Config, lo: int, clock: int, e: Exam) {
    e.at <= clock && |e.history| < c.maxRestarts && (e.at < lo ==> CountIn(e.history, lo, lo + c.restartWindowMs) == 0)
  }

  ghost predicate Sane(c: Config, s: State, key: string, lo: int, clock: int) {
    forall k | k in s.open && k.1 == key :: ExamSane(c, lo, clock, s.open[k])
  }

  ghost predicate Bounded(c: Config, s: State, key: string, lo: int, clock: int, p: nat)
    requires c.maxRestarts >= 0
  {
    && Sane(c, s, key, lo, clock) && |OpenOf(s, key)| <= p
    && if clock < lo then
         && Counted(c, s, key, lo) == 0 && CountIn(History(s.restarts, key), lo, lo + c.restartWindowMs) == 0
       else
         Counted(c, s, key, lo) + p
         <= Waste(p, Places(c, s, key, lo, clock, p)) + |Above(c, s, key, lo, c.maxRestarts)|
  }

  lemma SubsetSize<T>(a: set<T>, b: set<T>)
    requires a <= b
    ensures |a| <= |b|
  {
    assert b == a + (b - a);
  }

  lemma AboveSize(c: Config, s: State, key: string, lo: int, u: int, v: int)
    requires u <= v
    ensures |Above(c, s, key, lo, v)| <= |Above(c, s, key, lo, u)| <= |OpenOf(s, key)|
  {
    SubsetSize(Above(c, s, key, lo, v), Above(c, s, key, lo, u));
    SubsetSize(Above(c, s, key, lo, u), OpenOf(s, key));
  }

  lemma PlacesAt(c: Config, s: State, key: string, lo: int, clock: int, p: nat)
    requires c.maxRestarts >= 0 && |OpenOf(s, key)| <= p
    ensures var ns := Places(c, s, key, lo, clock, p);
            && |ns| == c.maxRestarts + 1 && ns[c.maxRestarts] == |Above(c, s, key, lo, c.maxRestarts)|
            && (forall v | 0 <= v < |ns| :: ns[v] <= p) && (forall u, v | 0 <= u <= v < |ns| :: ns[v] <= ns[u])
  {
    var ns := Places(c, s, key, lo, clock, p);
    forall u, v | 0 <= u <= v < |ns| ensures ns[v] <= ns[u] <= p { AboveSize(c, s, key, lo, u, v); }
  }

  /** What the invariant says in the end. */
  lemma BoundedIsAtMost(c: Config, s: State, key: string, lo: int, clock: int, p: nat)
    requires c.maxRestarts >= 0 && Bounded(c, s, key, lo, clock, p)
    ensures Counted(c, s, key, lo) <= AtMost(c.maxRestarts, p)
  {
    if clock >= lo {
      var m, ns := c.maxRestarts, Places(c, s, key, lo, clock, p);
      PlacesAt(c, s, key, lo, clock, p);
      WasteAtMost(p, ns[..m], 0);
      GapAtLeast(p, 0, ns[m], m);
      AtMostIs(m, p);
    }
  }

  /** The clock goes on. */
  lemma Later(c: Config, s: State, key: string, lo: int, clock: int, now: int, p: nat)
    requires c.maxRestarts >= 0 && Bounded(c, s, key, lo, clock, p) && clock <= now
    ensures Bounded(c, s, key, lo, now, p)
  {
    forall k | k in s.open && k.1 == key ensures ExamSane(c, lo, now, s.open[k]) {
      assert ExamSane(c, lo, clock, s.open[k]);
    }
    var ns, m := Places(c, s, key, lo, now, p), c.maxRestarts;
    PlacesAt(c, s, key, lo, now, p);
    if lo <= clock {
      AboveAtMost(c, s, key, lo, p);
      WasteGrows(p, Places(c, s, key, lo, clock, p), ns);
    } else if lo <= now {
      GapAtLeast(p, ns[m], p, m);
    }
  }

  lemma AboveAtMost(c: Config, s: State, key: string, lo: int, p: nat)
    requires |OpenOf(s, key)| <= p
    ensures forall v :: |Above(c, s, key, lo, v)| <= p
  {
    forall v ensures |Above(c, s, key, lo, v)| <= p { AboveSize(c, s, key, lo, v, v); }
  }

  /** A look that begins an examination puts it where the free places are. */
  lemma LookPlaces(c: Config, s: State, s': State, key: string, x: nat, h: seq<int>, lo: int, clock: int, p: nat)
    requires c.maxRestarts >= 0 && lo <= clock && (x, key) !in s.open
    requires h == Recent(History(s.restarts, key), clock - c.restartWindowMs)
    requires s'.restarts == s.restarts && s'.open == s.open[(x, key) := Exam(clock, h)]
    ensures Places(c, s', key, lo, clock, p) == Places(c, s, key, lo, clock, p)
    ensures Above(c, s', key, lo, c.maxRestarts) == Above(c, s, key, lo, c.maxRestarts)
  {
    if clock < lo + c.restartWindowMs {
      CountRecent(History(s.restarts, key), clock - c.restartWindowMs, lo, lo + c.restartWindowMs);
    }
    forall v | v > MemoryLevel(c, s, key, lo, clock) && v >= 0
      ensures Above(c, s', key, lo, v) == Above(c, s, key, lo, v) {
      assert Level(c, lo, Exam(clock, h)) < v;
      AboveWith(c, s, s', key, lo, v, (x, key), Exam(clock, h));
    }
  }

  lemma AboveWith(c: Config, s: State, s': State, key: string, lo: int, v: int, k: (nat, string), e: Exam)
    requires s'.open == s.open[k := e] && k !in s.open && Level(c, lo, e) < v
    ensures Above(c, s', key, lo, v) == Above(c, s, key, lo, v)
  {
  }

  lemma LookBounded(c: Config, s: State, s': State, key: string, x: nat, h: seq<int>, lo: int, clock: int, p: nat)
    requires c.maxRestarts >= 0 && c.restartWindowMs >= 1
    requires Bounded(c, s, key, lo, clock, p) && (x, key) !in s.open && |OpenOf(s', key)| <= p
    requires h == Recent(History(s.restarts, key), clock - c.restartWindowMs) && |h| < c.maxRestarts
    requires s'.restarts == s.restarts && s'.log == s.log && s'.open == s.open[(x, key) := Exam(clock, h)]
    ensures Bounded(c, s', key, lo, clock, p)
  {
    if clock < lo {
      CountRecent(History(s.restarts, key), clock - c.restartWindowMs, lo, lo + c.restartWindowMs);
    } else {
      LookPlaces(c, s, s', key, x, h, lo, clock, p);
    }
    forall q | q in s'.open && q.1 == key ensures ExamSane(c, lo, clock, s'.open[q]) {
      if q != (x, key) { assert ExamSane(c, lo, clock, s.open[q]); }
    }
  }

  /** A look that finds the cap reached only prunes. */
  lemma PruneBounded(c: Config, s: State, s': State, key: string, h: seq<int>, lo: int, clock: int, p: nat)
    requires c.maxRestarts >= 0 && c.restartWindowMs >= 1 && Bounded(c, s, key, lo, clock, p)
    requires h == Recent(History(s.restarts, key), clock - c.restartWindowMs)
             && s' == s.(restarts := s.restarts[key := h])
    ensures Bounded(c, s', key, lo, clock, p)
  {
    if clock < lo + c.restartWindowMs {
      CountRecent(History(s.restarts, key), clock - c.restartWindowMs, lo, lo + c.restartWindowMs);
    }
    SamePlaces(c, s, s', key, lo, clock, p);
  }

  lemma SamePlaces(c: Config, s: State, s': State, key: string, lo: int, clock: int, p: nat)
    requires c.maxRestarts >= 0 && OpenSame(s, s', key)
             && MemoryLevel(c, s, key, lo, clock) == MemoryLevel(c, s', key, lo, clock)
    ensures Places(c, s', key, lo, clock, p) == Places(c, s, key, lo, clock, p) && OpenOf(s', key) == OpenOf(s, key)
    ensures Above(c, s', key, lo, c.maxRestarts) == Above(c, s, key, lo, c.maxRestarts)
  {
    forall v ensures Above(c, s', key, lo, v) == Above(c, s, key, lo, v) { AboveSame(c, s, s', key, lo, v); }
  }

  ghost predicate OpenSame(s: State, s': State, key: string) {
    forall k: (nat, string) | k.1 == key :: (k in s.open <==> k in s'.open) && (k in s.open ==> s.open[k] == s'.open[k])
  }

  lemma AboveSame(c: Config, s: State, s': State, key: string, lo: int, v: int)
    requires OpenSame(s, s', key)
    ensures Above(c, s', key, lo, v) == Above(c, s, key, lo, v) && OpenOf(s', key) == OpenOf(s, key)
  {
  }

  /** A step about another task. */
  lemma OtherBounded(c: Config, s: State, e: Event, key: string, lo: int, clock: int, p: nat)
    requires c.maxRestarts >= 0 && e.key != key && Bounded(c, s, key, lo, clock, p)
    ensures Bounded(c, Step(c, s, e), key, lo, clock, p)
  {
    var s' := Step(c, s, e);
    OtherStep(c, s, e, key);
    forall k: (nat, string) | k.1 == key ensures (k in s.open <==> k in s'.open)
      && (k in s.open ==> s.open[k] == s'.open[k]) {
      assert k == (k.0, key);
    }
    SamePlaces(c, s, s', key, lo, clock, p);
    forall k | k in s'.open && k.1 == key ensures ExamSane(c, lo, clock, s'.open[k]) {
      assert ExamSane(c, lo, clock, s.open[k]);
    }
  }

  // ---------------------------------------------------------------------------
  // Replies
  // ---------------------------------------------------------------------------

  lemma AboveWithout(c: Config, s: State, s': State, key: string, lo: int, v: int, k: (nat, string))
    requires s'.open == s.open - {k} && k in s.open && k.1 == key
    ensures Above(c, s', key, lo, v) == Above(c, s, key, lo, v) - {k} && OpenOf(s', key) == OpenOf(s, key) - {k}
    ensures |Above(c, s', key, lo, v)| == |Above(c, s, key, lo, v)| - (if Level(c, lo, s.open[k]) >= v then 1 else 0)
    ensures |OpenOf(s', key)| <= |OpenOf(s, key)|
  {
    assert Above(c, s', key, lo, v) == Above(c, s, key, lo, v) - {k};
    assert OpenOf(s', key) == OpenOf(s, key) - {k};
  }

  lemma SaneWithout(c: Config, s: State, s': State, key: string, lo: int, clock: int, k: (nat, string))
    requires Sane(c, s, key, lo, clock) && s'.open == s.open - {k}
    ensures Sane(c, s', key, lo, clock)
  {
    forall q | q in s'.open && q.1 == key ensures ExamSane(c, lo, clock, s'.open[q]) {
      assert ExamSane(c, lo, clock, s.open[q]);
    }
  }

  /** A restart that was not acknowledged only frees a place. */
  lemma LostBounded(c: Config, s: State, s': State, k: (nat, string), lo: int, clock: int, p: nat)
    requires c.maxRestarts >= 0 && Bounded(c, s, k.1, lo, clock, p) && k in s.open
    requires s' == s.(open := s.open - {k})
    ensures Bounded(c, s', k.1, lo, clock, p)
  {
    var key, m := k.1, c.maxRestarts;
    SaneWithout(c, s, s', key, lo, clock, k);
    forall v ensures |Above(c, s', key, lo, v)|
      == |Above(c, s, key, lo, v)| - (if Level(c, lo, s.open[k]) >= v then 1 else 0) {
      AboveWithout(c, s, s', key, lo, v, k);
    }
    AboveWithout(c, s, s', key, lo, m, k);
    if lo <= clock {
      var ns, ns' := Places(c, s, key, lo, clock, p), Places(c, s', key, lo, clock, p);
      PlacesAt(c, s, key, lo, clock, p);
      PlacesAt(c, s', key, lo, clock, p);
      if Level(c, lo, s.open[k]) >= m { LostOld(p, ns, ns', m); } else { WasteGrows(p, ns, ns'); }
    }
  }

  lemma LostOld(p: nat, ns: seq<nat>, ns': seq<nat>, m: nat)
    requires |ns| == |ns'| == m + 1 && 1 <= ns[m] <= p && ns'[m] < ns[m]
             && (forall u, v | 0 <= u <= v <= m :: ns[v] <= ns[u])
    ensures Waste(p, ns) + 1 <= Waste(p, ns')
  {
    WasteAnswered(p, ns, ns', m);
  }

  /** Where the free places are after an acknowledged restart: just below the level of its examination. */
  lemma MemoryAfter(c: Config, s: State, s': State, key: string, e: Exam, lo: int, clock: int)
    requires c.restartWindowMs >= 1 && ExamSane(c, lo, clock, e) && History(s'.restarts, key) == e.history + [e.at]
    ensures clock < lo + c.restartWindowMs ==> MemoryLevel(c, s', key, lo, clock) == Level(c, lo, e) - 1
    ensures clock < lo ==> CountIn(History(s'.restarts, key), lo, lo + c.restartWindowMs) == 0
  {
    CountAppend(e.history, e.at, lo, lo + c.restartWindowMs);
  }

  lemma AckedBounded(c: Config, s: State, s': State, k: (nat, string), lo: int, clock: int, p: nat)
    requires c.maxRestarts >= 0 && c.restartWindowMs >= 1 && Bounded(c, s, k.1, lo, clock, p) && k in s.open
    requires s'.open == s.open - {k} && Acked(s'.log, k.1) == Acked(s.log, k.1) + [s.open[k].at]
    requires History(s'.restarts, k.1) == s.open[k].history + [s.open[k].at]
    ensures Bounded(c, s', k.1, lo, clock, p)
  {
    var key, m, e := k.1, c.maxRestarts, s.open[k];
    assert ExamSane(c, lo, clock, e);
    SaneWithout(c, s, s', key, lo, clock, k);
    AboveWithout(c, s, s', key, lo, m, k);
    MemoryAfter(c, s, s', key, e, lo, clock);
    CountAppend(Acked(s.log, key), e.at, lo, lo + c.restartWindowMs);
    if lo <= clock { AckedPlaces(c, s, s', k, lo, clock, p); }
  }

  lemma AckedPlaces(c: Config, s: State, s': State, k: (nat, string), lo: int, clock: int, p: nat)
    requires c.maxRestarts >= 0 && lo <= clock && k in s.open && ExamSane(c, lo, clock, s.open[k])
             && |OpenOf(s, k.1)| <= p
    requires s'.open == s.open - {k} && |OpenOf(s', k.1)| <= p
    requires clock < lo + c.restartWindowMs ==> MemoryLevel(c, s', k.1, lo, clock) == Level(c, lo, s.open[k]) - 1
    ensures Waste(p, Places(c, s, k.1, lo, clock, p))
            + (if Level(c, lo, s.open[k]) >= 0 then 1 else 0) <= Waste(p, Places(c, s', k.1, lo, clock, p))
  {
    var key, m, a := k.1, c.maxRestarts, Level(c, lo, s.open[k]);
    var ns, ns' := Places(c, s, key, lo, clock, p), Places(c, s', key, lo, clock, p);
    forall v ensures |Above(c, s', key, lo, v)| == |Above(c, s, key, lo, v)| - (if a >= v then 1 else 0) {
      AboveWithout(c, s, s', key, lo, v, k);
    }
    PlacesAt(c, s, key, lo, clock, p);
    AboveAtMost(c, s, key, lo, p);
    if a >= 0 {
      assert k in Above(c, s, key, lo, a);
      WasteAnswered(p, ns, ns', a);
    } else {
      WasteGrows(p, ns, ns');
    }
  }

  // ---------------------------------------------------------------------------
  // Every run
  // ---------------------------------------------------------------------------

  lemma StepBounded(c: Config, s: State, e: Event, key: string, lo: int, clock: int, p: nat)
    requires c.maxRestarts >= 0 && c.restartWindowMs >= 1 && Bounded(c, s, key, lo, clock, p)
             && (e.Look? ==> e.at == clock)
    requires |OpenOf(Step(c, s, e), key)| <= p
    ensures Bounded(c, Step(c, s, e), key, lo, clock, p)
  {
    var k := (e.pass, e.key);
    if e.key != key {
      OtherBounded(c, s, e, key, lo, clock, p);
    } else if e.Look? && e.failed && k !in s.open {
      var h := Recent(History(s.restarts, key), e.at - c.restartWindowMs);
      LookOutcome(c, s, e, h);
      if |h| >= c.maxRestarts {
        PruneBounded(c, s, Step(c, s, e), key, h, lo, clock, p);
      } else {
        LookBounded(c, s, Step(c, s, e), key, e.pass, h, lo, clock, p);
      }
    } else if e.Reply? && k in s.open {
      ReplyOutcome(c, s, e, s.open[k]);
      if e.acked {
        AckedAppend(s.log, (key, s.open[k].at), key);
        AckedBounded(c, s, Step(c, s, e), k, lo, clock, p);
      } else {
        LostBounded(c, s, Step(c, s, e), k, lo, clock, p);
      }
    }
  }

  lemma InFlightPrefix(c: Config, evs: seq<Event>, key: string, p: nat)
    requires evs != [] && Monotone(evs) && InFlight(c, Start, evs, key, p)
    ensures var n := |evs| - 1;
            Monotone(evs[..n]) && InFlight(c, Start, evs[..n], key, p) && |OpenOf(Watch(c, Start, evs), key)| <= p
  {
    var n := |evs| - 1;
    assert evs[..|evs|] == evs;
    forall i | 0 <= i <= n ensures |OpenOf(Watch(c, Start, evs[..n][..i]), key)| <= p {
      assert evs[..n][..i] == evs[..i];
    }
  }

  lemma {:induction false} BoundedAlways(c: Config, evs: seq<Event>, key: string, lo: int, clock: int, p: nat)
    requires c.maxRestarts >= 0 && c.restartWindowMs >= 1 && Monotone(evs) && InFlight(c, Start, evs, key, p)
             && Reached(evs, clock)
    ensures Bounded(c, Watch(c, Start, evs), key, lo, clock, p)
    decreases |evs|
  {
    if evs == [] {
      StartBounded(c, key, lo, clock, p);
    } else {
      var n := |evs| - 1;
      InFlightPrefix(c, evs, key, p);
      assert forall i | 0 <= i < n :: evs[..n][i] == evs[i];
      var e, s := evs[n], Watch(c, Start, evs[..n]);
      var now := if e.Look? then e.at else clock;
      BoundedAlways(c, evs[..n], key, lo, now, p);
      StepBounded(c, s, e, key, lo, now, p);
      Later(c, Step(c, s, e), key, lo, now, clock, p);
    }
  }

  lemma StartBounded(c: Config, key: string, lo: int, clock: int, p: nat)
    requires c.maxRestarts >= 0
    ensures Bounded(c, Start, key, lo, clock, p)
  {
    assert OpenOf(Start, key) == {};
    assert Bounded(c, Start, key, lo, lo - 1, p);
    if lo <= clock { Later(c, Start, key, lo, lo - 1, clock, p); } else { assert Bounded(c, Start, key, lo, clock, p); }
  }

  lemma {:induction false} SomeClock(evs: seq<Event>) returns (clock: int)
    ensures Reached(evs, clock)
  {
    if evs == [] {
      clock := 0;
    } else {
      var n := |evs| - 1;
      clock := SomeClock(evs[..n]);
      assert forall i | 0 <= i < n :: evs[..n][i] == evs[i];
      if evs[n].Look? && evs[n].at > clock { clock := evs[n].at; }
    }
  }

  lemma {:induction false} CountNone(times: seq<int>, lo: int, hi: int)
    requires hi <= lo
    ensures CountIn(times, lo, hi) == 0
  {
    if times != [] { CountNone(times[..|times| - 1], lo, hi); }
  }

  /**
   * The rolling cap, whatever overlaps: with at most `p` examinations of the task in flight at once, every interval
   * one window long holds at most `AtMost` acknowledged restarts of it, counted from the moment each was decided.
   */
  lemma RollingCap(c: Config, evs: seq<Event>, key: string, lo: int, p: nat)
    requires Monotone(evs) && InFlight(c, Start, evs, key, p) && c.maxRestarts >= 0
    ensures CountIn(Acked(Watch(c, Start, evs).log, key), lo, lo + c.restartWindowMs) <= AtMost(c.maxRestarts, p)
  {
    if c.restartWindowMs >= 1 {
      var clock := SomeClock(evs);
      BoundedAlways(c, evs, key, lo, clock, p);
      BoundedIsAtMost(c, Watch(c, Start, evs), key, lo, clock, p);
    } else {
      CountNone(Acked(Watch(c, Start, evs).log, key), lo, lo + c.restartWindowMs);
    }
  }

  // ---------------------------------------------------------------------------
  // The bound is reached
  // ---------------------------------------------------------------------------

  /** `n` restarts at one moment. */
  function Times(at: int, n: nat): (h: seq<int>)
    ensures |h| == n
  {
    if n == 0 then [] else Times(at, n - 1) + [at]
  }

  lemma {:induction false} TimesStay(at: int, n: nat, bound: int)
    requires bound < at
    ensures Recent(Times(at, n), bound) == Times(at, n)
  {
    if n > 0 {
      TimesStay(at, n - 1, bound);
      RecentAppend(Times(at, n - 1), at, bound);
    }
  }

  /**
   * Passes 1 to `q` meet a task with `x` restarts remembered: pass `q` looks and hangs, the others fill the memory
   * up, the late answer throws all of that away but one, and so on from there.
   */
  function Ladder(cap: nat, key: string, at: int, q: nat, x: nat): seq<Event>
    decreases if x < cap then cap - x else 0, q
  {
    if q == 0 || x >= cap then []
    else
      [Look(q, key, true, at)] + Ladder(cap, key, at, q - 1, x)
      + [Reply(q, key, true)] + Ladder(cap, key, at, q, x + 1)
  }

  /** A look now would remember `x` restarts, all made now. */
  predicate Ready(c: Config, s: State, key: string, at: int, x: nat) {
    Recent(History(s.restarts, key), at - c.restartWindowMs) == Times(at, x)
  }

  ghost predicate Free(s: State, key: string, q: nat) { forall r: nat | 1 <= r <= q :: (r, key) !in s.open }

  lemma One(c: Config, s: State, e: Event, key: string, p: nat)
    requires |OpenOf(s, key)| <= p && |OpenOf(Step(c, s, e), key)| <= p
    ensures Watch(c, s, [e]) == Step(c, s, e) && InFlight(c, s, [e], key, p)
  {
    assert [e][..0] == [] && [e][..1] == [e];
  }

  lemma Both(c: Config, s: State, a: seq<Event>, b: seq<Event>, key: string, p: nat)
    requires InFlight(c, s, a, key, p) && InFlight(c, Watch(c, s, a), b, key, p)
    ensures InFlight(c, s, a + b, key, p) && Watch(c, s, a + b) == Watch(c, Watch(c, s, a), b)
  {
    WatchAppend(c, s, a, b);
    forall i | 0 <= i <= |a + b| ensures |OpenOf(Watch(c, s, (a + b)[..i]), key)| <= p {
      if i <= |a| {
        assert (a + b)[..i] == a[..i];
      } else {
        assert (a + b)[..i] == a + b[..i - |a|];
        WatchAppend(c, s, a, b[..i - |a|]);
      }
    }
  }

  lemma OpenOne(s: State, s': State, k: (nat, string), e: Exam)
    requires k !in s.open && s'.open == s.open[k := e]
    ensures |OpenOf(s', k.1)| == |OpenOf(s, k.1)| + 1 && s'.open - {k} == s.open
  {
    assert OpenOf(s', k.1) == OpenOf(s, k.1) + {k};
  }

  /** Pass `q` looks. */
  lemma Hangs(c: Config, s: State, key: string, at: int, q: nat, x: nat)
    requires c.restartWindowMs >= 1 && x < c.maxRestarts && Ready(c, s, key, at, x) && (q, key) !in s.open
    ensures Step(c, s, Look(q, key, true, at))
            == s.(open := s.open[(q, key) := Exam(at, Times(at, x))], calls := s.calls + [(key, at)])
  {
    LookOutcome(c, s, Look(q, key, true, at), Times(at, x));
  }

  /** Pass `q` is answered at last. */
  lemma Answers(c: Config, s: State, key: string, at: int, q: nat, x: nat)
    requires c.restartWindowMs >= 1 && (q, key) in s.open && s.open[(q, key)] == Exam(at, Times(at, x))
    ensures var s' := Step(c, s, Reply(q, key, true));
            && s'.open == s.open - {(q, key)} && History(s'.restarts, key) == Times(at, x + 1)
            && Ready(c, s', key, at, x + 1)
            && Counted(c, s', key, at) == Counted(c, s, key, at) + 1
  {
    var e := Reply(q, key, true);
    ReplyOutcome(c, s, e, Exam(at, Times(at, x)));
    AckedAppend(s.log, (key, at), key);
    CountAppend(Acked(s.log, key), at, at, at + c.restartWindowMs);
    TimesStay(at, x + 1, at - c.restartWindowMs);
  }

  /** What the ladder does. */
  ghost predicate Climbed(c: Config, s: State, s': State, key: string, at: int, q: nat, x: nat) {
    && s'.open == s.open && x <= c.maxRestarts
    && Counted(c, s', key, at) == Counted(c, s, key, at) + Ways(q, c.maxRestarts - x) - 1
    && Ready(c, s', key, at, if q == 0 then x else c.maxRestarts)
    && (q > 0 && x < c.maxRestarts ==> |History(s'.restarts, key)| == c.maxRestarts)
  }

  /** The first step of a rung, */
  lemma RungBegins(c: Config, s: State, key: string, at: int, q: nat, x: nat, p: nat)
    requires c.restartWindowMs >= 1 && x < c.maxRestarts && Ready(c, s, key, at, x) && q >= 1 && Free(s, key, q)
             && |OpenOf(s, key)| + q <= p
    ensures var a := Look(q, key, true, at);
            var s1 := Step(c, s, a);
            && Watch(c, s, [a]) == s1 && InFlight(c, s, [a], key, p) && Ready(c, s1, key, at, x) && Free(s1, key, q - 1)
            && |OpenOf(s1, key)| + q - 1 <= p && Counted(c, s1, key, at) == Counted(c, s, key, at)
            && (q, key) !in s.open && s1.open == s.open[(q, key) := Exam(at, Times(at, x))]
  {
    var a := Look(q, key, true, at);
    Hangs(c, s, key, at, q, x);
    OpenOne(s, Step(c, s, a), (q, key), Exam(at, Times(at, x)));
    One(c, s, a, key, p);
  }

  /** and, once the other passes have climbed, its last. */
  lemma RungEnds(c: Config, s: State, s1: State, s2: State, key: string, at: int, q: nat, x: nat, p: nat)
    requires c.restartWindowMs >= 1 && x < c.maxRestarts && q >= 1 && |OpenOf(s, key)| + q <= p
    requires (q, key) !in s.open && s1.open == s.open[(q, key) := Exam(at, Times(at, x))]
             && Counted(c, s1, key, at) == Counted(c, s, key, at)
    requires Climbed(c, s1, s2, key, at, q - 1, x)
    ensures var b := Reply(q, key, true);
            var s3 := Step(c, s2, b);
            && Watch(c, s2, [b]) == s3 && InFlight(c, s2, [b], key, p) && Ready(c, s3, key, at, x + 1)
            && s3.open == s.open
            && Counted(c, s3, key, at) == Counted(c, s, key, at) + Ways(q - 1, c.maxRestarts - x)
            && |History(s3.restarts, key)| == x + 1
  {
    var b := Reply(q, key, true);
    OpenOne(s, s1, (q, key), Exam(at, Times(at, x)));
    assert OpenOf(s2, key) == OpenOf(s1, key);
    Answers(c, s2, key, at, q, x);
    assert Step(c, s2, b).open == s.open;
    assert OpenOf(Step(c, s2, b), key) == OpenOf(s, key);
    One(c, s2, b, key, p);
  }

  lemma Three(c: Config, s: State, a: seq<Event>, b: seq<Event>, d: seq<Event>, s1: State, s2: State, key: string,
      p: nat)
    requires InFlight(c, s, a, key, p) && InFlight(c, s1, b, key, p) && InFlight(c, s2, d, key, p)
    requires s1 == Watch(c, s, a) && s2 == Watch(c, s1, b)
    ensures InFlight(c, s, a + b + d, key, p) && Watch(c, s, a + b + d) == Watch(c, s2, d)
  {
    Both(c, s, a, b, key, p);
    Both(c, s, a + b, d, key, p);
  }

  lemma {:induction false} LadderClimbs(c: Config, s: State, key: string, at: int, q: nat, x: nat, p: nat)
    requires c.restartWindowMs >= 1 && x <= c.maxRestarts && Ready(c, s, key, at, x) && Free(s, key, q)
             && |OpenOf(s, key)| + q <= p
    ensures Climbed(c, s, Watch(c, s, Ladder(c.maxRestarts, key, at, q, x)), key, at, q, x)
    ensures InFlight(c, s, Ladder(c.maxRestarts, key, at, q, x), key, p)
    decreases c.maxRestarts - x, q
  {
    var m := c.maxRestarts;
    if q > 0 && x < m {
      var a, b := Look(q, key, true, at), Reply(q, key, true);
      var low, high := Ladder(m, key, at, q - 1, x), Ladder(m, key, at, q, x + 1);
      var s1 := Step(c, s, a);
      RungBegins(c, s, key, at, q, x, p);
      LadderClimbs(c, s1, key, at, q - 1, x, p);
      var s2 := Watch(c, s1, low);
      var s3 := Step(c, s2, b);
      RungEnds(c, s, s1, s2, key, at, q, x, p);
      assert OpenOf(s3, key) == OpenOf(s, key);
      LadderClimbs(c, s3, key, at, q, x + 1, p);
      Three(c, s, [a], low, [b], s1, s2, key, p);
      Both(c, s, [a] + low + [b], high, key, p);
    }
  }

  // ---------------------------------------------------------------------------
  // From before the window
  // ---------------------------------------------------------------------------

  function Passes(key: string, lo: nat, hi: nat): (s: set<(nat, string)>)
    ensures forall k :: k in s <==> k.1 == key && lo < k.0 <= hi
    ensures |s| == if lo < hi then hi - lo else 0
  {
    if lo >= hi then {} else Passes(key, lo, hi - 1) + {(hi, key)}
  }

  /** Passes 1 to `n` look and hang. */
  function Hang(key: string, at: int, n: nat): seq<Event> {
    if n == 0 then [] else Hang(key, at, n - 1) + [Look(n, key, true, at)]
  }

  /** They are answered one after the other, and the passes that are free climb each time. */
  function Release(cap: nat, key: string, at: int, n: nat): seq<Event> {
    if n == 0 then [] else Release(cap, key, at, n - 1) + ([Reply(n, key, true)] + Ladder(cap, key, at, n, 0))
  }

  /** Passes `j + 1` to `p` hang with nothing in hand, begun a window ago. */
  ghost predicate Hung(c: Config, s: State, key: string, at: int, j: nat, p: nat) {
    s.open.Keys == Passes(key, j, p) && forall k | k in s.open :: s.open[k] == Exam(at - c.restartWindowMs, [])
  }

  lemma HungSize(c: Config, s: State, key: string, at: int, j: nat, p: nat)
    requires Hung(c, s, key, at, j, p) && j <= p
    ensures |OpenOf(s, key)| == p - j && Free(s, key, j)
  {
    assert OpenOf(s, key) == Passes(key, j, p);
  }

  /** Nothing has been restarted, and passes 1 to `n` hang. */
  ghost predicate AllHang(c: Config, s: State, key: string, at: int, n: nat) {
    Hung(c, s, key, at, 0, n) && s.restarts == map[] && s.log == []
  }

  lemma OneMoreHangs(c: Config, s: State, key: string, at: int, n: nat, p: nat)
    requires c.maxRestarts >= 1 && 1 <= n <= p && AllHang(c, s, key, at, n - 1)
    ensures var e := Look(n, key, true, at - c.restartWindowMs);
            AllHang(c, Step(c, s, e), key, at, n) && Watch(c, s, [e]) == Step(c, s, e) && InFlight(c, s, [e], key, p)
  {
    var e := Look(n, key, true, at - c.restartWindowMs);
    assert (n, key) !in s.open;
    LookOutcome(c, s, e, []);
    var s' := Step(c, s, e);
    assert s'.open.Keys == Passes(key, 0, n - 1) + {(n, key)};
    HungSize(c, s, key, at, 0, n - 1);
    HungSize(c, s', key, at, 0, n);
    One(c, s, e, key, p);
  }

  lemma ThenOneMore(c: Config, earlier: seq<Event>, key: string, at: int, n: nat, p: nat)
    requires c.maxRestarts >= 1 && 1 <= n <= p && AllHang(c, Watch(c, Start, earlier), key, at, n - 1)
             && InFlight(c, Start, earlier, key, p)
    ensures var evs := earlier + [Look(n, key, true, at - c.restartWindowMs)];
            AllHang(c, Watch(c, Start, evs), key, at, n) && InFlight(c, Start, evs, key, p)
  {
    OneMoreHangs(c, Watch(c, Start, earlier), key, at, n, p);
    Both(c, Start, earlier, [Look(n, key, true, at - c.restartWindowMs)], key, p);
  }

  lemma {:induction false} HangHangs(c: Config, key: string, at: int, n: nat, p: nat)
    requires c.maxRestarts >= 1 && n <= p
    ensures AllHang(c, Watch(c, Start, Hang(key, at - c.restartWindowMs, n)), key, at, n)
    ensures InFlight(c, Start, Hang(key, at - c.restartWindowMs, n), key, p)
  {
    if n > 0 {
      HangHangs(c, key, at, n - 1, p);
      ThenOneMore(c, Hang(key, at - c.restartWindowMs, n - 1), key, at, n, p);
    } else {
      NothingHangs(c, key, at, p);
    }
  }

  lemma NothingHangs(c: Config, key: string, at: int, p: nat)
    ensures AllHang(c, Watch(c, Start, []), key, at, 0) && InFlight(c, Start, [], key, p)
  {
    assert OpenOf(Start, key) == {};
  }

  /** An answer from before the window empties the memory, as far as the window is concerned. */
  lemma Forgets(c: Config, s: State, key: string, at: int, j: nat, p: nat)
    requires c.restartWindowMs >= 1 && 1 <= j <= p && Hung(c, s, key, at, j - 1, p)
    ensures var s' := Step(c, s, Reply(j, key, true));
            && Hung(c, s', key, at, j, p) && Ready(c, s', key, at, 0)
            && Counted(c, s', key, at) == Counted(c, s, key, at)
  {
    var was, e := at - c.restartWindowMs, Reply(j, key, true);
    assert (j, key) in s.open;
    ReplyOutcome(c, s, e, Exam(was, []));
    AckedAppend(s.log, (key, was), key);
    CountAppend(Acked(s.log, key), was, at, at + c.restartWindowMs);
    RecentAppend([], was, was);
    assert [] + [was] == [was];
    assert Passes(key, j, p) == Passes(key, j - 1, p) - {(j, key)};
  }

  /** What the releases do. */
  ghost predicate Released(c: Config, s: State, s': State, key: string, at: int, j: nat, p: nat)
    requires c.maxRestarts >= 0
  {
    && Hung(c, s', key, at, j, p) && Counted(c, s', key, at) == Counted(c, s, key, at) + AtMost(c.maxRestarts, j)
    && (j > 0 ==> |History(s'.restarts, key)| == c.maxRestarts)
  }

  lemma ReleaseOne(c: Config, s: State, s1: State, key: string, at: int, j: nat, p: nat)
    requires c.restartWindowMs >= 1 && c.maxRestarts >= 1 && 1 <= j <= p && Released(c, s, s1, key, at, j - 1, p)
    ensures var more := [Reply(j, key, true)] + Ladder(c.maxRestarts, key, at, j, 0);
            Released(c, s, Watch(c, s1, more), key, at, j, p) && InFlight(c, s1, more, key, p)
  {
    var e, climb := Reply(j, key, true), Ladder(c.maxRestarts, key, at, j, 0);
    Forgets(c, s1, key, at, j, p);
    var s2 := Step(c, s1, e);
    HungSize(c, s1, key, at, j - 1, p);
    HungSize(c, s2, key, at, j, p);
    One(c, s1, e, key, p);
    LadderClimbs(c, s2, key, at, j, 0, p);
    Both(c, s1, [e], climb, key, p);
  }

  lemma {:induction false} ReleaseClimbs(c: Config, s: State, key: string, at: int, j: nat, p: nat)
    requires c.restartWindowMs >= 1 && c.maxRestarts >= 1 && j <= p && Hung(c, s, key, at, 0, p)
    ensures Released(c, s, Watch(c, s, Release(c.maxRestarts, key, at, j)), key, at, j, p)
    ensures InFlight(c, s, Release(c.maxRestarts, key, at, j), key, p)
  {
    if j > 0 {
      var earlier := Release(c.maxRestarts, key, at, j - 1);
      ReleaseClimbs(c, s, key, at, j - 1, p);
      ReleaseOne(c, s, Watch(c, s, earlier), key, at, j, p);
      Both(c, s, earlier, [Reply(j, key, true)] + Ladder(c.maxRestarts, key, at, j, 0), key, p);
    } else {
      HungSize(c, s, key, at, 0, p);
    }
  }

  ghost predicate LooksAt(evs: seq<Event>, at: int) { forall i | 0 <= i < |evs| && evs[i].Look? :: evs[i].at == at }

  lemma {:induction false} HangLooks(key: string, at: int, n: nat)
    ensures LooksAt(Hang(key, at, n), at)
  {
    if n > 0 { HangLooks(key, at, n - 1); }
  }

  lemma {:induction false} LadderLooks(cap: nat, key: string, at: int, q: nat, x: nat)
    ensures LooksAt(Ladder(cap, key, at, q, x), at)
    decreases if x < cap then cap - x else 0, q
  {
    if q > 0 && x < cap {
      LadderLooks(cap, key, at, q - 1, x);
      LadderLooks(cap, key, at, q, x + 1);
    }
  }

  lemma {:induction false} ReleaseLooks(cap: nat, key: string, at: int, n: nat)
    ensures LooksAt(Release(cap, key, at, n), at)
  {
    if n > 0 {
      ReleaseLooks(cap, key, at, n - 1);
      LadderLooks(cap, key, at, n, 0);
    }
  }

  lemma LooksInOrder(a: seq<Event>, b: seq<Event>, was: int, at: int)
    requires LooksAt(a, was) && LooksAt(b, at) && was <= at
    ensures Monotone(a + b)
  {
  }

  /**
   * The bound is reached, for every cap, every number of examinations in flight and every window: there is a run
   * that never has more in flight and in which one window holds that many restarts. The memory ends with no more than
   * the cap.
   */
  lemma BoundIsReached(c: Config, key: string, at: int, p: nat) returns (evs: seq<Event>)
    requires c.restartWindowMs >= 1 && c.maxRestarts >= 1
    ensures Monotone(evs) && InFlight(c, Start, evs, key, p)
    ensures CountIn(Acked(Watch(c, Start, evs).log, key), at, at + c.restartWindowMs) == AtMost(c.maxRestarts, p)
    ensures p > 0 ==> |History(Watch(c, Start, evs).restarts, key)| == c.maxRestarts
  {
    evs := Hang(key, at - c.restartWindowMs, p) + Release(c.maxRestarts, key, at, p);
    StoryInOrder(c, key, at, p);
    HangThenRelease(c, key, at, p);
  }

  lemma StoryInOrder(c: Config, key: string, at: int, p: nat)
    requires c.restartWindowMs >= 1 && c.maxRestarts >= 1
    ensures Monotone(Hang(key, at - c.restartWindowMs, p) + Release(c.maxRestarts, key, at, p))
  {
    var was := at - c.restartWindowMs;
    var a, b := Hang(key, was, p), Release(c.maxRestarts, key, at, p);
    HangLooks(key, was, p);
    ReleaseLooks(c.maxRestarts, key, at, p);
    LooksInOrder(a, b, was, at);
  }

  lemma HangThenRelease(c: Config, key: string, at: int, p: nat)
    requires c.restartWindowMs >= 1 && c.maxRestarts >= 1
    ensures var evs := Hang(key, at - c.restartWindowMs, p) + Release(c.maxRestarts, key, at, p);
            var s := Watch(c, Start, evs);
            && InFlight(c, Start, evs, key, p) && Counted(c, s, key, at) == AtMost(c.maxRestarts, p)
            && (p > 0 ==> |History(s.restarts, key)| == c.maxRestarts)
  {
    var a, b := Hang(key, at - c.restartWindowMs, p), Release(c.maxRestarts, key, at, p);
    HangHangs(c, key, at, p, p);
    ReleaseClimbs(c, Watch(c, Start, a), key, at, p, p);
    Both(c, Start, a, b, key, p);
  }

  /**
   * With at most `p` examinations of a task in flight at once, no window ever holds more restarts of it than the cap.
   */
  ghost predicate CapHolds(c: Config, p: nat) {
    forall evs: seq<Event>, key: string, lo: int :: CapKept(c, evs, key, lo, p)
  }

  ghost predicate CapKept(c: Config, evs: seq<Event>, key: string, lo: int, p: nat) {
    Monotone(evs) && InFlight(c, Start, evs, key, p) ==> Counted(c, Watch(c, Start, evs), key, lo) <= c.maxRestarts
  }

  /** The cap holds exactly when no two examinations of a task are ever in flight together. */
  lemma CapHoldsIff(c: Config, p: nat)
    requires c.restartWindowMs >= 1 && c.maxRestarts >= 1
    ensures CapHolds(c, p) <==> p <= 1
  {
    SmallBounds(c.maxRestarts);
    if p <= 1 {
      forall evs: seq<Event>, key: string, lo: int ensures CapKept(c, evs, key, lo, p) {
        if Monotone(evs) && InFlight(c, Start, evs, key, p) { RollingCap(c, evs, key, lo, p); }
      }
    } else {
      BoundGrows(c.maxRestarts, 2, p);
      var evs := BoundIsReached(c, "", 0, p);
      MoreThanTheCap(c.maxRestarts);
      assert !CapKept(c, evs, "", 0, p);
    }
  }

  lemma MoreThanTheCap(cap: nat)
    requires cap >= 1
    ensures AtMost(cap, 2) > cap
  {
    SmallBounds(cap);
    if cap == 1 {} else { assert cap * (cap + 5) >= 2 * (cap + 5); }
  }

  lemma {:induction false} BoundGrows(cap: nat, p: nat, q: nat)
    requires p <= q
    ensures AtMost(cap, p) <= AtMost(cap, q)
    decreases q
  {
    if p < q { BoundGrows(cap, p, q - 1); }
  }
}
