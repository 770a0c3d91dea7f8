/**
 * The admin API's cached tenant gate: a status cache with single-flight reads and
 * invalidation that may fall in the middle of a read.
 *
 * The asynchronous method is split where the event loop can switch: the synchronous part of a
 * call, the read's `then` callback, its `finally` callback, and `invalidate`.
 */
module TenantGate {
  import opened Common

  datatype TenantAvailability = Active | Suspended | Cancelled | Unknown

  datatype Entry = Entry(value: TenantAvailability, expiresAt: int)

  /** The two maps of the gate; a pending read is named by the number of its promise. */
  datatype GateState = GateState(entries: map<string, Entry>, inflight: map<string, nat>)

  /** What a call is handed synchronously: a value, or the promise of a read. */
  datatype Answer = Now(value: TenantAvailability) | Await(read: nat)

  datatype Config = Config(platformTenantId: string, ttlMs: int)

  function Begin(c: Config, g: GateState, t: string, now: int, unused: nat): (GateState, Answer) {
    if c.platformTenantId != "" && t == c.platformTenantId then (g, Now(Active))
    else if t in g.entries && g.entries[t].expiresAt > now then (g, Now(g.entries[t].value))
    else if t in g.inflight then (g, Await(g.inflight[t]))
    else (g.(inflight := g.inflight[t := unused]), Await(unused))
  }

  predicate StillInFlight(g: GateState, t: string, read: nat) {
    t in g.inflight && g.inflight[t] == read
  }

  function Resolved(c: Config, g: GateState, t: string, read: nat, v: TenantAvailability, now: int): GateState {
    if StillInFlight(g, t, read) then g.(entries := g.entries[t := Entry(v, now + c.ttlMs)]) else g
  }

  function Settled(g: GateState, t: string, read: nat): GateState {
    if StillInFlight(g, t, read) then g.(inflight := g.inflight - {t}) else g
  }

  function Invalidated(g: GateState, t: string): GateState {
    GateState(g.entries - {t}, g.inflight - {t})
  }

  /** The gate object. Each method is one uninterrupted stretch of the source. */
  class CachedTenantGate {
    const config: Config
    var entries: map<string, Entry>
    var inflight: map<string, nat>
    var promises: nat

    constructor (config: Config)
      ensures this.config == config && State() == GateState(map[], map[]) && promises == 0
    {
      this.config := config;
      entries, inflight, promises := map[], map[], 0;
    }

    function State(): GateState
      reads this
    {
      GateState(entries, inflight)
    }

    method Availability(t: string, now: int) returns (a: Answer)
      modifies this
      ensures (State(), a) == Begin(config, old(State()), t, now, old(promises))
      ensures promises == if State() == old(State()) then old(promises) else old(promises) + 1
    {
      if config.platformTenantId != "" && t == config.platformTenantId {
        return Now(Active);
      }
      if t in entries {
        var hit := entries[t];
        if hit.expiresAt > now {
          return Now(hit.value);
        }
      }
      if t in inflight {
        return Await(inflight[t]);
      }
      inflight := inflight[t := promises];
      a := Await(promises);
      promises := promises + 1;
      assert t in State().inflight && t !in old(State()).inflight;
    }

    method OnResolved(t: string, read: nat, v: TenantAvailability, now: int)
      modifies this`entries
      ensures State() == Resolved(config, old(State()), t, read, v, now)
    {
      if t in inflight && inflight[t] == read {
        entries := entries[t := Entry(v, now + config.ttlMs)];
      }
    }

    method OnSettled(t: string, read: nat)
      modifies this`inflight
      ensures State() == Settled(old(State()), t, read)
    {
      if t in inflight && inflight[t] == read {
        inflight := inflight - {t};
      }
    }

    method Invalidate(t: string)
      modifies this`entries, this`inflight
      ensures State() == Invalidated(old(State()), t)
    {
      entries := entries - {t};
      inflight := inflight - {t};
    }
  }

  // ---------------------------------------------------------------------------
  // Runs: any interleaving of calls, read progress, invalidations and status changes
  // ---------------------------------------------------------------------------

  datatype Event =
    | Call(tenant: string, now: int)
    | Sample(read: nat, now: int)    // the source of truth evaluates the query
    | Resolve(read: nat, now: int)   // the `then` callback runs
    | Reject(read: nat)              // the query fails instead
    | Settle(read: nat)              // the `finally` callback runs
    | Invalidate(tenant: string)
    | ChangeStatus(tenant: string, status: TenantAvailability, now: int)

  datatype Phase = Loading | Sampled | Fulfilled | Rejected | Closed

  /** `begun` and `sampledAt` are positions in the run; `resolvedAt` is a clock reading. */
  datatype Read = Read(tenant: string, begun: nat, phase: Phase, value: Option<TenantAvailability>,
                       sampledAt: nat, resolvedAt: int)

  /** Where the value of a call comes from. */
  datatype Source = Platform(value: TenantAvailability) | Hit(read: nat, value: TenantAvailability) | Joined(read: nat)

  datatype World = World(gate: GateState, queries: seq<Read>, origin: map<string, nat>, calls: map<nat, Source>)

  /** The status the source of truth holds after the first `k` events. */
  function TruthAt(evs: seq<Event>, k: nat, t: string): TenantAvailability
    requires k <= |evs|
  {
    if k == 0 then Unknown
    else match evs[k - 1]
      case ChangeStatus(u, s, _) => if u == t then s else TruthAt(evs, k - 1, t)
      case _ => TruthAt(evs, k - 1, t)
  }

  /** The world after a run. An event whose read is not in the phase it needs changes nothing. */
  function Run(c: Config, evs: seq<Event>): World {
    if evs == [] then World(GateState(map[], map[]), [], map[], map[])
    else Step(c, Run(c, evs[..|evs| - 1]), evs, |evs| - 1)
  }

  function Step(c: Config, w: World, evs: seq<Event>, i: nat): World
    requires i < |evs|
  {
    match evs[i]
    case Call(t, now) =>
      var (g, a) := Begin(c, w.gate, t, now, |w.queries|);
      (match a
       case Now(v) =>
         if c.platformTenantId != "" && t == c.platformTenantId then w.(calls := w.calls[i := Platform(v)])
         else if t in w.origin then w.(calls := w.calls[i := Hit(w.origin[t], v)])
         else w
       case Await(r) =>
         World(g, if r == |w.queries| then w.queries + [Read(t, i, Loading, None, 0, 0)] else w.queries,
               w.origin, w.calls[i := Joined(r)]))
    case Sample(r, _) =>
      if r < |w.queries| && w.queries[r].phase == Loading
      then w.(queries := w.queries[r := w.queries[r].(phase := Sampled, sampledAt := i,
                                               value := Some(TruthAt(evs, i, w.queries[r].tenant)))])
      else w
    case Resolve(r, now) =>
      if r < |w.queries| && w.queries[r].phase == Sampled && w.queries[r].value.Some?
      then var rd := w.queries[r];
           World(Resolved(c, w.gate, rd.tenant, r, rd.value.value, now),
                 w.queries[r := rd.(phase := Fulfilled, resolvedAt := now)],
                 if StillInFlight(w.gate, rd.tenant, r) then w.origin[rd.tenant := r] else w.origin,
                 w.calls)
      else w
    case Reject(r) =>
      if r < |w.queries| && w.queries[r].phase == Loading
      then w.(queries := w.queries[r := w.queries[r].(phase := Rejected)])
      else w
    case Settle(r) =>
      if r < |w.queries| && (w.queries[r].phase == Fulfilled || w.queries[r].phase == Rejected)
      then w.(gate := Settled(w.gate, w.queries[r].tenant, r),
          queries := w.queries[r := w.queries[r].(phase := Closed)])
      else w
    case Invalidate(t) => w.(gate := Invalidated(w.gate, t))
    case ChangeStatus(_, _, _) => w
  }

  /** `t` is invalidated nowhere in the run strictly after position `b`. */
  ghost predicate QuietSince(evs: seq<Event>, b: nat, t: string) {
    forall k | b < k < |evs| :: evs[k] != Invalidate(t)
  }

  ghost predicate InvalidatedBetween(evs: seq<Event>, a: nat, b: nat, t: string) {
    exists k :: a < k < b && k < |evs| && evs[k] == Invalidate(t)
  }

  ghost predicate QueryOk(evs: seq<Event>, w: World, r: nat)
    requires r < |w.queries|
  {
    var rd := w.queries[r];
    && rd.begun < |evs| && evs[rd.begun].Call?
    && (rd.value.Some? ==> rd.begun < rd.sampledAt < |evs| && evs[rd.sampledAt].Sample?
                           && rd.value.value == TruthAt(evs, rd.sampledAt, rd.tenant))
    && (rd.phase == Loading || rd.phase == Rejected ==> rd.value.None?)
    && (rd.phase != Closed && QuietSince(evs, rd.begun, rd.tenant) ==> StillInFlight(w.gate, rd.tenant, r))
  }

  ghost predicate ReadsOk(evs: seq<Event>, w: World) {
    forall r | 0 <= r < |w.queries| :: QueryOk(evs, w, r)
  }

  ghost predicate FlightOk(evs: seq<Event>, w: World, t: string)
    requires t in w.gate.inflight
  {
    var r := w.gate.inflight[t];
    && r < |w.queries| && w.queries[r].tenant == t && w.queries[r].phase != Closed
    && QuietSince(evs, w.queries[r].begun, t)
  }

  ghost predicate InflightOk(evs: seq<Event>, w: World) {
    forall t | t in w.gate.inflight :: FlightOk(evs, w, t)
  }

  ghost predicate EntryOk(c: Config, evs: seq<Event>, w: World, t: string)
    requires t in w.gate.entries
  {
    && t in w.origin && w.origin[t] < |w.queries|
    && var rd := w.queries[w.origin[t]];
       && rd.tenant == t && rd.value == Some(w.gate.entries[t].value)
       && (rd.phase == Fulfilled || rd.phase == Closed)
       && w.gate.entries[t].expiresAt == rd.resolvedAt + c.ttlMs
       && QuietSince(evs, rd.begun, t)
  }

  ghost predicate EntriesOk(c: Config, evs: seq<Event>, w: World) {
    forall t | t in w.gate.entries :: EntryOk(c, evs, w, t)
  }

  ghost predicate PairsOk(evs: seq<Event>, w: World) {
    forall r1, r2 | 0 <= r1 < r2 < |w.queries| && w.queries[r1].tenant == w.queries[r2].tenant
      && w.queries[r1].phase != Closed ::
      InvalidatedBetween(evs, w.queries[r1].begun, w.queries[r2].begun, w.queries[r1].tenant)
  }

  ghost predicate CallOk(c: Config, evs: seq<Event>, w: World, j: nat, s: Source) {
    && j < |evs| && evs[j].Call?
    && (s.Hit? || s.Joined? ==>
      && s.read < |w.queries| && w.queries[s.read].tenant == evs[j].tenant
      && (forall k | 0 <= k < j && evs[k] == Invalidate(evs[j].tenant) :: k < w.queries[s.read].begun))
    && (s.Hit? ==> var rd := w.queries[s.read];
                   && rd.value == Some(s.value) && (rd.phase == Fulfilled || rd.phase == Closed)
                   && evs[j].now < rd.resolvedAt + c.ttlMs)
  }

  ghost predicate Inv(c: Config, evs: seq<Event>, w: World) {
    && ReadsOk(evs, w) && InflightOk(evs, w) && EntriesOk(c, evs, w) && PairsOk(evs, w)
    && forall j | j in w.calls :: CallOk(c, evs, w, j, w.calls[j])
  }

  // Each of the following carries one part of the invariant across the last event of a run.

  lemma QuietExtends(evs: seq<Event>, b: nat, t: string)
    requires |evs| > 0
    ensures QuietSince(evs, b, t) <==>
            QuietSince(evs[..|evs| - 1], b, t) && (b < |evs| - 1 ==> evs[|evs| - 1] != Invalidate(t))
  {
    var p := evs[..|evs| - 1];
    if QuietSince(evs, b, t) {
      forall k | b < k < |p| ensures p[k] != Invalidate(t) { assert evs[k] == p[k]; }
    } else {
      var k :| b < k < |evs| && evs[k] == Invalidate(t);
      if k < |p| { assert p[k] == evs[k]; }
    }
  }

  lemma {:induction false} TruthPrefix(evs: seq<Event>, k: nat, t: string)
    requires |evs| > 0 && k < |evs|
    ensures TruthAt(evs, k, t) == TruthAt(evs[..|evs| - 1], k, t)
  {
    if k > 0 { TruthPrefix(evs, k - 1, t); }
  }

  lemma {:induction false} Invariant(c: Config, evs: seq<Event>)
    ensures Inv(c, evs, Run(c, evs))
  {
    if evs != [] {
      Invariant(c, evs[..|evs| - 1]);
      var w := Run(c, evs[..|evs| - 1]);
      ReadsKept(c, evs, w);
      InflightKept(c, evs, w);
      EntriesKept(c, evs, w);
      PairsKept(c, evs, w);
      CallsKept(c, evs, w);
    }
  }

  lemma ReadsKept(c: Config, evs: seq<Event>, w: World)
    requires |evs| > 0 && ReadsOk(evs[..|evs| - 1], w) && InflightOk(evs[..|evs| - 1], w)
    ensures ReadsOk(evs, Step(c, w, evs, |evs| - 1))
  {
    var w' := Step(c, w, evs, |evs| - 1);
    forall r | 0 <= r < |w'.queries| ensures QueryOk(evs, w', r) {
      if r < |w.queries| {
        assert QueryOk(evs[..|evs| - 1], w, r);
        if w.queries[r].tenant in w.gate.inflight { assert FlightOk(evs[..|evs| - 1], w, w.queries[r].tenant); }
        QueryKept(c, evs, w, r);
      }
    }
  }

  lemma QueryKept(c: Config, evs: seq<Event>, w: World, r: nat)
    requires |evs| > 0 && r < |w.queries| && QueryOk(evs[..|evs| - 1], w, r)
    requires w.queries[r].tenant in w.gate.inflight ==> FlightOk(evs[..|evs| - 1], w, w.queries[r].tenant)
    ensures QueryOk(evs, Step(c, w, evs, |evs| - 1), r)
  {
    var was := w.queries[r];
    QuietExtends(evs, was.begun, was.tenant);
    if was.value.Some? { TruthPrefix(evs, was.sampledAt, was.tenant); }
  }

  lemma InflightKept(c: Config, evs: seq<Event>, w: World)
    requires |evs| > 0 && ReadsOk(evs[..|evs| - 1], w) && InflightOk(evs[..|evs| - 1], w)
    ensures InflightOk(evs, Step(c, w, evs, |evs| - 1))
  {
    var w' := Step(c, w, evs, |evs| - 1);
    forall t | t in w'.gate.inflight ensures FlightOk(evs, w', t) {
      if t in w.gate.inflight && w.gate.inflight[t] == w'.gate.inflight[t] {
        assert FlightOk(evs[..|evs| - 1], w, t);
        FlightKept(c, evs, w, t);
      } else {
        assert evs[|evs| - 1].Call? && w'.gate.inflight[t] == |w.queries|;
      }
    }
  }

  lemma FlightKept(c: Config, evs: seq<Event>, w: World, t: string)
    requires |evs| > 0 && t in w.gate.inflight && FlightOk(evs[..|evs| - 1], w, t)
    requires var w' := Step(c, w, evs, |evs| - 1);
             t in w'.gate.inflight && w'.gate.inflight[t] == w.gate.inflight[t]
    ensures FlightOk(evs, Step(c, w, evs, |evs| - 1), t)
  {
    assert evs[|evs| - 1] != Invalidate(t);
    QuietExtends(evs, w.queries[w.gate.inflight[t]].begun, t);
  }

  lemma EntriesKept(c: Config, evs: seq<Event>, w: World)
    requires |evs| > 0 && InflightOk(evs[..|evs| - 1], w) && EntriesOk(c, evs[..|evs| - 1], w)
    ensures EntriesOk(c, evs, Step(c, w, evs, |evs| - 1))
  {
    var w' := Step(c, w, evs, |evs| - 1);
    forall t | t in w'.gate.entries ensures EntryOk(c, evs, w', t) {
      if t in w.gate.entries { assert EntryOk(c, evs[..|evs| - 1], w, t); }
      if t in w.gate.inflight { assert FlightOk(evs[..|evs| - 1], w, t); }
      EntryKept(c, evs, w, t);
    }
  }

  lemma EntryKept(c: Config, evs: seq<Event>, w: World, t: string)
    requires |evs| > 0 && t in Step(c, w, evs, |evs| - 1).gate.entries
    requires t in w.gate.entries ==> EntryOk(c, evs[..|evs| - 1], w, t)
    requires t in w.gate.inflight ==> FlightOk(evs[..|evs| - 1], w, t)
    ensures EntryOk(c, evs, Step(c, w, evs, |evs| - 1), t)
  {
    var i := |evs| - 1;
    var w' := Step(c, w, evs, i);
    if evs[i].Resolve? && w' != w && StillInFlight(w.gate, t, evs[i].read) && w.queries[evs[i].read].tenant == t {
      QuietExtends(evs, w.queries[evs[i].read].begun, t);
    } else {
      EntryCarried(c, evs, w, t);
    }
  }

  lemma EntryCarried(c: Config, evs: seq<Event>, w: World, t: string)
    requires |evs| > 0 && t in Step(c, w, evs, |evs| - 1).gate.entries
             && (t in w.gate.entries ==> EntryOk(c, evs[..|evs| - 1], w, t))
    requires var e := evs[|evs| - 1];
             e.Resolve? && Step(c, w, evs, |evs| - 1) != w ==>
               !(StillInFlight(w.gate, t, e.read) && w.queries[e.read].tenant == t)
    ensures EntryOk(c, evs, Step(c, w, evs, |evs| - 1), t)
  {
    var i := |evs| - 1;
    var w' := Step(c, w, evs, i);
    assert t in w.gate.entries && w.gate.entries[t] == w'.gate.entries[t] && w.origin[t] == w'.origin[t]
      && evs[i] != Invalidate(t);
    QuietExtends(evs, w.queries[w.origin[t]].begun, t);
    ReadCarried(c, evs, w, w.origin[t]);
  }

  /** A resolved read keeps its value and its times. */
  lemma ReadCarried(c: Config, evs: seq<Event>, w: World, r: nat)
    requires |evs| > 0 && r < |w.queries| && (w.queries[r].phase == Fulfilled || w.queries[r].phase == Closed)
    ensures var w' := Step(c, w, evs, |evs| - 1);
            && r < |w'.queries| && w'.queries[r] in [w.queries[r], w.queries[r].(phase := Closed)]
  {
  }

  lemma PairsKept(c: Config, evs: seq<Event>, w: World)
    requires |evs| > 0 && ReadsOk(evs[..|evs| - 1], w) && InflightOk(evs[..|evs| - 1], w)
             && PairsOk(evs[..|evs| - 1], w)
    ensures PairsOk(evs, Step(c, w, evs, |evs| - 1))
  {
    var p, i := evs[..|evs| - 1], |evs| - 1;
    var w' := Step(c, w, evs, i);
    forall r1, r2 | 0 <= r1 < r2 < |w'.queries| && w'.queries[r1].tenant == w'.queries[r2].tenant
                    && w'.queries[r1].phase != Closed
      ensures InvalidatedBetween(evs, w'.queries[r1].begun, w'.queries[r2].begun, w'.queries[r1].tenant)
    {
      var q1, q2 := w.queries[r1], w'.queries[r2];
      assert q1.begun == w'.queries[r1].begun && q1.tenant == w'.queries[r1].tenant && q1.phase != Closed;
      if r2 < |w.queries| {
        assert InvalidatedBetween(p, q1.begun, w.queries[r2].begun, q1.tenant);
        var k :| q1.begun < k < w.queries[r2].begun && k < |p| && p[k] == Invalidate(q1.tenant);
        assert evs[k] == Invalidate(q1.tenant);
      } else {
        // A second read starts only while nothing is in flight, so the first was cut off.
        assert QueryOk(p, w, r1) && q1.tenant !in w.gate.inflight;
        assert !QuietSince(p, q1.begun, q1.tenant);
        var k :| q1.begun < k < |p| && p[k] == Invalidate(q1.tenant);
        assert evs[k] == Invalidate(q1.tenant) && q2.begun == i;
      }
    }
  }

  lemma CallsKept(c: Config, evs: seq<Event>, w: World)
    requires |evs| > 0 && Inv(c, evs[..|evs| - 1], w)
    ensures var w' := Step(c, w, evs, |evs| - 1);
            forall j | j in w'.calls :: CallOk(c, evs, w', j, w'.calls[j])
  {
    var i := |evs| - 1;
    var w' := Step(c, w, evs, i);
    forall j | j in w'.calls ensures CallOk(c, evs, w', j, w'.calls[j]) {
      if j == i && evs[i].Call? {
        NewCall(c, evs, w);
      } else {
        assert j in w.calls && w.calls[j] == w'.calls[j];
        OldCall(c, evs, w, j);
      }
    }
  }

  lemma NewCall(c: Config, evs: seq<Event>, w: World)
    requires |evs| > 0 && evs[|evs| - 1].Call?
    requires var p := evs[..|evs| - 1]; ReadsOk(p, w) && InflightOk(p, w) && EntriesOk(c, p, w)
    ensures var w' := Step(c, w, evs, |evs| - 1);
            |evs| - 1 in w'.calls ==> CallOk(c, evs, w', |evs| - 1, w'.calls[|evs| - 1])
  {
    var p, i := evs[..|evs| - 1], |evs| - 1;
    var t, w' := evs[i].tenant, Step(c, w, evs, i);
    if i in w'.calls && !w'.calls[i].Platform? {
      var r := w'.calls[i].read;
      if t in w.gate.entries && w.gate.entries[t].expiresAt > evs[i].now { assert EntryOk(c, p, w, t); }
      if r < |w.queries| {
        if t in w.gate.inflight { assert FlightOk(p, w, t); }
        assert QueryOk(p, w, r) && QuietSince(p, w.queries[r].begun, t);
        forall k | 0 <= k < i && evs[k] == Invalidate(t) ensures k < w.queries[r].begun {
          assert p[k] == evs[k];
          assert evs[w.queries[r].begun].Call?;
        }
      }
    }
  }

  lemma OldCall(c: Config, evs: seq<Event>, w: World, j: nat)
    requires |evs| > 0 && j in w.calls
    requires CallOk(c, evs[..|evs| - 1], w, j, w.calls[j])
    ensures CallOk(c, evs, Step(c, w, evs, |evs| - 1), j, w.calls[j])
  {
    var p := evs[..|evs| - 1];
    var s, w' := w.calls[j], Step(c, w, evs, |evs| - 1);
    if !s.Platform? {
      forall k | 0 <= k < j && evs[k] == Invalidate(evs[j].tenant) ensures k < w.queries[s.read].begun {
        assert p[k] == evs[k];
      }
      assert w'.queries[s.read].begun == w.queries[s.read].begun;
    }
  }

  // ---------------------------------------------------------------------------
  // What the gate promises
  // ---------------------------------------------------------------------------

  /** The read a call's value comes from, and the value once that read has one. */
  function CallValue(w: World, j: nat): Option<TenantAvailability>
    requires j in w.calls && !w.calls[j].Platform? && w.calls[j].read < |w.queries|
  {
    w.queries[w.calls[j].read].value
  }

  /**
   * A call made after `invalidate(t)` is never served by a read that was started before it, and
   * what it returns is a status the source of truth held after the invalidation.
   */
  lemma NoStaleAnswerAfterInvalidate(c: Config, evs: seq<Event>, i: nat, j: nat)
    requires i < j < |evs| && j in Run(c, evs).calls && !Run(c, evs).calls[j].Platform?
    requires evs[j].Call? && evs[i] == Invalidate(evs[j].tenant)
    ensures var w := Run(c, evs);
            && w.calls[j].read < |w.queries| && i < w.queries[w.calls[j].read].begun
            && (CallValue(w, j).Some? ==>
                  exists s :: i < s < |evs| && CallValue(w, j) == Some(TruthAt(evs, s, evs[j].tenant)))
  {
    Invariant(c, evs);
    var w := Run(c, evs);
    assert CallOk(c, evs, w, j, w.calls[j]);
    var rd := w.queries[w.calls[j].read];
    assert QueryOk(evs, w, w.calls[j].read);
    if rd.value.Some? {
      assert i < rd.sampledAt < |evs| && rd.value == Some(TruthAt(evs, rd.sampledAt, evs[j].tenant));
    }
  }

  lemma {:induction false} TruthStable(evs: seq<Event>, a: nat, b: nat, t: string)
    requires a <= b <= |evs|
    requires forall k | a <= k < b :: !(evs[k].ChangeStatus? && evs[k].tenant == t)
    ensures TruthAt(evs, a, t) == TruthAt(evs, b, t)
  {
    if a < b { TruthStable(evs, a, b - 1, t); }
  }

  /**
   * A lifecycle change followed by `invalidate` takes effect at once: until the next change, every
   * later call on this instance that gets a value gets the new status, whatever was in flight.
   */
  lemma ChangeVisibleAfterInvalidate(c: Config, evs: seq<Event>, i: nat, j: nat)
    requires i < j < |evs| && j in Run(c, evs).calls && !Run(c, evs).calls[j].Platform?
    requires evs[j].Call? && evs[i] == Invalidate(evs[j].tenant)
    requires forall k | i < k < |evs| :: !(evs[k].ChangeStatus? && evs[k].tenant == evs[j].tenant)
    ensures var w := Run(c, evs);
            && w.calls[j].read < |w.queries|
            && (CallValue(w, j).Some? ==> CallValue(w, j) == Some(TruthAt(evs, i, evs[j].tenant)))
  {
    NoStaleAnswerAfterInvalidate(c, evs, i, j);
    var w := Run(c, evs);
    if CallValue(w, j).Some? {
      var s :| i < s < |evs| && CallValue(w, j) == Some(TruthAt(evs, s, evs[j].tenant));
      TruthStable(evs, i, s, evs[j].tenant);
    }
  }

  /** Two reads of one tenant are unsettled together only if an invalidation separates their starts. */
  lemma SingleFlight(c: Config, evs: seq<Event>, r1: nat, r2: nat)
    requires var w := Run(c, evs);
             && r1 < r2 < |w.queries| && w.queries[r1].tenant == w.queries[r2].tenant
             && w.queries[r1].phase != Closed && w.queries[r2].phase != Closed
    ensures var w := Run(c, evs);
            InvalidatedBetween(evs, w.queries[r1].begun, w.queries[r2].begun, w.queries[r1].tenant)
  {
    Invariant(c, evs);
  }

  /** A rejected read leaves no cached answer: every cached answer is the value of a fulfilled read. */
  lemma OnlyFulfilledReadsAreCached(c: Config, evs: seq<Event>, t: string)
    requires t in Run(c, evs).gate.entries
    ensures var w := Run(c, evs);
            exists r :: 0 <= r < |w.queries| && w.queries[r].tenant == t
                        && w.queries[r].value == Some(w.gate.entries[t].value)
                        && (w.queries[r].phase == Fulfilled || w.queries[r].phase == Closed)
                        && w.gate.entries[t].expiresAt == w.queries[r].resolvedAt + c.ttlMs
  {
    Invariant(c, evs);
    assert EntryOk(c, evs, Run(c, evs), t);
  }

  /**
   * A cache hit returns the status the source held when its read sampled it, and that read resolved less than `ttlMs`
   * before the hit.
   */
  lemma HitIsYoungerThanTtl(c: Config, evs: seq<Event>, j: nat)
    requires j in Run(c, evs).calls && Run(c, evs).calls[j].Hit?
    ensures var w := Run(c, evs);
            && j < |evs| && evs[j].Call? && w.calls[j].read < |w.queries|
            && var rd := w.queries[w.calls[j].read];
            && rd.begun < rd.sampledAt < |evs| && evs[rd.sampledAt].Sample? && ResolvedOk(evs, rd)
            && w.calls[j].value == TruthAt(evs, rd.sampledAt, evs[j].tenant)
            && evs[j].now - rd.resolvedAt < c.ttlMs
  {
    Invariant(c, evs);
    var w := Run(c, evs);
    assert CallOk(c, evs, w, j, w.calls[j]) && QueryOk(evs, w, w.calls[j].read);
  }

  // Clock readings. `Reject`, `Settle` and `Invalidate` carry none.

  predicate IsTimed(e: Event) { e.Call? || e.Sample? || e.Resolve? || e.ChangeStatus? }

  function TimeOf(e: Event): int
    requires IsTimed(e)
  {
    if e.Call? then e.now else if e.Sample? then e.now else if e.Resolve? then e.now else e.now
  }

  /** The clock does not go back. */
  ghost predicate Monotone(evs: seq<Event>) {
    forall i, j | 0 <= i < j < |evs| && IsTimed(evs[i]) && IsTimed(evs[j]) :: TimeOf(evs[i]) <= TimeOf(evs[j])
  }

  /** Every read that resolved did so at most `delay` after the source of truth evaluated it. */
  ghost predicate Prompt(evs: seq<Event>, w: World, delay: int) {
    forall r | 0 <= r < |w.queries| && ResolvedOk(evs, w.queries[r]) ::
      w.queries[r].resolvedAt - TimeOf(evs[w.queries[r].sampledAt]) <= delay
  }

  predicate ResolvedOk(evs: seq<Event>, rd: Read) {
    rd.value.Some? && (rd.phase == Fulfilled || rd.phase == Closed) && rd.sampledAt < |evs| && evs[rd.sampledAt].Sample?
  }

  /** The status the source of truth held at some moment at or after `since`, by its own clock. */
  ghost predicate HeldSince(evs: seq<Event>, t: string, v: TenantAvailability, since: int) {
    exists k | 0 <= k < |evs| :: evs[k].Sample? && TimeOf(evs[k]) >= since && v == TruthAt(evs, k, t)
  }

  /**
   * How old a cached answer is: if reads resolve within `delay` of being evaluated, a hit returns a status
   * that was held less than `ttlMs + delay` before the hit.
   */
  lemma HitIsYoung(c: Config, evs: seq<Event>, j: nat, delay: int)
    requires j in Run(c, evs).calls && Run(c, evs).calls[j].Hit? && Prompt(evs, Run(c, evs), delay)
    ensures j < |evs| && evs[j].Call?
    ensures HeldSince(evs, evs[j].tenant, Run(c, evs).calls[j].value, evs[j].now - c.ttlMs - delay + 1)
  {
    HitIsYoungerThanTtl(c, evs, j);
    var w := Run(c, evs);
    var rd := w.queries[w.calls[j].read];
    assert evs[rd.sampledAt].Sample? && w.calls[j].value == TruthAt(evs, rd.sampledAt, evs[j].tenant);
  }

  /**
   * The same for a call that waits for a read: what it is handed when the read resolves was held at most `delay`
   * before.
   */
  lemma JoinedIsYoung(c: Config, evs: seq<Event>, j: nat, delay: int)
    requires j in Run(c, evs).calls && Run(c, evs).calls[j].Joined? && Prompt(evs, Run(c, evs), delay)
    requires var w := Run(c, evs); w.calls[j].read < |w.queries| && ResolvedOk(evs, w.queries[w.calls[j].read])
    ensures j < |evs| && evs[j].Call?
    ensures var rd := Run(c, evs).queries[Run(c, evs).calls[j].read];
            HeldSince(evs, evs[j].tenant, rd.value.value, rd.resolvedAt - delay)
  {
    Invariant(c, evs);
    var w := Run(c, evs);
    assert CallOk(c, evs, w, j, w.calls[j]) && QueryOk(evs, w, w.calls[j].read);
    var rd := w.queries[w.calls[j].read];
    assert rd.value.value == TruthAt(evs, rd.sampledAt, evs[j].tenant);
  }

  /** The last change of the tenant's status in the run is the one at `m`. */
  ghost predicate LastChange(evs: seq<Event>, m: nat, t: string) {
    && m < |evs| && evs[m].ChangeStatus? && evs[m].tenant == t
    && forall k | m < k < |evs| :: !(evs[k].ChangeStatus? && evs[k].tenant == t)
  }

  lemma HeldSinceChange(evs: seq<Event>, m: nat, t: string, v: TenantAvailability, since: int)
    requires Monotone(evs) && LastChange(evs, m, t) && HeldSince(evs, t, v, since) && evs[m].now < since
    ensures v == evs[m].status
  {
    var k :| 0 <= k < |evs| && evs[k].Sample? && TimeOf(evs[k]) >= since && v == TruthAt(evs, k, t);
    assert IsTimed(evs[m]) && IsTimed(evs[k]) && TimeOf(evs[m]) == evs[m].now;
    assert k > m;
    TruthStable(evs, m + 1, k, t);
  }

  /**
   * A change made anywhere is seen everywhere in time: once it is `ttlMs + delay` old, every hit returns it, and
   * once it is more than `delay` old when a read resolves, so does every call that waited for that read.
   * With `delay` 0 the first bound is the documented `ttlMs`.
   */
  lemma ChangeIsSeenInTime(c: Config, evs: seq<Event>, m: nat, j: nat, delay: int)
    requires Monotone(evs) && j in Run(c, evs).calls && !Run(c, evs).calls[j].Platform?
             && Prompt(evs, Run(c, evs), delay)
    requires j < |evs| && evs[j].Call? && LastChange(evs, m, evs[j].tenant)
    ensures var s := Run(c, evs).calls[j];
            s.Hit? && evs[j].now - evs[m].now >= c.ttlMs + delay ==> s.value == evs[m].status
    ensures var w := Run(c, evs);
            var s := w.calls[j];
            s.Joined? && s.read < |w.queries| && ResolvedOk(evs, w.queries[s.read])
              && w.queries[s.read].resolvedAt - evs[m].now > delay ==>
              w.queries[s.read].value == Some(evs[m].status)
  {
    var w := Run(c, evs);
    var s := w.calls[j];
    if s.Hit? {
      HitIsYoung(c, evs, j, delay);
      if evs[j].now - evs[m].now >= c.ttlMs + delay {
        HeldSinceChange(evs, m, evs[j].tenant, s.value, evs[j].now - c.ttlMs - delay + 1);
      }
    } else if s.read < |w.queries| && ResolvedOk(evs, w.queries[s.read]) {
      var rd := w.queries[s.read];
      JoinedIsYoung(c, evs, j, delay);
      if rd.resolvedAt - evs[m].now > delay {
        HeldSinceChange(evs, m, evs[j].tenant, rd.value.value, rd.resolvedAt - delay);
      }
    }
  }

  /**
   * A read of the status at time 0, just before it changes, that resolves `delay` later; and a call at the very end
   * of its lifetime.
   */
  function LateRead(ttl: int, delay: int): seq<Event> {
    [Call("t", 0), Sample(0, 0), ChangeStatus("t", Suspended, 0), Resolve(0, delay), Settle(0),
      Call("t", delay + ttl - 1)]
  }

  /**
   * The bound is exact for every lifetime and every delay: a change `ttlMs + delay - 1` old can go unseen. So
   * `ttlMs` alone bounds how long a change goes unseen if and only if reads resolve at the moment of their evaluation.
   */
  lemma UnseenLongerThanTtl(ttl: int, delay: int)
    requires ttl >= 1 && delay >= 0
    ensures var c, evs := Config("", ttl), LateRead(ttl, delay);
            && Monotone(evs) && Prompt(evs, Run(c, evs), delay) && LastChange(evs, 2, "t")
            && 5 in Run(c, evs).calls && Run(c, evs).calls[5] == Hit(0, Unknown) && evs[2].status == Suspended
            && evs[5].now - evs[2].now == ttl + delay - 1
  {
    var c, evs := Config("", ttl), LateRead(ttl, delay);
    assert evs[..1][..0] == [] && evs[..2][..1] == evs[..1] && evs[..3][..2] == evs[..2];
    assert Run(c, evs[..1]).queries == [Read("t", 0, Loading, None, 0, 0)];
    assert TruthAt(evs[..2], 1, "t") == Unknown;
    assert Run(c, evs[..2])
      == World(GateState(map[], map["t" := 0]), [Read("t", 0, Sampled, Some(Unknown), 1, 0)], map[],
        map[0 := Joined(0)]);
    assert Run(c, evs[..3]) == Run(c, evs[..2]);
    UnseenTail(c, evs, delay);
  }

  /** In every run whose reads resolve within `delay`, a hit shows a change that is `ttlMs` old. */
  ghost predicate TtlSuffices(c: Config, delay: int) {
    forall evs: seq<Event>, m: nat, j: nat | OldChangeHit(c, evs, m, j, delay) :: Shows(c, evs, m, j)
  }

  ghost predicate OldChangeHit(c: Config, evs: seq<Event>, m: nat, j: nat, delay: int) {
    && Monotone(evs) && j in Run(c, evs).calls && Run(c, evs).calls[j].Hit? && Prompt(evs, Run(c, evs), delay)
    && j < |evs| && evs[j].Call? && LastChange(evs, m, evs[j].tenant) && evs[j].now - evs[m].now >= c.ttlMs
  }

  ghost predicate Shows(c: Config, evs: seq<Event>, m: nat, j: nat) {
    && j in Run(c, evs).calls && Run(c, evs).calls[j].Hit? && m < |evs| && evs[m].ChangeStatus?
    && Run(c, evs).calls[j].value == evs[m].status
  }

  /** The documented bound holds exactly when reads resolve without delay. */
  lemma TtlSufficesIff(ttl: int, delay: int)
    requires ttl >= 1 && delay >= 0
    ensures TtlSuffices(Config("", ttl), delay) <==> delay == 0
  {
    var c := Config("", ttl);
    if delay == 0 {
      forall evs: seq<Event>, m: nat, j: nat | OldChangeHit(c, evs, m, j, delay) ensures Shows(c, evs, m, j) {
        ChangeIsSeenInTime(c, evs, m, j, 0);
      }
    } else {
      UnseenLongerThanTtl(ttl, delay);
      assert OldChangeHit(c, LateRead(ttl, delay), 2, 5, delay) && !Shows(c, LateRead(ttl, delay), 2, 5);
    }
  }

  lemma UnseenTail(c: Config, evs: seq<Event>, delay: int)
    requires c.platformTenantId == "" && c.ttlMs >= 1 && |evs| == 6
    requires evs[3] == Resolve(0, delay) && evs[4] == Settle(0) && evs[5] == Call("t", delay + c.ttlMs - 1)
    requires Run(c, evs[..3])
             == World(GateState(map[], map["t" := 0]), [Read("t", 0, Sampled, Some(Unknown), 1, 0)], map[],
               map[0 := Joined(0)])
    ensures 5 in Run(c, evs).calls && Run(c, evs).calls[5] == Hit(0, Unknown)
    ensures Run(c, evs).queries == [Read("t", 0, Closed, Some(Unknown), 1, delay)]
  {
    assert evs[..4][..3] == evs[..3] && evs[..5][..4] == evs[..4];
    assert Run(c, evs[..4]).gate.entries == map["t" := Entry(Unknown, delay + c.ttlMs)]
      && Run(c, evs[..4]).origin == map["t" := 0];
    assert Run(c, evs[..5]).gate.entries == Run(c, evs[..4]).gate.entries && Run(c, evs[..5]).origin == map["t" := 0];
  }
}
