/**
 * The CDC watchdog: polls every connector's tasks and restarts a FAILED one, at most `maxRestarts`
 * times in a rolling window per connector and task.
 *
 * An examination is split where it waits: it reads and prunes the task's history, issues the restart call,
 * and stores the history it read, with itself added, only when the call is acknowledged. Passes may overlap.
 */
module Watchdog {
  import opened Common
  import opened Text

  datatype Config = Config(maxRestarts: int, restartWindowMs: int)

  function Key(connector: string, task: nat): string {
    connector + "/" + Decimal(task)
  }

  /** Keys of different tasks differ: a decimal id holds no slash, so the last slash separates. */
  lemma KeysAreDistinct(c1: string, t1: nat, c2: string, t2: nat)
    requires Key(c1, t1) == Key(c2, t2)
    ensures c1 == c2 && t1 == t2
  {
    assert '/' !in Decimal(t1) && '/' !in Decimal(t2);
    LastSeparatorIsUnique(c1, Decimal(t1), c2, Decimal(t2), '/');
    DecimalRoundTrip(t1);
    DecimalRoundTrip(t2);
  }

  function History(r: map<string, seq<int>>, key: string): seq<int> {
    if key in r then r[key] else []
  }

  /** The restarts later than `bound`, in order. */
  function Recent(h: seq<int>, bound: int): seq<int> {
    if h == [] then []
    else Recent(h[..|h| - 1], bound) + (if h[|h| - 1] > bound then [h[|h| - 1]] else [])
  }

  // ---------------------------------------------------------------------------
  // Steps
  // ---------------------------------------------------------------------------

  /** An examination whose restart call is under way: when it read the history, and what it read. */
  datatype Exam = Exam(at: int, history: seq<int>)

  /**
   * `restarts` is the watchdog's memory and `open` its calls under way, by pass and task; `calls` lists the
   * restart calls issued, `log` the acknowledged ones.
   */
  datatype State = State(
    restarts: map<string, seq<int>>, open: map<(nat, string), Exam>, calls: seq<(string, int)>, log: seq<(string, int)>)

  const Start: State := State(map[], map[], [], [])

  datatype Event =
    | Look(pass: nat, key: string, failed: bool, at: int)
    | Reply(pass: nat, key: string, acked: bool)

  /** The first half: the new memory, and the examination if a restart is called for. */
  function Begun(c: Config, r: map<string, seq<int>>, key: string, failed: bool, at: int): (map<string, seq<int>>,
      Option<Exam>) {
    var h := Recent(History(r, key), at - c.restartWindowMs);
    if !failed then (r, None)
    else if |h| >= c.maxRestarts then (r[key := h], None)
    else (r, Some(Exam(at, h)))
  }

  /** The second half: only an acknowledged restart is remembered. */
  function Finished(r: map<string, seq<int>>, key: string, e: Exam, acked: bool): map<string, seq<int>> {
    if acked then r[key := e.history + [e.at]] else r
  }

  /** One step; a pass that waits for a reply looks at nothing else, and a reply nobody waits for changes nothing. */
  function Step(c: Config, s: State, e: Event): State {
    var k := (e.pass, e.key);
    match e
    case Look(p, key, failed, at) =>
      if k in s.open then s
      else
        var (r, exam) := Begun(c, s.restarts, key, failed, at);
        if exam.None? then s.(restarts := r) else State(r, s.open[k := exam.value], s.calls + [(key, at)], s.log)
    case Reply(p, key, acked) =>
      if k !in s.open then s
      else State(Finished(s.restarts, key, s.open[k], acked), s.open - {k}, s.calls,
          if acked then s.log + [(key, s.open[k].at)] else s.log)
  }

  function Watch(c: Config, s: State, evs: seq<Event>): State {
    if evs == [] then s else Step(c, Watch(c, s, evs[..|evs| - 1]), evs[|evs| - 1])
  }

  lemma {:induction false} WatchAppend(c: Config, s: State, a: seq<Event>, b: seq<Event>)
    ensures Watch(c, Watch(c, s, a), b) == Watch(c, s, a + b)
  {
    if b == [] {
      assert a + b == a;
    } else {
      WatchAppend(c, s, a, b[..|b| - 1]);
      assert (a + b)[..|a + b| - 1] == a + b[..|b| - 1];
    }
  }

  lemma WatchPair(c: Config, s: State, a: Event, b: Event)
    ensures Watch(c, s, [a, b]) == Step(c, Step(c, s, a), b)
  {
    assert [a, b][..1] == [a] && [a][..0] == [];
    assert Watch(c, s, [a]) == Step(c, s, a);
  }

  // ---------------------------------------------------------------------------
  // Runs: any number of passes, overlapping or not
  // ---------------------------------------------------------------------------

  /** The times of the acknowledged restarts of one task. */
  function Acked(log: seq<(string, int)>, key: string): seq<int> {
    if log == [] then []
    else
      var last := log[|log| - 1];
      Acked(log[..|log| - 1], key) + (if last.0 == key then [last.1] else [])
  }

  /** The clock does not go back. */
  ghost predicate Monotone(evs: seq<Event>) {
    forall i, j | 0 <= i < j < |evs| && evs[i].Look? && evs[j].Look? :: evs[i].at <= evs[j].at
  }

  /** Some pass waits for an answer about this task. */
  predicate Busy(s: State, key: string) { exists p | p in s.open :: p.1 == key }

  /** No pass looks at the task, FAILED, while another pass waits for an answer about it. */
  ghost predicate Apart(c: Config, evs: seq<Event>, key: string) {
    forall i | 0 <= i < |evs| && evs[i].Look? && evs[i].key == key && evs[i].failed ::
      !Busy(Watch(c, Start, evs[..i]), key)
  }

  lemma {:induction false} RecentAppend(h: seq<int>, t: int, bound: int)
    ensures Recent(h + [t], bound) == Recent(h, bound) + (if t > bound then [t] else [])
  {
    assert (h + [t])[..|h|] == h;
  }

  lemma {:induction false} RecentTwice(h: seq<int>, a: int, b: int)
    requires a <= b
    ensures Recent(Recent(h, a), b) == Recent(h, b)
  {
    if h != [] {
      RecentTwice(h[..|h| - 1], a, b);
      var last := h[|h| - 1];
      if last > a {
        RecentAppend(Recent(h[..|h| - 1], a), last, b);
      } else {
        assert Recent(h, a) == Recent(h[..|h| - 1], a);
      }
    }
  }

  lemma AckedAppend(log: seq<(string, int)>, e: (string, int), key: string)
    ensures Acked(log + [e], key) == if e.0 == key then Acked(log, key) + [e.1] else Acked(log, key)
  {
    assert (log + [e])[..|log|] == log;
  }

  /** From `bound` on, the two histories are the same. */
  ghost predicate Alike(h: seq<int>, log: seq<int>, bound: int) { forall b | b >= bound :: SameFrom(h, log, b) }

  predicate SameFrom(h: seq<int>, log: seq<int>, b: int) { Recent(h, b) == Recent(log, b) }

  lemma AlikePruned(h: seq<int>, log: seq<int>, at: int)
    requires Alike(h, log, at)
    ensures Alike(Recent(h, at), log, at)
  {
    forall b | b >= at ensures SameFrom(Recent(h, at), log, b) {
      assert SameFrom(h, log, b);
      RecentTwice(h, at, b);
    }
  }

  lemma AlikeAppend(h: seq<int>, log: seq<int>, bound: int, t: int)
    requires Alike(h, log, bound)
    ensures Alike(h + [t], log + [t], bound)
  {
    forall b | b >= bound ensures SameFrom(h + [t], log + [t], b) {
      assert SameFrom(h, log, b);
      RecentAppend(h, t, b);
      RecentAppend(log, t, b);
    }
  }

  /** A call under way for this task has read everything that counts, found it below the cap, and is the only one. */
  ghost predicate ExamOk(c: Config, s: State, key: string, clock: int, p: nat) {
    (p, key) in s.open ==>
      var e := s.open[(p, key)];
      && e.at <= clock && |e.history| < c.maxRestarts
      && e.history == Recent(Acked(s.log, key), e.at - c.restartWindowMs)
      && Alike(e.history, Acked(s.log, key), e.at - c.restartWindowMs)
      && (forall q | (q, key) in s.open :: q == p)
  }

  /** Memory and log agree on all that the cap still looks at. */
  ghost predicate Faithful(c: Config, s: State, key: string, clock: int) {
    Alike(History(s.restarts, key), Acked(s.log, key), clock - c.restartWindowMs) && forall p: nat ::
      ExamOk(c, s, key, clock, p)
  }

  /** What two states know of one task. */
  ghost predicate SameTask(s: State, t: State, key: string) {
    && History(s.restarts, key) == History(t.restarts, key) && Acked(s.log, key) == Acked(t.log, key)
    && forall p: nat ::
    ((p, key) in s.open <==> (p, key) in t.open)
    && ((p, key) in s.open ==> s.open[(p, key)] == t.open[(p, key)])
  }

  lemma OtherStep(c: Config, s: State, e: Event, key: string)
    requires e.key != key
    ensures SameTask(Step(c, s, e), s, key)
  {
    var k := (e.pass, e.key);
    if e.Reply? && k in s.open { AckedAppend(s.log, (e.key, s.open[k].at), key); }
  }

  lemma FaithfulSame(c: Config, s: State, t: State, key: string, clock: int)
    requires Faithful(c, t, key, clock) && SameTask(s, t, key)
    ensures Faithful(c, s, key, clock)
  {
    forall p: nat ensures ExamOk(c, s, key, clock, p) { assert ExamOk(c, t, key, clock, p); }
  }

  lemma Later(c: Config, s: State, key: string, a: int, b: int)
    requires Faithful(c, s, key, a) && a <= b
    ensures Faithful(c, s, key, b)
  {
    forall p: nat ensures ExamOk(c, s, key, b, p) { assert ExamOk(c, s, key, a, p); }
  }

  lemma LookKept(c: Config, s: State, e: Event, key: string, clock: int)
    requires e.Look? && Faithful(c, s, key, clock) && clock <= e.at && (e.key == key && e.failed ==> !Busy(s, key))
    ensures Faithful(c, Step(c, s, e), key, e.at)
  {
    Later(c, s, key, clock, e.at);
    if e.key != key {
      OtherStep(c, s, e, key);
      FaithfulSame(c, Step(c, s, e), s, key, e.at);
    } else if e.failed {
      OwnLookKept(c, s, e);
    }
  }

  lemma OwnLookKept(c: Config, s: State, e: Event)
    requires e.Look? && Faithful(c, s, e.key, e.at) && e.failed && !Busy(s, e.key)
    ensures Faithful(c, Step(c, s, e), e.key, e.at)
  {
    var bound := e.at - c.restartWindowMs;
    var log := Acked(s.log, e.key);
    var h := Recent(History(s.restarts, e.key), bound);
    AlikePruned(History(s.restarts, e.key), log, bound);
    assert SameFrom(History(s.restarts, e.key), log, bound);
    NotBusy(s, e.key);
    LookOutcome(c, s, e, h);
    if |h| < c.maxRestarts { OpenedIsOk(c, s, Step(c, s, e), e, h); }
  }

  lemma NotBusy(s: State, key: string)
    requires !Busy(s, key)
    ensures forall p: nat :: (p, key) !in s.open
  {
    forall p: nat ensures (p, key) !in s.open {
      var k := (p, key);
      assert k in s.open ==> k.1 == key;
    }
  }

  /** What a look at a FAILED task does, by the number of restarts it still remembers. */
  lemma LookOutcome(c: Config, s: State, e: Event, h: seq<int>)
    requires e.Look? && e.failed && (e.pass, e.key) !in s.open
             && h == Recent(History(s.restarts, e.key), e.at - c.restartWindowMs)
    ensures Step(c, s, e) ==
      if |h| >= c.maxRestarts then s.(restarts := s.restarts[e.key := h])
      else s.(open := s.open[(e.pass, e.key) := Exam(e.at, h)], calls := s.calls + [(e.key, e.at)])
  {
  }

  lemma OpenedIsOk(c: Config, s: State, s': State, e: Event, h: seq<int>)
    requires e.Look? && Faithful(c, s, e.key, e.at) && forall p: nat :: (p, e.key) !in s.open
    requires |h| < c.maxRestarts && h == Recent(Acked(s.log, e.key), e.at - c.restartWindowMs)
    requires Alike(h, Acked(s.log, e.key), e.at - c.restartWindowMs)
    requires s' == s.(open := s.open[(e.pass, e.key) := Exam(e.at, h)], calls := s.calls + [(e.key, e.at)])
    ensures Faithful(c, s', e.key, e.at)
  {
  }

  lemma ReplyKept(c: Config, s: State, e: Event, key: string, clock: int)
    requires e.Reply? && Faithful(c, s, key, clock)
    ensures Faithful(c, Step(c, s, e), key, clock)
  {
    if e.key != key {
      OtherStep(c, s, e, key);
      FaithfulSame(c, Step(c, s, e), s, key, clock);
    } else if (e.pass, key) in s.open {
      var exam, log := s.open[(e.pass, key)], Acked(s.log, key);
      assert ExamOk(c, s, key, clock, e.pass);
      AckedAppend(s.log, (key, exam.at), key);
      AlikeAppend(exam.history, log, exam.at - c.restartWindowMs, exam.at);
      ReplyOutcome(c, s, e, exam);
      assert forall q: nat :: (q, key) !in Step(c, s, e).open;
    }
  }

  /** An acknowledged restart replaces the memory by what its examination had read, and itself. */
  lemma ReplyOutcome(c: Config, s: State, e: Event, exam: Exam)
    requires e.Reply? && (e.pass, e.key) in s.open && s.open[(e.pass, e.key)] == exam
    ensures Step(c, s, e).open == s.open - {(e.pass, e.key)} && Step(c, s, e).calls == s.calls
    ensures e.acked ==>
            Step(c, s, e).log == s.log + [(e.key, exam.at)]
            && History(Step(c, s, e).restarts, e.key) == exam.history + [exam.at]
    ensures !e.acked ==> Step(c, s, e).log == s.log && Step(c, s, e).restarts == s.restarts
  {
  }

  lemma ApartPrefix(c: Config, evs: seq<Event>, key: string)
    requires evs != [] && Monotone(evs) && Apart(c, evs, key)
    ensures var n := |evs| - 1; Monotone(evs[..n]) && Apart(c, evs[..n], key)
    ensures var e := evs[|evs| - 1];
            e.Look? && e.key == key && e.failed ==> !Busy(Watch(c, Start, evs[..|evs| - 1]), key)
  {
    var n := |evs| - 1;
    forall i | 0 <= i < n && evs[..n][i].Look? && evs[..n][i].key == key && evs[..n][i].failed
      ensures !Busy(Watch(c, Start, evs[..n][..i]), key) {
      assert evs[..n][..i] == evs[..i];
    }
  }

  /** A clock reading no later than any look that comes after the run. */
  ghost predicate Reached(evs: seq<Event>, clock: int) {
    forall i | 0 <= i < |evs| && evs[i].Look? :: evs[i].at <= clock
  }

  /**
   * The pruned memory loses nothing the cap still looks at, as long as the examinations of the task do not
   * overlap: from here on it filters like the full log, and so does what a call under way has read.
   */
  lemma {:induction false} MemoryIsFaithful(c: Config, evs: seq<Event>, key: string, clock: int)
    requires Monotone(evs) && Apart(c, evs, key) && Reached(evs, clock)
    ensures Faithful(c, Watch(c, Start, evs), key, clock)
    decreases |evs|
  {
    if evs != [] {
      var n := |evs| - 1;
      ApartPrefix(c, evs, key);
      assert forall i | 0 <= i < n :: evs[..n][i] == evs[i];
      var e, s := evs[n], Watch(c, Start, evs[..n]);
      if e.Look? {
        MemoryIsFaithful(c, evs[..n], key, e.at);
        LookKept(c, s, e, key, e.at);
        Later(c, Step(c, s, e), key, e.at, clock);
      } else {
        MemoryIsFaithful(c, evs[..n], key, clock);
        ReplyKept(c, s, e, key, clock);
      }
    }
  }

  /** Whether a look makes the watchdog issue a restart call. */
  predicate Restarts(c: Config, s: State, e: Event)
    requires e.Look?
  {
    (e.pass, e.key) !in s.open && Begun(c, s.restarts, e.key, e.failed, e.at).1.Some?
  }

  /**
   * The cap is exact: after any run whose clock does not go back and whose examinations of the task do not
   * overlap, a look issues a restart call if and only if the task is FAILED and fewer than `maxRestarts` of its
   * restarts were acknowledged in the window ending now.
   */
  lemma CapIsExact(c: Config, evs: seq<Event>, e: Event)
    requires e.Look? && Monotone(evs + [e]) && Apart(c, evs + [e], e.key)
             && (e.pass, e.key) !in Watch(c, Start, evs).open
    ensures var s := Watch(c, Start, evs);
            Restarts(c, s, e) <==> e.failed && |Recent(Acked(s.log, e.key), e.at - c.restartWindowMs)| < c.maxRestarts
  {
    ApartPrefix(c, evs + [e], e.key);
    assert (evs + [e])[..|evs|] == evs;
    forall i | 0 <= i < |evs| && evs[i].Look? ensures evs[i].at <= e.at {
      assert evs[i] == (evs + [e])[i] && (evs + [e])[|evs|] == e;
    }
    MemoryIsFaithful(c, evs, e.key, e.at);
    CapHere(c, Watch(c, Start, evs), e);
  }

  lemma CapHere(c: Config, s: State, e: Event)
    requires e.Look? && (e.pass, e.key) !in s.open && Faithful(c, s, e.key, e.at)
    ensures Restarts(c, s, e) <==> e.failed && |Recent(Acked(s.log, e.key), e.at - c.restartWindowMs)| < c.maxRestarts
  {
    var bound := e.at - c.restartWindowMs;
    assert SameFrom(History(s.restarts, e.key), Acked(s.log, e.key), bound);
  }

  /** A look at a task that is not FAILED changes nothing at all. */
  lemma OthersAreLeftAlone(c: Config, s: State, e: Event)
    requires e.Look? && !e.failed
    ensures Step(c, s, e) == s
  {
  }

  predicate LookedAt(evs: seq<Event>, call: (string, int)) {
    exists i | 0 <= i < |evs| :: evs[i].Look? && evs[i].failed && (evs[i].key, evs[i].at) == call
  }

  /**
   * Only FAILED tasks are restarted, overlapping or not: every restart call issued, acknowledged or not, goes to
   * a task seen FAILED at that moment, and every acknowledged restart is one of the calls.
   */
  lemma {:induction false} OnlyFailedTasksAreRestarted(c: Config, evs: seq<Event>)
    ensures var s := Watch(c, Start, evs);
            && (forall call | call in s.calls :: LookedAt(evs, call))
            && (forall entry | entry in s.log :: entry in s.calls)
            && (forall k | k in s.open :: (k.1, s.open[k].at) in s.calls)
  {
    if evs != [] {
      var n := |evs| - 1;
      OnlyFailedTasksAreRestarted(c, evs[..n]);
      var was, s := Watch(c, Start, evs[..n]), Watch(c, Start, evs);
      forall call | call in s.calls ensures LookedAt(evs, call) {
        if call in was.calls {
          var i :| 0 <= i < n && evs[..n][i].Look? && evs[..n][i].failed && (evs[..n][i].key, evs[..n][i].at) == call;
          assert evs[i] == evs[..n][i];
        } else {
          assert evs[n].Look? && evs[n].failed && (evs[n].key, evs[n].at) == call;
        }
      }
    }
  }

  // ---------------------------------------------------------------------------
  // Tasks
  // ---------------------------------------------------------------------------

  function Only(evs: seq<Event>, key: string): seq<Event> {
    if evs == [] then []
    else
      var last := evs[|evs| - 1];
      Only(evs[..|evs| - 1], key) + (if last.key == key then [last] else [])
  }

  /**
   * One task's restarts depend on that task alone: dropping every other task changes neither its log, nor its memory,
   * nor its open calls.
   */
  lemma {:induction false} TasksAreIndependent(c: Config, evs: seq<Event>, key: string)
    ensures SameTask(Watch(c, Start, evs), Watch(c, Start, Only(evs, key)), key)
  {
    if evs != [] {
      var p, e := evs[..|evs| - 1], evs[|evs| - 1];
      TasksAreIndependent(c, p, key);
      var own := Only(p, key);
      if e.key == key {
        assert Only(evs, key) == own + [e] && (own + [e])[..|own|] == own;
        SameStep(c, Watch(c, Start, p), Watch(c, Start, own), e);
      } else {
        assert Only(evs, key) == own;
        OtherStep(c, Watch(c, Start, p), e, key);
      }
    }
  }

  lemma SameStep(c: Config, s: State, t: State, e: Event)
    requires SameTask(s, t, e.key)
    ensures SameTask(Step(c, s, e), Step(c, t, e), e.key)
  {
    var k := (e.pass, e.key);
    assert k in s.open <==> k in t.open;
    if e.Reply? && k in s.open {
      AckedAppend(s.log, (e.key, s.open[k].at), e.key);
      AckedAppend(t.log, (e.key, t.open[k].at), e.key);
    }
  }
}
