/**
 * One pass of the watchdog over the status reports of all connectors, as steps of the machine and as what it
 * does to the reports: which tasks it restarts, and what it remembers.
 */
module WatchdogPass {
  import opened Common
  import opened Text
  import opened Watchdog

  /** What the Connect API answers to a restart call. */
  datatype RestartReply = Acknowledged | Declined | Errored

  /** A task in a status report, with the clock at the moment it is examined and the reply a restart would get. */
  datatype Task = Task(id: nat, state: string, at: int, reply: RestartReply)

  datatype StatusReply = Unavailable | Status(tasks: seq<Task>)

  datatype Connector = Connector(name: string, reply: StatusReply)

  // ---------------------------------------------------------------------------
  // One pass
  // ---------------------------------------------------------------------------

  /** An examination with nothing in between. */
  function EventsOf(pass: nat, connector: string, t: Task): seq<Event> {
    [Look(pass, Key(connector, t.id), t.state == "FAILED", t.at),
      Reply(pass, Key(connector, t.id), t.reply == Acknowledged)]
  }

  function TasksEvents(pass: nat, connector: string, tasks: seq<Task>): seq<Event> {
    if tasks == [] then []
    else TasksEvents(pass, connector, tasks[..|tasks| - 1]) + EventsOf(pass, connector, tasks[|tasks| - 1])
  }

  /** The steps of a whole pass; a connector whose status cannot be read contributes none. */
  function PassEvents(pass: nat, connectors: seq<Connector>): seq<Event> {
    if connectors == [] then []
    else
      var last := connectors[|connectors| - 1];
      PassEvents(pass, connectors[..|connectors| - 1])
      + (if last.reply.Unavailable? then [] else TasksEvents(pass, last.name, last.reply.tasks))
  }

  // ---------------------------------------------------------------------------
  // What a pass does to a status report
  // ---------------------------------------------------------------------------

  /** The status of some connector could be read and lists this task. */
  predicate Lists(connectors: seq<Connector>, i: nat, j: nat) {
    i < |connectors| && connectors[i].reply.Status? && j < |connectors[i].reply.tasks|
  }

  function TaskAt(connectors: seq<Connector>, i: nat, j: nat): Task
    requires Lists(connectors, i, j)
  {
    connectors[i].reply.tasks[j]
  }

  /** The restart call for a listed task: connector, slash and number, at the moment it is examined. */
  function CallFor(connectors: seq<Connector>, i: nat, j: nat): (string, int)
    requires Lists(connectors, i, j)
  {
    (connectors[i].name + "/" + Decimal(TaskAt(connectors, i, j).id), TaskAt(connectors, i, j).at)
  }

  /** Its state is FAILED. */
  predicate FailedAt(connectors: seq<Connector>, i: nat, j: nat) {
    Lists(connectors, i, j) && TaskAt(connectors, i, j).state == "FAILED"
  }

  /** It is FAILED, and memory holds fewer restarts of it in the window than the cap. */
  predicate DueAt(c: Config, r: map<string, seq<int>>, connectors: seq<Connector>, i: nat, j: nat) {
    FailedAt(connectors, i, j)
    && var (key, at) := CallFor(connectors, i, j); |Recent(History(r, key), at - c.restartWindowMs)| < c.maxRestarts
  }

  /** No task is listed twice. */
  ghost predicate NoTaskTwice(connectors: seq<Connector>) {
    forall i, j, k, l | Lists(connectors, i, j) && Lists(connectors, k, l)
      && CallFor(connectors, i, j).0 == CallFor(connectors, k, l).0 :: i == k && j == l
  }

  /** Restart calls are added only for tasks that some readable status lists as FAILED. */
  ghost predicate OnlyForFailed(connectors: seq<Connector>, s: State, s': State) {
    && s.calls <= s'.calls && s'.open == s.open
    && forall n | |s.calls| <= n < |s'.calls| :: CallsForFailed(connectors, s'.calls[n])
  }

  ghost predicate CallsForFailed(connectors: seq<Connector>, call: (string, int)) {
    exists i: nat, j: nat :: FailedAt(connectors, i, j) && CallFor(connectors, i, j) == call
  }

  /**
   * The calls added are those of the tasks that are due, each once; the log gains those acknowledged, and memory
   * them.
   */
  ghost predicate ExactlyTheDue(c: Config, connectors: seq<Connector>, s: State, s': State) {
    && s.calls <= s'.calls && s.log <= s'.log
    && (forall i: nat, j: nat | Lists(connectors, i, j) ::
          (CallFor(connectors, i, j) in s'.calls[|s.calls|..] <==> DueAt(c, s.restarts, connectors, i, j))
          && (CallFor(connectors, i, j) in s'.log[|s.log|..] <==>
                DueAt(c, s.restarts, connectors, i, j) && TaskAt(connectors, i, j).reply == Acknowledged))
    && (forall call | call in s'.log[|s.log|..] :: call in s'.calls[|s.calls|..])
    && (forall m, n | |s.calls| <= m < n < |s'.calls| :: s'.calls[m].0 != s'.calls[n].0)
    && (forall m, n | |s.log| <= m < n < |s'.log| :: s'.log[m].0 != s'.log[n].0)
  }

  /** One examination, with nothing in between. */
  lemma ExaminationMeans(c: Config, s: State, pass: nat, connector: string, t: Task)
    requires s.open == map[]
    ensures var key := connector + "/" + Decimal(t.id);
            var h := Recent(History(s.restarts, key), t.at - c.restartWindowMs);
            Watch(c, s, EventsOf(pass, connector, t)) ==
              if t.state != "FAILED" then s
              else if |h| >= c.maxRestarts then s.(restarts := s.restarts[key := h])
              else if t.reply == Acknowledged then
                State(s.restarts[key := h + [t.at]], map[], s.calls + [(key, t.at)], s.log + [(key, t.at)])
              else s.(calls := s.calls + [(key, t.at)])
  {
    var events, key := EventsOf(pass, connector, t), connector + "/" + Decimal(t.id);
    WatchPair(c, s, events[0], events[1]);
    assert events == [events[0], events[1]];
    var h := Recent(History(s.restarts, key), t.at - c.restartWindowMs);
    var k := (pass, key);
    assert s.open[k := Exam(t.at, h)] - {k} == map[];
  }

  /** The listed tasks of a pass in order, with their connectors. */
  function Listed(connectors: seq<Connector>): seq<(string, Task)> {
    if connectors == [] then []
    else
      var last := connectors[|connectors| - 1];
      Listed(connectors[..|connectors| - 1])
        + (if last.reply.Unavailable? then [] else With(last.name, last.reply.tasks))
  }

  function With(name: string, tasks: seq<Task>): seq<(string, Task)> {
    seq(|tasks|, j requires 0 <= j < |tasks| => (name, tasks[j]))
  }

  function ListedEvents(pass: nat, xs: seq<(string, Task)>): seq<Event> {
    if xs == [] then [] else ListedEvents(pass, xs[..|xs| - 1]) + EventsOf(pass, xs[|xs| - 1].0, xs[|xs| - 1].1)
  }

  lemma {:induction false} ListedAppend(pass: nat, xs: seq<(string, Task)>, name: string, tasks: seq<Task>)
    ensures ListedEvents(pass, xs + With(name, tasks)) == ListedEvents(pass, xs) + TasksEvents(pass, name, tasks)
  {
    if tasks == [] {
      assert xs + With(name, tasks) == xs;
    } else {
      var n := |tasks| - 1;
      ListedAppend(pass, xs, name, tasks[..n]);
      var all := xs + With(name, tasks);
      assert all[..|all| - 1] == xs + With(name, tasks[..n]) && all[|all| - 1] == (name, tasks[n]);
    }
  }

  lemma {:induction false} PassIsListed(pass: nat, connectors: seq<Connector>)
    ensures PassEvents(pass, connectors) == ListedEvents(pass, Listed(connectors))
  {
    if connectors != [] {
      var n := |connectors| - 1;
      PassIsListed(pass, connectors[..n]);
      if connectors[n].reply.Status? {
        ListedAppend(pass, Listed(connectors[..n]), connectors[n].name, connectors[n].reply.tasks);
      } else {
        assert Listed(connectors) == Listed(connectors[..n]);
      }
    }
  }

  /** The place of a listed task in the list. */
  function Place(connectors: seq<Connector>, i: nat, j: nat): (n: nat)
    requires Lists(connectors, i, j)
    ensures n < |Listed(connectors)| && Listed(connectors)[n] == (connectors[i].name, TaskAt(connectors, i, j))
  {
    var last := |connectors| - 1;
    if i == last then |Listed(connectors[..last])| + j
    else assert Lists(connectors[..last], i, j); Place(connectors[..last], i, j)
  }

  lemma {:induction false} PlacedAt(connectors: seq<Connector>, n: nat) returns (i: nat, j: nat)
    requires n < |Listed(connectors)|
    ensures Lists(connectors, i, j) && Place(connectors, i, j) == n
  {
    var last := |connectors| - 1;
    var before := Listed(connectors[..last]);
    if n < |before| {
      i, j := PlacedAt(connectors[..last], n);
    } else {
      i, j := last, n - |before|;
    }
  }

  function CallOf(x: (string, Task)): (string, int) { (x.0 + "/" + Decimal(x.1.id), x.1.at) }

  predicate Due(c: Config, r: map<string, seq<int>>, x: (string, Task)) {
    x.1.state == "FAILED" && |Recent(History(r, CallOf(x).0), x.1.at - c.restartWindowMs)| < c.maxRestarts
  }

  /** The calls of the due tasks of a list, and those of them that are acknowledged. */
  function DueCalls(c: Config, r: map<string, seq<int>>, xs: seq<(string, Task)>, acked: bool): seq<(string, int)> {
    if xs == [] then []
    else
      var x := xs[|xs| - 1];
      DueCalls(c, r, xs[..|xs| - 1], acked)
        + (if Due(c, r, x) && (acked ==> x.1.reply == Acknowledged) then [CallOf(x)] else [])
  }

  ghost predicate NoRepeats(xs: seq<(string, Task)>) {
    forall m, n | 0 <= m < n < |xs| :: CallOf(xs[m]).0 != CallOf(xs[n]).0
  }

  /** After a list without repeats: its due tasks called and logged, the memory of all other tasks untouched. */
  ghost predicate Done(c: Config, s: State, s': State, xs: seq<(string, Task)>) {
    && s'.open == map[] && s'.calls == s.calls + DueCalls(c, s.restarts, xs, false)
    && s'.log == s.log + DueCalls(c, s.restarts, xs, true)
    && forall key: string :: Untouched(s, s', xs, key)
  }

  predicate Named(xs: seq<(string, Task)>, key: string) { exists m | 0 <= m < |xs| :: CallOf(xs[m]).0 == key }

  predicate Untouched(s: State, s': State, xs: seq<(string, Task)>, key: string) {
    Named(xs, key) || History(s'.restarts, key) == History(s.restarts, key)
  }

  lemma OneMore(c: Config, s: State, before: State, after: State, pass: nat, xs: seq<(string, Task)>, x: (string, Task))
    requires Done(c, s, before, xs) && !Named(xs, CallOf(x).0)
    requires after == Watch(c, before, EventsOf(pass, x.0, x.1))
    ensures Done(c, s, after, xs + [x])
  {
    var all := xs + [x];
    ExaminationMeans(c, before, pass, x.0, x.1);
    assert Untouched(s, before, xs, CallOf(x).0);
    assert all[..|all| - 1] == xs && all[|xs|] == x;
    assert Due(c, before.restarts, x) <==> Due(c, s.restarts, x);
    forall key: string ensures Untouched(s, after, all, key) {
      assert Untouched(s, before, xs, key);
      if Named(xs, key) {
        var m :| 0 <= m < |xs| && CallOf(xs[m]).0 == key;
        assert CallOf(all[m]).0 == key;
      } else if key == CallOf(x).0 {
        assert CallOf(all[|xs|]).0 == key;
      }
    }
  }

  lemma {:induction false} ListMeans(c: Config, s: State, pass: nat, xs: seq<(string, Task)>)
    requires s.open == map[] && NoRepeats(xs)
    ensures Done(c, s, Watch(c, s, ListedEvents(pass, xs)), xs)
  {
    if xs != [] {
      var n := |xs| - 1;
      var x, earlier := xs[n], ListedEvents(pass, xs[..n]);
      ListMeans(c, s, pass, xs[..n]);
      WatchAppend(c, s, earlier, EventsOf(pass, x.0, x.1));
      OneMore(c, s, Watch(c, s, earlier), Watch(c, s, ListedEvents(pass, xs)), pass, xs[..n], x);
      assert xs[..n] + [x] == xs;
    }
  }

  predicate ForFailed(xs: seq<(string, Task)>, call: (string, int)) {
    exists m | 0 <= m < |xs| :: xs[m].1.state == "FAILED" && CallOf(xs[m]) == call
  }

  ghost predicate AllForFailed(s: State, s': State, xs: seq<(string, Task)>) {
    s'.open == map[] && s.calls <= s'.calls && forall n | |s.calls| <= n < |s'.calls| :: ForFailed(xs, s'.calls[n])
  }

  lemma OneMoreFailed(c: Config, s: State, before: State, after: State, pass: nat, xs: seq<(string, Task)>,
      x: (string, Task))
    requires AllForFailed(s, before, xs) && after == Watch(c, before, EventsOf(pass, x.0, x.1))
    ensures AllForFailed(s, after, xs + [x])
  {
    var all := xs + [x];
    ExaminationMeans(c, before, pass, x.0, x.1);
    forall n | |s.calls| <= n < |after.calls| ensures ForFailed(all, after.calls[n]) {
      if n < |before.calls| {
        assert after.calls[n] == before.calls[n] && ForFailed(xs, before.calls[n]);
        var m :| 0 <= m < |xs| && xs[m].1.state == "FAILED" && CallOf(xs[m]) == before.calls[n];
        assert all[m] == xs[m];
      } else {
        assert all[|xs|] == x;
      }
    }
  }

  lemma {:induction false} ListOnlyFailed(c: Config, s: State, pass: nat, xs: seq<(string, Task)>)
    requires s.open == map[]
    ensures AllForFailed(s, Watch(c, s, ListedEvents(pass, xs)), xs)
  {
    if xs != [] {
      var n := |xs| - 1;
      var x, earlier := xs[n], ListedEvents(pass, xs[..n]);
      ListOnlyFailed(c, s, pass, xs[..n]);
      WatchAppend(c, s, earlier, EventsOf(pass, x.0, x.1));
      OneMoreFailed(c, s, Watch(c, s, earlier), Watch(c, s, ListedEvents(pass, xs)), pass, xs[..n], x);
      assert xs[..n] + [x] == xs;
    }
  }

  lemma {:induction false} DueMembers(c: Config, r: map<string, seq<int>>, xs: seq<(string, Task)>, acked: bool)
    requires NoRepeats(xs)
    ensures var calls := DueCalls(c, r, xs, acked);
            && (forall m | 0 <= m < |xs| :: CallOf(xs[m]) in calls <==>
                 Due(c, r, xs[m]) && (acked ==> xs[m].1.reply == Acknowledged))
            && (forall call | call in calls :: exists m :: 0 <= m < |xs| && CallOf(xs[m]) == call)
            && (forall m, n | 0 <= m < n < |calls| :: calls[m].0 != calls[n].0)
  {
    if xs != [] {
      var n := |xs| - 1;
      DueMembers(c, r, xs[..n], acked);
      var earlier := DueCalls(c, r, xs[..n], acked);
      assert forall m | 0 <= m < n :: xs[..n][m] == xs[m];
      forall call | call in earlier ensures call.0 != CallOf(xs[n]).0 {
        var m :| 0 <= m < n && CallOf(xs[..n][m]) == call;
        assert CallOf(xs[m]).0 != CallOf(xs[n]).0;
      }
      forall call | call in DueCalls(c, r, xs, acked) ensures exists m :: 0 <= m < |xs| && CallOf(xs[m]) == call {
        if call in earlier {
          var m :| 0 <= m < n && CallOf(xs[..n][m]) == call;
          assert CallOf(xs[m]) == call;
        } else {
          assert CallOf(xs[n]) == call;
        }
      }
    }
  }

  /** What a pass that runs alone does, in terms of the statuses it is given. */
  lemma PassMeans(c: Config, s: State, pass: nat, connectors: seq<Connector>)
    requires s.open == map[]
    ensures OnlyForFailed(connectors, s, Watch(c, s, PassEvents(pass, connectors)))
    ensures NoTaskTwice(connectors) ==> ExactlyTheDue(c, connectors, s, Watch(c, s, PassEvents(pass, connectors)))
  {
    PassIsListed(pass, connectors);
    ListOnlyFailed(c, s, pass, Listed(connectors));
    FailedAreListed(connectors, s, Watch(c, s, PassEvents(pass, connectors)));
    if NoTaskTwice(connectors) {
      ListIsApart(connectors);
      ListMeans(c, s, pass, Listed(connectors));
      DoneIsExact(c, s, Watch(c, s, PassEvents(pass, connectors)), connectors);
    }
  }

  lemma FailedAreListed(connectors: seq<Connector>, s: State, s': State)
    requires s.open == map[] && AllForFailed(s, s', Listed(connectors))
    ensures OnlyForFailed(connectors, s, s')
  {
    var xs := Listed(connectors);
    forall n | |s.calls| <= n < |s'.calls| ensures CallsForFailed(connectors, s'.calls[n]) {
      assert ForFailed(xs, s'.calls[n]);
      var m :| 0 <= m < |xs| && xs[m].1.state == "FAILED" && CallOf(xs[m]) == s'.calls[n];
      var i, j := PlacedAt(connectors, m);
      assert FailedAt(connectors, i, j) && CallFor(connectors, i, j) == s'.calls[n];
    }
  }

  lemma ListIsApart(connectors: seq<Connector>)
    requires NoTaskTwice(connectors)
    ensures NoRepeats(Listed(connectors))
  {
    var xs := Listed(connectors);
    forall m, n | 0 <= m < n < |xs| ensures CallOf(xs[m]).0 != CallOf(xs[n]).0 {
      var i, j := PlacedAt(connectors, m);
      var k, l := PlacedAt(connectors, n);
      assert CallFor(connectors, i, j).0 == CallOf(xs[m]).0 && CallFor(connectors, k, l).0 == CallOf(xs[n]).0;
    }
  }

  lemma DueOnes(c: Config, r: map<string, seq<int>>, connectors: seq<Connector>, i: nat, j: nat)
    requires NoRepeats(Listed(connectors)) && Lists(connectors, i, j)
    ensures CallFor(connectors, i, j) in DueCalls(c, r, Listed(connectors), false) <==> DueAt(c, r, connectors, i, j)
    ensures CallFor(connectors, i, j) in DueCalls(c, r, Listed(connectors), true) <==>
              DueAt(c, r, connectors, i, j) && TaskAt(connectors, i, j).reply == Acknowledged
  {
    var xs, n := Listed(connectors), Place(connectors, i, j);
    DueMembers(c, r, xs, false);
    DueMembers(c, r, xs, true);
    assert CallOf(xs[n]) == CallFor(connectors, i, j) && (Due(c, r, xs[n]) <==> DueAt(c, r, connectors, i, j));
  }

  lemma DoneIsExact(c: Config, s: State, s': State, connectors: seq<Connector>)
    requires NoRepeats(Listed(connectors)) && Done(c, s, s', Listed(connectors))
    ensures ExactlyTheDue(c, connectors, s, s')
  {
    var xs := Listed(connectors);
    DueMembers(c, s.restarts, xs, false);
    DueMembers(c, s.restarts, xs, true);
    var calls, log := DueCalls(c, s.restarts, xs, false), DueCalls(c, s.restarts, xs, true);
    assert s'.calls[|s.calls|..] == calls && s'.log[|s.log|..] == log;
    forall i: nat, j: nat | Lists(connectors, i, j)
      ensures CallFor(connectors, i, j) in calls <==> DueAt(c, s.restarts, connectors, i, j)
      ensures CallFor(connectors, i, j) in log <==>
                DueAt(c, s.restarts, connectors, i, j) && TaskAt(connectors, i, j).reply == Acknowledged
    {
      DueOnes(c, s.restarts, connectors, i, j);
    }
    forall call | call in log ensures call in calls {
      var m :| 0 <= m < |xs| && CallOf(xs[m]) == call;
      assert CallOf(xs[m]) in log;
    }
    forall m, n | |s.calls| <= m < n < |s'.calls| ensures s'.calls[m].0 != s'.calls[n].0 {
      assert s'.calls[m] == calls[m - |s.calls|] && s'.calls[n] == calls[n - |s.calls|];
    }
    forall m, n | |s.log| <= m < n < |s'.log| ensures s'.log[m].0 != s'.log[n].0 {
      assert s'.log[m] == log[m - |s.log|] && s'.log[n] == log[n - |s.log|];
    }
  }

  // ---------------------------------------------------------------------------
  // The class
  // ---------------------------------------------------------------------------

  class CdcWatchdog {
    const config: Config
    var restarts: map<string, seq<int>>
    var calls: seq<(string, int)>
    var log: seq<(string, int)>

    constructor (config: Config)
      ensures this.config == config && Value() == Start
    {
      this.config, restarts, calls, log := config, map[], [], [];
    }

    /** The state between examinations of a pass that runs alone. */
    function Value(): State
      reads this
    {
      State(restarts, map[], calls, log)
    }

    /** Up to the restart call. */
    method Begin(key: string, failed: bool, at: int) returns (exam: Option<Exam>)
      modifies this`restarts
      ensures (restarts, exam) == Begun(config, old(restarts), key, failed, at)
    {
      if !failed {
        return None;
      }
      var history := FilterRecent(if key in restarts then restarts[key] else [], at - config.restartWindowMs);
      if |history| >= config.maxRestarts {
        restarts := restarts[key := history];
        return None;
      }
      return Some(Exam(at, history));
    }

    /** From the answer to the restart call on. */
    method Finish(key: string, exam: Exam, reply: RestartReply)
      modifies this`restarts
      ensures restarts == Finished(old(restarts), key, exam, reply == Acknowledged)
    {
      if reply == Acknowledged {
        restarts := restarts[key := exam.history + [exam.at]];
      }
    }

    /** The body of the inner loop. */
    method Examine(pass: nat, connector: string, task: Task)
      modifies this
      ensures Value() == Watch(config, old(Value()), EventsOf(pass, connector, task))
    {
      ghost var s, events := Value(), EventsOf(pass, connector, task);
      WatchPair(config, s, events[0], events[1]);
      assert events == [events[0], events[1]];
      var key := Key(connector, task.id);
      var exam := Begin(key, task.state == "FAILED", task.at);
      if exam.Some? {
        calls := calls + [(key, task.at)];
        Finish(key, exam.value, task.reply);
        if task.reply == Acknowledged {
          log := log + [(key, task.at)];
        }
        assert s.open[(pass, key) := exam.value] - {(pass, key)} == map[];
      }
    }

    method ExamineAll(pass: nat, connector: string, tasks: seq<Task>)
      modifies this
      ensures Value() == Watch(config, old(Value()), TasksEvents(pass, connector, tasks))
    {
      ghost var s := Value();
      for j := 0 to |tasks|
        invariant Value() == Watch(config, s, TasksEvents(pass, connector, tasks[..j]))
      {
        assert tasks[..j + 1][..j] == tasks[..j];
        Examine(pass, connector, tasks[j]);
        WatchAppend(config, s, TasksEvents(pass, connector, tasks[..j]), EventsOf(pass, connector, tasks[j]));
      }
      assert tasks[..|tasks|] == tasks;
    }

    /** One pass over all connectors, with no other pass in between. */
    method RunPass(pass: nat, connectors: seq<Connector>)
      modifies this
      ensures Value() == Watch(config, old(Value()), PassEvents(pass, connectors))
      ensures OnlyForFailed(connectors, old(Value()), Value())
      ensures NoTaskTwice(connectors) ==> ExactlyTheDue(config, connectors, old(Value()), Value())
    {
      ghost var s := Value();
      PassMeans(config, s, pass, connectors);
      for i := 0 to |connectors|
        invariant Value() == Watch(config, s, PassEvents(pass, connectors[..i]))
      {
        var connector := connectors[i];
        assert connectors[..i + 1][..i] == connectors[..i];
        if connector.reply.Unavailable? {
          assert PassEvents(pass, connectors[..i + 1]) == PassEvents(pass, connectors[..i]);
        } else {
          ExamineAll(pass, connector.name, connector.reply.tasks);
          WatchAppend(config, s, PassEvents(pass, connectors[..i]),
            TasksEvents(pass, connector.name, connector.reply.tasks));
        }
      }
      assert connectors[..|connectors|] == connectors;
    }
  }

  method FilterRecent(h: seq<int>, bound: int) returns (r: seq<int>)
    ensures r == Recent(h, bound)
  {
    r := [];
    for i := 0 to |h|
      invariant r == Recent(h[..i], bound)
    {
      assert h[..i + 1][..i] == h[..i];
      if h[i] > bound { r := r + [h[i]]; }
    }
    assert h[..|h|] == h;
  }
}
