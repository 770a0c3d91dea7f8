/**
 * `KafkaConsumerRuntime` itself: one call at a time, method by method. `AloneIsHandled` ties it to the
 * state machine: what a call does is what the machine's steps do when nothing else runs in between.
 */
module KafkaConsumer {
  import opened Common
  import opened RetryHeaders
  import opened Redelivery
  import opened KafkaRuntime

  /** How each call to another system ends during one delivery. */
  datatype Faults = Faults(inbox: Reply, handle: Reply, record: Reply, commit: Reply, publish: Reply, row: Reply,
    ack: Reply, now: nat)

  function Failed(w: World, i: nat): World { w.(failed := w.failed + {i}) }

  /** `effect`: the new state, and whether it returned. */
  function Effected(c: Runtime, w: World, i: nat, id: string, f: Faults): (World, bool) {
    if !f.handle.Done? then (Failed(w, i), false)
    else if !c.atomic then
      var w1 := w.(handled := Bump(w.handled, id),
        markers := if f.record.Refused? then w.markers else w.markers + {id});
      if f.record.Done? then (w1, true) else (Failed(w1, i), false)
    else if !f.record.Done? then (Failed(w, i), false)
    else if id in w.markers then (w, true)
    else
      var w1 := if f.commit.Refused? then w else w.(effects := Bump(w.effects, id), markers := w.markers + {id});
      if f.commit.Done? then (w1, true) else (Failed(w1, i), false)
  }

  /** `scheduleRetryOrDeadLetter`: the new state, and whether it returned. */
  function Scheduled(c: Runtime, w: World, i: nat, f: Faults): (World, bool)
    requires i < |w.slots|
  {
    var v := Failure(c, w.slots[i].content, f.now);
    if v.OutOfSchedule? then (w, false)
    else if v.Again? then
      (if f.publish.Refused? then w else w.(slots := w.slots + [Slot(Read(Wire(v.copy)), Some(i), false)]),
        f.publish.Done?)
    else if !f.publish.Done? then
      (if f.publish.Refused? then w else w.(dlq := w.dlq + [Filed(v.letter, i)]), false)
    else
      (w.(dlq := w.dlq + [Filed(v.letter, i)], rows := if f.row.Refused? then w.rows else w.rows
        + [Filed(v.letter, i)]), f.row.Done?)
  }

  /** `handleMessage`: the new state, and whether it returned, which acknowledges the record. */
  function Handled(c: Runtime, w: World, i: nat, f: Faults): (World, bool)
    requires i < |w.slots|
  {
    var id := IdOf(c, w.slots[i].content);
    if id.None? || !f.inbox.Done? then (w, false)
    else if id.value in w.markers then (w, true)
    else
      var (w1, ok) := Effected(c, w, i, id.value, f);
      if ok then (w1, true) else Scheduled(c, w1, i, f)
  }

  /** `deliver`: the same decode, pre-check and effect, and nothing after a failure. */
  function Delivered(c: Runtime, w: World, i: nat, m: Content, f: Faults): (World, bool) {
    var id := IdOf(c, m);
    if id.None? || !f.inbox.Done? then (w, false) else if id.value in w.markers then (w, true)
        else Effected(c, w, i, id.value, f)
  }

  /** All calls end well. */
  predicate AllDone(f: Faults) { f == Faults(Done, Done, Done, Done, Done, Done, Done, f.now) }

  /**
   * A message whose serializer id is not marked is handled when every call ends well: the effect, or the plain
   * handling, under that very id goes up by one and under no other, and the id is marked.
   */
  lemma NewMessageIsHandled(c: Runtime, w: World, i: nat, f: Faults, id: string)
    requires i < |w.slots| && Says(c, w.slots[i].content, Some(id)) && id !in w.markers && AllDone(f)
    ensures var (w', ok) := Handled(c, w, i, f);
            && ok && w' == w.(markers := w.markers + {id}, effects := w'.effects, handled := w'.handled)
            && (forall other: string ::
                  Count(w'.effects, other) == Count(w.effects, other) + if c.atomic && other == id then 1 else 0)
            && (forall other: string ::
                  Count(w'.handled, other) == Count(w.handled, other) + if !c.atomic && other == id then 1 else 0)
    ensures Delivered(c, w, i, w.slots[i].content, f) == Handled(c, w, i, f)
  {
    IdIsTheSerializers(c, w.slots[i].content, Some(id));
  }

  /**
   * A message whose serializer id is marked is acknowledged and changes nothing; one the serializer rejects is not
   * acknowledged.
   */
  lemma OthersAreNot(c: Runtime, w: World, i: nat, f: Faults, answer: Option<string>)
    requires i < |w.slots| && Says(c, w.slots[i].content, answer)
    ensures f.inbox.Done? && answer.Some? && answer.value in w.markers ==> Handled(c, w, i, f) == (w, true)
    ensures answer.None? ==> Handled(c, w, i, f) == (w, false)
    ensures answer.None? || (answer.value in w.markers && f.inbox.Done?) ==>
              Delivered(c, w, i, w.slots[i].content, f) == Handled(c, w, i, f)
  {
    IdIsTheSerializers(c, w.slots[i].content, answer);
  }

  /**
   * The longest wait the runtime's timer can hold; it ends a longer one, or one below a millisecond, after one
   * millisecond.
   */
  const TIMER_MAX: real := 2147483647.0

  function Slept(ms: real): real { if 1.0 <= ms <= TIMER_MAX then ms else 1.0 }

  class KafkaConsumerRuntime {
    const runtime: Runtime
    var slots: seq<Slot>
    var markers: set<string>
    var effects: map<string, nat>
    var handled: map<string, nat>
    var dlq: seq<Filed>
    var rows: seq<Filed>
    var failed: set<nat>

    constructor (runtime: Runtime)
      ensures this.runtime == runtime && State() == Start
    {
      this.runtime := runtime;
      slots, markers, effects, handled, dlq, rows, failed := [], {}, map[], map[], [], [], {};
    }

    function State(): World
      reads this
    {
      World(slots, map[], markers, effects, handled, dlq, rows, failed)
    }

    /**
     * Returns, or throws. A retry message is not handled before it is due, unless its due time is further away
     * than the timer can hold, when it is handled after a millisecond.
     */
    method HandleMessage(i: nat, payload: Payload, f: Faults, clock: real) returns (returned: bool, startedAt: real)
      requires i < |slots| && slots[i].content == Read(payload)
      modifies this
      ensures (State(), returned) == Handled(runtime, old(State()), i, f)
      ensures var retry := DecodeRetry(runtime.number, Bag(payload.headers));
              && clock <= startedAt && (retry.None? ==> startedAt == clock)
              && (retry.Some? ==> (retry.value.dueAtMs <= startedAt <==> retry.value.dueAtMs - clock <= TIMER_MAX))
              && (retry.Some? && startedAt < retry.value.dueAtMs ==> startedAt == clock + 1.0)
    {
      var headers := DecodeHeaderBag(payload.headers);
      var m := Content(if payload.key.Some? then payload.key.value else "",
        if payload.value.Some? then payload.value.value else [], headers);
      var retry := DecodeRetry(runtime.number, headers);
      startedAt := clock;
      if retry.Some? && retry.value.dueAtMs > clock {
        startedAt := clock + Slept(retry.value.dueAtMs - clock);
      }
      var id := IdOf(runtime, m);
      if id.None? || !f.inbox.Done? {
        return false, startedAt;
      }
      if id.value in markers {
        return true, startedAt;
      }
      returned := Effect(i, id.value, f);
      if !returned {
        returned := ScheduleRetryOrDeadLetter(i, m, f);
      }
    }

    method Effect(i: nat, id: string, f: Faults) returns (returned: bool)
      modifies this
      ensures slots == old(slots)
      ensures (State(), returned) == Effected(runtime, old(State()), i, id, f)
    {
      if !f.handle.Done? {
        returned := false;
      } else if runtime.atomic {
        returned := HandleAtomic(id, f);
      } else {
        handled := Bump(handled, id);
        if !f.record.Refused? {
          markers := markers + {id};
        }
        returned := f.record.Done?;
      }
      if !returned {
        failed := failed + {i};
      }
    }

    /** The transaction, after `handleAtomic` returned: a duplicate rolls back and counts as done. */
    method HandleAtomic(id: string, f: Faults) returns (returned: bool)
      modifies this`markers, this`effects
      ensures returned <==> f.record.Done? && (id in old(markers) || f.commit.Done?)
      ensures if f.record.Done? && id !in old(markers) && !f.commit.Refused?
              then markers == old(markers) + {id} && effects == Bump(old(effects), id)
              else markers == old(markers) && effects == old(effects)
    {
      if !f.record.Done? {
        return false;
      }
      if id in markers {
        return true;
      }
      if !f.commit.Refused? {
        effects, markers := Bump(effects, id), markers + {id};
      }
      return f.commit.Done?;
    }

    /** The dead-letter topic first, then the row. */
    method PublishDeadLetter(filed: Filed, f: Faults) returns (returned: bool)
      modifies this`dlq, this`rows
      ensures returned <==> f.publish.Done? && f.row.Done?
      ensures dlq == if f.publish.Refused? then old(dlq) else old(dlq) + [filed]
      ensures rows == if !f.publish.Done? || f.row.Refused? then old(rows) else old(rows) + [filed]
    {
      if !f.publish.Refused? {
        dlq := dlq + [filed];
      }
      if !f.publish.Done? {
        return false;
      }
      if !f.row.Refused? {
        rows := rows + [filed];
      }
      return f.row.Done?;
    }

    method ScheduleRetryOrDeadLetter(i: nat, m: Content, f: Faults) returns (returned: bool)
      requires i < |slots| && slots[i].content == m
      modifies this
      ensures (State(), returned) == Scheduled(runtime, old(State()), i, f)
    {
      var c := runtime.settings;
      var attempt := AttemptOf(runtime.number, m);
      if attempt + 1 > MaxAttempts(c) {
        returned := PublishDeadLetter(Filed(Letter(m, attempt), i), f);
        return;
      }
      var delay := DelayForAttempt(c, attempt + 1);
      if delay.Err? {
        return false;
      }
      var trace := TraceHeaders(m.headers);
      if !f.publish.Refused? {
        var copy := m.(headers := m.headers + trace + EncodeRetry(attempt + 1, f.now + delay.value, c.topic, c.group));
        assert Failure(runtime, m, f.now) == Again(copy);
        slots := slots + [Slot(Read(Wire(copy)), Some(i), false)];
      }
      return f.publish.Done?;
    }

    /** Broker-less delivery: the same decode, pre-check and effect, but a failure is thrown, never rescheduled. */
    method Deliver(i: nat, m: Content, f: Faults) returns (returned: bool)
      modifies this
      ensures slots == old(slots) && dlq == old(dlq) && rows == old(rows)
      ensures (State(), returned) == Delivered(runtime, old(State()), i, m, f)
      ensures returned ==> IdOf(runtime, m).Some? && IdOf(runtime, m).value in markers
      ensures var id := IdOf(runtime, m);
              !returned && id.Some? && id.value in markers && id.value !in old(markers) ==>
              f.record.Lost? || f.commit.Lost?
    {
      var id := IdOf(runtime, m);
      if id.None? || !f.inbox.Done? {
        return false;
      }
      if id.value in markers {
        return true;
      }
      returned := Effect(i, id.value, f);
    }
  }

  // ---------------------------------------------------------------------------
  // The machine, with one worker and nothing in between
  // ---------------------------------------------------------------------------

  function Answer(f: Faults, pc: Pc): Reply {
    match pc
    case Decoding => Done
    case Checking => f.inbox
    case Handling => f.handle
    case Marking => f.record
    case Recording => f.record
    case Committing => f.commit
    case Failing => f.publish
    case Filing => f.row
    case Acking => f.ack
  }

  function Rank(pc: Pc): nat {
    match pc
    case Decoding => 8
    case Checking => 7
    case Handling => 6
    case Marking => 5
    case Recording => 4
    case Committing => 3
    case Failing => 2
    case Filing => 1
    case Acking => 0
  }

  function At(w: World, x: nat, i: nat, pc: Pc): World { w.(workers := map[x := Work(i, pc)]) }

  /** Worker `x` takes step after step until it is gone or waits. */
  function Alone(c: Runtime, w: World, x: nat, f: Faults): World
    decreases if x in w.workers then Rank(w.workers[x].pc) + 1 else 0
  {
    if x !in w.workers then w
    else
      var w' := Step(c, w, Advance(x, Answer(f, w.workers[x].pc), f.now));
      if x in w'.workers && Rank(w'.workers[x].pc) >= Rank(w.workers[x].pc) then w' else Alone(c, w', x, f)
  }

  function Outcome(r: (World, bool), i: nat, f: Faults): World { if r.1 && !f.ack.Refused? then Acked(r.0, i) else r.0 }

  predicate Idle(c: Runtime, w: World, i: nat) {
    w.workers == map[] && i < |w.slots| && IdOf(c, w.slots[i].content).Some?
  }

  lemma Moves(w: World, x: nat, i: nat, pc: Pc, next: Pc)
    ensures Goto(At(w, x, i, pc), x, next) == At(w, x, i, next)
    ensures w.workers == map[] ==> Leave(At(w, x, i, pc), x) == w
  {
    assert map[x := Work(i, pc)][x := Work(i, next)] == map[x := Work(i, next)];
    assert map[x := Work(i, pc)] - {x} == map[];
  }

  /** The event with which `x` goes on. */
  function Onwards(x: nat, pc: Pc, f: Faults): Event { Advance(x, Answer(f, pc), f.now) }

  lemma AloneGoesOn(c: Runtime, w: World, x: nat, i: nat, pc: Pc, f: Faults, w': World, next: Pc)
    requires Step(c, At(w, x, i, pc), Onwards(x, pc, f)) == At(w', x, i, next) && Rank(next) < Rank(pc)
    ensures Alone(c, At(w, x, i, pc), x, f) == Alone(c, At(w', x, i, next), x, f)
  {
  }

  lemma AloneEnds(c: Runtime, w: World, x: nat, i: nat, pc: Pc, f: Faults, w': World)
    requires Step(c, At(w, x, i, pc), Onwards(x, pc, f)) == w' && w'.workers == map[]
    ensures Alone(c, At(w, x, i, pc), x, f) == w'
  {
  }

  lemma AloneAcking(c: Runtime, w: World, x: nat, i: nat, f: Faults)
    requires Idle(c, w, i)
    ensures Alone(c, At(w, x, i, Acking), x, f) == Outcome((w, true), i, f)
  {
    var w' := if f.ack.Refused? then w else Acked(w, i);
    Moves(w', x, i, Acking, Acking);
    AloneEnds(c, w, x, i, Acking, f, w');
  }

  lemma AloneFiling(c: Runtime, w: World, x: nat, i: nat, f: Faults)
    requires Idle(c, w, i)
    ensures var w' := if f.row.Refused? then w else w.(rows := w.rows + [Filed(LetterFor(c, w.slots[i].content), i)]);
            Alone(c, At(w, x, i, Filing), x, f) == Outcome((w', f.row.Done?), i, f)
  {
    var w' := if f.row.Refused? then w else w.(rows := w.rows + [Filed(LetterFor(c, w.slots[i].content), i)]);
    Moves(w', x, i, Filing, Acking);
    if f.row.Done? {
      AloneGoesOn(c, w, x, i, Filing, f, w', Acking);
      AloneAcking(c, w', x, i, f);
    } else {
      AloneEnds(c, w, x, i, Filing, f, w');
    }
  }

  lemma AloneFailing(c: Runtime, w: World, x: nat, i: nat, f: Faults)
    requires Idle(c, w, i)
    ensures Alone(c, At(w, x, i, Failing), x, f) == Outcome(Scheduled(c, w, i, f), i, f)
  {
    var v := Failure(c, w.slots[i].content, f.now);
    var w0 := At(w, x, i, Failing);
    GivesUpWhenSpent(c, w.slots[i].content, f.now);
    assert Step(c, w0, Onwards(x, Failing, f)) == AfterFailure(w0, x, i, v, f.publish);
    if v.OutOfSchedule? {
      Moves(w, x, i, Failing, Acking);
      AloneEnds(c, w, x, i, Failing, f, w);
    } else {
      AlonePublishing(c, w, x, i, v, f);
    }
  }

  lemma AlonePublishing(c: Runtime, w: World, x: nat, i: nat, v: Verdict, f: Faults)
    requires Idle(c, w, i) && !v.OutOfSchedule? && v == Failure(c, w.slots[i].content, f.now)
             && (v.GiveUp? ==> v.letter == LetterFor(c, w.slots[i].content))
    requires Step(c, At(w, x, i, Failing), Onwards(x, Failing, f))
             == AfterFailure(At(w, x, i, Failing), x, i, v, f.publish)
    ensures Alone(c, At(w, x, i, Failing), x, f) == Outcome(Scheduled(c, w, i, f), i, f)
  {
    var w1 :=
      if f.publish.Refused? then w
      else if v.Again? then w.(slots := w.slots + [Slot(Read(Wire(v.copy)), Some(i), false)])
      else w.(dlq := w.dlq + [Filed(v.letter, i)]);
    var next := if v.Again? then Acking else Filing;
    Moves(w1, x, i, Failing, next);
    if !f.publish.Done? {
      AloneEnds(c, w, x, i, Failing, f, w1);
    } else {
      AloneGoesOn(c, w, x, i, Failing, f, w1, next);
      if v.Again? { AloneAcking(c, w1, x, i, f); } else { AloneFiling(c, w1, x, i, f); }
    }
  }

  lemma AloneHandling(c: Runtime, w: World, x: nat, i: nat, f: Faults)
    requires Idle(c, w, i)
    ensures var (w1, ok) := Effected(c, w, i, IdOf(c, w.slots[i].content).value, f);
            Alone(c, At(w, x, i, Handling), x, f) == Alone(c, At(w1, x, i, if ok then Acking else Failing), x, f)
  {
    if !f.handle.Done? {
      Moves(Failed(w, i), x, i, Handling, Failing);
      AloneGoesOn(c, w, x, i, Handling, f, Failed(w, i), Failing);
    } else if c.atomic {
      Moves(w, x, i, Handling, Recording);
      AloneGoesOn(c, w, x, i, Handling, f, w, Recording);
      AloneRecording(c, w, x, i, f);
    } else {
      AlonePlain(c, w, x, i, f);
    }
  }

  lemma AlonePlain(c: Runtime, w: World, x: nat, i: nat, f: Faults)
    requires Idle(c, w, i) && !c.atomic && f.handle.Done?
    ensures var (w1, ok) := Effected(c, w, i, IdOf(c, w.slots[i].content).value, f);
            Alone(c, At(w, x, i, Handling), x, f) == Alone(c, At(w1, x, i, if ok then Acking else Failing), x, f)
  {
    var id := IdOf(c, w.slots[i].content).value;
    var (w2, ok) := Effected(c, w, i, id, f);
    var w1 := w.(handled := Bump(w.handled, id));
    Moves(w1, x, i, Handling, Marking);
    AloneGoesOn(c, w, x, i, Handling, f, w1, Marking);
    var next := if ok then Acking else Failing;
    Moves(w2, x, i, Marking, next);
    AloneGoesOn(c, w1, x, i, Marking, f, w2, next);
  }

  lemma AloneRecording(c: Runtime, w: World, x: nat, i: nat, f: Faults)
    requires Idle(c, w, i) && c.atomic && f.handle.Done?
    ensures var (w1, ok) := Effected(c, w, i, IdOf(c, w.slots[i].content).value, f);
            Alone(c, At(w, x, i, Recording), x, f) == Alone(c, At(w1, x, i, if ok then Acking else Failing), x, f)
  {
    var id := IdOf(c, w.slots[i].content).value;
    var (w2, ok) := Effected(c, w, i, id, f);
    var next := if ok then Acking else Failing;
    if !f.record.Done? || id in w.markers {
      Moves(w2, x, i, Recording, next);
      AloneGoesOn(c, w, x, i, Recording, f, w2, next);
    } else {
      var w0 := At(w, x, i, Recording);
      assert forall y | y in w0.workers :: !Holds(c, w0, y, id);
      Moves(w, x, i, Recording, Committing);
      AloneGoesOn(c, w, x, i, Recording, f, w, Committing);
      AloneCommitting(c, w, x, i, f);
    }
  }

  lemma AloneCommitting(c: Runtime, w: World, x: nat, i: nat, f: Faults)
    requires Idle(c, w, i) && c.atomic && f.handle.Done? && f.record.Done?
             && IdOf(c, w.slots[i].content).value !in w.markers
    ensures var (w1, ok) := Effected(c, w, i, IdOf(c, w.slots[i].content).value, f);
            Alone(c, At(w, x, i, Committing), x, f) == Alone(c, At(w1, x, i, if ok then Acking else Failing), x, f)
  {
    var (w2, ok) := Effected(c, w, i, IdOf(c, w.slots[i].content).value, f);
    var next := if ok then Acking else Failing;
    Moves(w2, x, i, Committing, next);
    AloneGoesOn(c, w, x, i, Committing, f, w2, next);
  }

  /** One delivery with nothing in between is what `handleMessage`, followed by its acknowledgement, does. */
  lemma AloneIsHandled(c: Runtime, w: World, x: nat, i: nat, f: Faults)
    requires w.workers == map[] && i < |w.slots|
    ensures Alone(c, Step(c, w, KafkaRuntime.Deliver(x, i)), x, f) == Outcome(Handled(c, w, i, f), i, f)
  {
    var id := IdOf(c, w.slots[i].content);
    Moves(w, x, i, Decoding, Checking);
    assert Step(c, w, KafkaRuntime.Deliver(x, i)) == At(w, x, i, Decoding) by {
      assert w.workers[x := Work(i, Decoding)] == map[x := Work(i, Decoding)];
    }
    if id.None? {
      AloneEnds(c, w, x, i, Decoding, f, w);
    } else {
      AloneGoesOn(c, w, x, i, Decoding, f, w, Checking);
      AloneChecking(c, w, x, i, f);
    }
  }

  lemma AloneChecking(c: Runtime, w: World, x: nat, i: nat, f: Faults)
    requires Idle(c, w, i)
    ensures Alone(c, At(w, x, i, Checking), x, f) == Outcome(Handled(c, w, i, f), i, f)
  {
    var id := IdOf(c, w.slots[i].content).value;
    var next := if id in w.markers then Acking else Handling;
    Moves(w, x, i, Checking, next);
    if !f.inbox.Done? {
      AloneEnds(c, w, x, i, Checking, f, w);
    } else {
      AloneGoesOn(c, w, x, i, Checking, f, w, next);
      if id in w.markers {
        AloneAcking(c, w, x, i, f);
      } else {
        AloneHandling(c, w, x, i, f);
        var (w1, ok) := Effected(c, w, i, id, f);
        if ok { AloneAcking(c, w1, x, i, f); } else { AloneFailing(c, w1, x, i, f); }
      }
    }
  }
}
