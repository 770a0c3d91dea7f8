/**
 * The consumer runtime as a state machine: records on the main and retry topics, workers that take one step
 * at a time, crashes, redeliveries, concurrent duplicates, and calls that fail before or after taking effect.
 */
module KafkaRuntime {
  import opened Common
  import opened RetryHeaders
  import opened Redelivery

  /** The ports the runtime is built from: `decode` is the serializer, `number` how a header reads as a number. */
  datatype Runtime = Runtime(
    settings: Settings,
    atomic: bool,
    number: string -> Numeral,
    decode: (string, Numeral, string, Bytes) -> Option<string>)

  /** A record on the main topic, or on the retry topic if it was copied `from` another one. */
  datatype Slot = Slot(content: Content, from: Option<nat>, acked: bool)

  datatype Filed = Filed(letter: Letter, from: nat)

  /** Where a worker is in `handleMessage`. */
  datatype Pc = Decoding | Checking | Handling | Marking | Recording | Committing | Failing | Filing | Acking

  datatype Work = Work(slot: nat, pc: Pc)

  /**
   * `effects` counts committed atomic handlings, `handled` plain handlings that returned; `failed` are the records
   * with a failed handling.
   */
  datatype World = World(
    slots: seq<Slot>, workers: map<nat, Work>, markers: set<string>,
    effects: map<string, nat>, handled: map<string, nat>, dlq: seq<Filed>, rows: seq<Filed>, failed: set<nat>)

  const Start: World := World([], map[], {}, map[], map[], [], [], {})

  datatype Event =
    | Arrive(content: Content)
    | Deliver(who: nat, slot: nat)
    | Advance(who: nat, reply: Reply, now: nat)
    | Crash(who: nat)

  function HeaderOr(h: Headers, name: string, default: string): string { if name in h then h[name] else default }

  /** The message id, if the serializer accepts the message. */
  function IdOf(c: Runtime, m: Content): Option<string> {
    c.decode(HeaderOr(m.headers, "type", ""), c.number(HeaderOr(m.headers, "eventVersion", "0")),
      HeaderOr(m.headers, "contentType", ""), m.value)
  }

  /** The texts the serializer is given: absent headers read as "", and an absent version as "0". */
  predicate Reads(m: Content, kind: string, version: string, contentType: string) {
    && kind == (if "type" in m.headers then m.headers["type"] else "")
    && version == (if "eventVersion" in m.headers then m.headers["eventVersion"] else "0")
    && contentType == (if "contentType" in m.headers then m.headers["contentType"] else "")
  }

  /** What the serializer says of a message: the id it gives it, or that it rejects it. */
  ghost predicate Says(c: Runtime, m: Content, answer: Option<string>) {
    forall kind, version, contentType | Reads(m, kind, version, contentType) ::
      c.decode(kind, c.number(version), contentType, m.value) == answer
  }

  /** The id by which messages are told apart is the serializer's. */
  lemma IdIsTheSerializers(c: Runtime, m: Content, answer: Option<string>)
    ensures Says(c, m, answer) <==> IdOf(c, m) == answer
  {
    var kind, version := HeaderOr(m.headers, "type", ""), HeaderOr(m.headers, "eventVersion", "0");
    assert Reads(m, kind, version, HeaderOr(m.headers, "contentType", ""));
  }

  function Goto(w: World, x: nat, pc: Pc): World
    requires x in w.workers
  {
    w.(workers := w.workers[x := w.workers[x].(pc := pc)])
  }

  /** The handling threw; the failure branch comes next. */
  function Fail(w: World, x: nat): World
    requires x in w.workers
  {
    Goto(w.(failed := w.failed + {w.workers[x].slot}), x, Failing)
  }

  /** The call throws, or ends: no worker is left, and the record is where it was. */
  function Leave(w: World, x: nat): World { w.(workers := w.workers - {x}) }

  /** Another open transaction has recorded the marker and not committed yet. */
  predicate Locked(c: Runtime, w: World, id: string) {
    exists x | x in w.workers :: Holds(c, w, x, id)
  }

  predicate Holds(c: Runtime, w: World, x: nat, id: string) {
    x in w.workers && w.workers[x].pc == Committing && w.workers[x].slot < |w.slots|
      && IdOf(c, w.slots[w.workers[x].slot].content) == Some(id)
  }

  function Acked(w: World, i: nat): World {
    if i < |w.slots| then w.(slots := w.slots[i := w.slots[i].(acked := true)]) else w
  }

  /** The failure branch: publish a retry copy, or publish to the dead-letter topic. */
  function AfterFailure(w: World, x: nat, i: nat, v: Verdict, reply: Reply): World
    requires x in w.workers && i < |w.slots|
  {
    if v.OutOfSchedule? then Leave(w, x)
    else if v.Again? then
      var w1 := if reply.Refused? then w else w.(slots := w.slots + [Slot(Read(Wire(v.copy)), Some(i), false)]);
      if reply.Done? then Goto(w1, x, Acking) else Leave(w1, x)
    else
      var w1 := if reply.Refused? then w else w.(dlq := w.dlq + [Filed(v.letter, i)]);
      if reply.Done? then Goto(w1, x, Filing) else Leave(w1, x)
  }

  function Failure(c: Runtime, m: Content, now: nat): Verdict { OnFailure(c.number, c.settings, m, now) }

  function LetterFor(c: Runtime, m: Content): Letter { Letter(m, AttemptOf(c.number, m)) }

  function Advanced(c: Runtime, w: World, x: nat, id: string, reply: Reply, now: nat): World
    requires x in w.workers && w.workers[x].slot < |w.slots|
  {
    var i := w.workers[x].slot;
    match w.workers[x].pc
    case Decoding => Goto(w, x, Checking)
    case Checking => if !reply.Done? then Leave(w, x) else if id in w.markers then Goto(w, x, Acking)
        else Goto(w, x, Handling)
    case Handling =>
      if !reply.Done? then Fail(w, x)
      else if c.atomic then Goto(w, x, Recording)
      else Goto(w.(handled := Bump(w.handled, id)), x, Marking)
    case Marking =>
      var w1 := if reply.Refused? then w else w.(markers := w.markers + {id});
      if reply.Done? then Goto(w1, x, Acking) else Fail(w1, x)
    case Recording =>
      if !reply.Done? then Fail(w, x)
      else if id in w.markers then Goto(w, x, Acking)
      else if Locked(c, w, id) then w
      else Goto(w, x, Committing)
    case Committing =>
      var w1 := if reply.Refused? then w else w.(effects := Bump(w.effects, id), markers := w.markers + {id});
      if reply.Done? then Goto(w1, x, Acking) else Fail(w1, x)
    case Failing => AfterFailure(w, x, i, Failure(c, w.slots[i].content, now), reply)
    case Filing =>
      var w1 := if reply.Refused? then w else w.(rows := w.rows + [Filed(LetterFor(c, w.slots[i].content), i)]);
      if reply.Done? then Goto(w1, x, Acking) else Leave(w1, x)
    case Acking => Leave(if reply.Refused? then w else Acked(w, i), x)
  }

  /**
   * One step; an event that does not apply changes nothing. A record may be delivered at any time, to any number of
   * workers.
   */
  function Step(c: Runtime, w: World, e: Event): World {
    match e
    case Arrive(content) => w.(slots := w.slots + [Slot(content, None, false)])
    case Deliver(x, i) => if x !in w.workers && i < |w.slots| then w.(workers := w.workers[x := Work(i, Decoding)])
        else w
    case Crash(x) => Leave(w, x)
    case Advance(x, reply, now) =>
      if x !in w.workers || w.workers[x].slot >= |w.slots| then w
      else
        var id := IdOf(c, w.slots[w.workers[x].slot].content);
        if id.None? then Leave(w, x) else Advanced(c, w, x, id.value, reply, now)
  }

  function Run(c: Runtime, evs: seq<Event>): World {
    if evs == [] then Start else Step(c, Run(c, evs[..|evs| - 1]), evs[|evs| - 1])
  }

  /** Every clock reading keeps due times exactly representable. */
  ghost predicate Sane(c: Runtime, evs: seq<Event>) {
    ReadsBack(c.number) && forall k | 0 <= k < |evs| && evs[k].Advance? :: Exact(c.settings, evs[k].now)
  }

  // ---------------------------------------------------------------------------
  // Invariants
  // ---------------------------------------------------------------------------

  predicate SameSlot(a: Slot, b: Slot) { a.content == b.content && a.from == b.from && (a.acked ==> b.acked) }

  /** Nothing is ever taken back. */
  ghost predicate Extends(w: World, w': World) {
    && |w.slots| <= |w'.slots| && (forall k | 0 <= k < |w.slots| :: SameSlot(w.slots[k], w'.slots[k]))
    && w.markers <= w'.markers && w.dlq <= w'.dlq && w.rows <= w'.rows && w.failed <= w'.failed
  }

  predicate OthersStay(w: World, w': World, x: nat) {
    forall y | y in w'.workers && y != x :: y in w.workers && w'.workers[y] == w.workers[y]
  }

  /** A step moves only its own worker. */
  lemma StepFrame(c: Runtime, w: World, e: Event)
    ensures Extends(w, Step(c, w, e))
    ensures e.Arrive? || OthersStay(w, Step(c, w, e), e.who)
    ensures e.Arrive? ==> Step(c, w, e).workers == w.workers
  {
    if e.Advance? && e.who in w.workers && w.workers[e.who].slot < |w.slots| {
      var id := IdOf(c, w.slots[w.workers[e.who].slot].content);
      if id.Some? { AdvancedFrame(c, w, e.who, id.value, e.reply, e.now); }
    }
  }

  lemma AdvancedFrame(c: Runtime, w: World, x: nat, id: string, reply: Reply, now: nat)
    requires x in w.workers && w.workers[x].slot < |w.slots|
    ensures Extends(w, Advanced(c, w, x, id, reply, now)) && OthersStay(w, Advanced(c, w, x, id, reply, now), x)
  {
    var i := w.workers[x].slot;
    match w.workers[x].pc
    case Failing => AfterFailureFrame(w, x, i, Failure(c, w.slots[i].content, now), reply);
    case Acking =>
    case Filing =>
    case Committing =>
    case _ =>
  }

  lemma AfterFailureFrame(w: World, x: nat, i: nat, v: Verdict, reply: Reply)
    requires x in w.workers && i < |w.slots|
    ensures var w' := AfterFailure(w, x, i, v, reply);
            && Extends(w, w') && w'.markers == w.markers && w'.effects == w.effects && w'.handled == w.handled
            && OthersStay(w, w', x)
            && (x in w'.workers ==>
                 w'.workers[x].slot == w.workers[x].slot
                 && (w'.workers[x].pc.Acking? || (v.GiveUp? && w'.workers[x].pc.Filing?)))
  {
  }

  ghost predicate Workers(c: Runtime, w: World) { forall x | x in w.workers :: WorkerOk(c, w, w.workers[x]) }

  predicate WorkerOk(c: Runtime, w: World, k: Work) {
    && k.slot < |w.slots|
    && (k.pc.Marking? ==> !c.atomic) && (k.pc.Recording? || k.pc.Committing? ==> c.atomic)
    && (k.pc.Decoding? || IdOf(c, w.slots[k.slot].content).Some?)
    && (k.pc.Filing? ==> Spent(c, w.slots[k.slot].content))
    && (k.pc.Failing? || k.pc.Filing? ==> k.slot in w.failed)
  }

  /** No retry is left for this message. */
  predicate Spent(c: Runtime, m: Content) { AttemptOf(c.number, m) >= MaxAttempts(c.settings) }

  lemma GivesUpWhenSpent(c: Runtime, m: Content, now: nat)
    ensures Failure(c, m, now).GiveUp? ==> Spent(c, m) && Failure(c, m, now).letter == LetterFor(c, m)
  {
  }

  lemma WorkersKept(c: Runtime, w: World, e: Event)
    requires Workers(c, w)
    ensures Workers(c, Step(c, w, e))
  {
    var w' := Step(c, w, e);
    StepFrame(c, w, e);
    forall x | x in w'.workers ensures WorkerOk(c, w', w'.workers[x]) {
      if !e.Arrive? && x == e.who {
        OwnWorkerKept(c, w, e);
      } else {
        assert WorkerOk(c, w, w.workers[x]) && SameSlot(w.slots[w.workers[x].slot], w'.slots[w.workers[x].slot]);
      }
    }
  }

  lemma OwnWorkerKept(c: Runtime, w: World, e: Event)
    requires Workers(c, w) && !e.Arrive?
    ensures e.who in Step(c, w, e).workers ==> WorkerOk(c, Step(c, w, e), Step(c, w, e).workers[e.who])
  {
    if e.Advance? && e.who in w.workers {
      var k := w.workers[e.who];
      assert WorkerOk(c, w, k);
      var m := w.slots[k.slot].content;
      if IdOf(c, m).Some? {
        if k.pc.Failing? {
          GivesUpWhenSpent(c, m, e.now);
          AfterFailureFrame(w, e.who, k.slot, Failure(c, m, e.now), e.reply);
        } else {
          AdvancedWorkerOk(c, w, e.who, IdOf(c, m).value, e.reply, e.now);
        }
      }
    }
  }

  lemma AdvancedWorkerOk(c: Runtime, w: World, x: nat, id: string, reply: Reply, now: nat)
    requires x in w.workers && WorkerOk(c, w, w.workers[x]) && !w.workers[x].pc.Failing?
             && IdOf(c, w.slots[w.workers[x].slot].content) == Some(id)
    ensures var w' := Advanced(c, w, x, id, reply, now); x in w'.workers ==> WorkerOk(c, w', w'.workers[x])
  {
    match w.workers[x].pc
    case Filing =>
    case Acking =>
    case Committing =>
    case _ =>
  }

  // The atomic path: one committed effect per marker.

  ghost predicate EffectOnce(c: Runtime, w: World) {
    && (forall x, id | Holds(c, w, x, id) :: id !in w.markers)
    && (forall x, y, id | Holds(c, w, x, id) && Holds(c, w, y, id) :: x == y)
    && (forall id :: Count(w.effects, id) == if id in w.markers then 1 else 0)
  }

  lemma EffectOnceKept(c: Runtime, w: World, e: Event)
    requires c.atomic && Workers(c, w) && EffectOnce(c, w)
    ensures EffectOnce(c, Step(c, w, e))
  {
    var w' := Step(c, w, e);
    StepFrame(c, w, e);
    HoldersKept(c, w, e);
    if e.Advance? && e.who in w.workers {
      var k := w.workers[e.who];
      assert WorkerOk(c, w, k);
      var id := IdOf(c, w.slots[k.slot].content);
      if k.pc.Committing? {
        assert Holds(c, w, e.who, id.value);
      } else if id.Some? {
        QuietSteps(c, w, e.who, id.value, e.reply, e.now);
      }
    }
  }

  /** Only a commit touches effects and markers on the atomic path. */
  lemma QuietSteps(c: Runtime, w: World, x: nat, id: string, reply: Reply, now: nat)
    requires x in w.workers && w.workers[x].slot < |w.slots|
    ensures var w' := Advanced(c, w, x, id, reply, now);
            && (!w.workers[x].pc.Committing? && !w.workers[x].pc.Marking? ==> w'.markers == w.markers)
            && (!w.workers[x].pc.Committing? ==> w'.effects == w.effects)
            && (!w.workers[x].pc.Handling? ==> w'.handled == w.handled)
  {
    match w.workers[x].pc
    case Failing => AfterFailureFrame(w, x, w.workers[x].slot, Failure(c, w.slots[w.workers[x].slot].content, now),
        reply);
    case Marking =>
    case Committing =>
    case _ =>
  }

  /** A worker starts to hold a marker only when nobody else does and it is not recorded yet. */
  lemma HoldersKept(c: Runtime, w: World, e: Event)
    requires Workers(c, w)
    ensures forall x, id | Holds(c, Step(c, w, e), x, id) ::
      Holds(c, w, x, id) || (e.Advance? && x == e.who && id !in w.markers && !Locked(c, w, id)
        && Step(c, w, e).markers == w.markers)
    ensures e.Advance? && e.who in w.workers && w.workers[e.who].pc.Committing? ==>
            forall id :: !Holds(c, Step(c, w, e), e.who, id)
  {
    var w' := Step(c, w, e);
    StepFrame(c, w, e);
    forall x, id | Holds(c, w', x, id)
      ensures Holds(c, w, x, id)
              || (e.Advance? && x == e.who && id !in w.markers && !Locked(c, w, id) && w'.markers == w.markers)
    {
      if e.Arrive? || x != e.who {
        assert WorkerOk(c, w, w.workers[x]) && SameSlot(w.slots[w.workers[x].slot], w'.slots[w.workers[x].slot]);
      } else {
        OwnHold(c, w, e, id);
      }
    }
    if e.Advance? && e.who in w.workers && w.workers[e.who].pc.Committing? {
      assert WorkerOk(c, w, w.workers[e.who]);
    }
  }

  lemma OwnHold(c: Runtime, w: World, e: Event, id: string)
    requires Workers(c, w) && !e.Arrive? && Holds(c, Step(c, w, e), e.who, id)
    ensures Holds(c, w, e.who, id)
            || (e.Advance? && id !in w.markers && !Locked(c, w, id) && Step(c, w, e).markers == w.markers)
  {
    if e.Advance? && e.who in w.workers {
      var k := w.workers[e.who];
      assert WorkerOk(c, w, k);
      match k.pc
      case Failing => AfterFailureFrame(w, e.who, k.slot, Failure(c, w.slots[k.slot].content, e.now), e.reply);
      case Recording =>
      case _ =>
    }
  }

  // The plain path: a marker means a handling that returned.

  ghost predicate MarkedIsHandled(c: Runtime, w: World) {
    && (forall id | id in w.markers :: Count(w.handled, id) >= 1)
    && (forall x | x in w.workers && w.workers[x].pc.Marking? :: MarkingOk(c, w, w.workers[x]))
  }

  predicate MarkingOk(c: Runtime, w: World, k: Work) {
    k.slot < |w.slots| && IdOf(c, w.slots[k.slot].content).Some?
      && Count(w.handled, IdOf(c, w.slots[k.slot].content).value) >= 1
  }

  lemma MarkedKept(c: Runtime, w: World, e: Event)
    requires !c.atomic && Workers(c, w) && MarkedIsHandled(c, w)
    ensures MarkedIsHandled(c, Step(c, w, e))
  {
    var w' := Step(c, w, e);
    StepFrame(c, w, e);
    HandledGrows(c, w, e);
    forall x | x in w'.workers && w'.workers[x].pc.Marking? ensures MarkingOk(c, w', w'.workers[x]) {
      if e.Arrive? || x != e.who {
        assert MarkingOk(c, w, w.workers[x]) && SameSlot(w.slots[w.workers[x].slot], w'.slots[w.workers[x].slot]);
      }
    }
  }

  lemma HandledGrows(c: Runtime, w: World, e: Event)
    requires !c.atomic && Workers(c, w) && MarkedIsHandled(c, w)
    ensures forall id :: Count(Step(c, w, e).handled, id) >= Count(w.handled, id)
    ensures forall id | id in Step(c, w, e).markers :: id in w.markers || Count(w.handled, id) >= 1
    ensures e.Advance? && e.who in Step(c, w, e).workers && Step(c, w, e).workers[e.who].pc.Marking? ==>
      MarkingOk(c, Step(c, w, e), Step(c, w, e).workers[e.who])
  {
    if e.Advance? && e.who in w.workers {
      var k := w.workers[e.who];
      assert WorkerOk(c, w, k);
      var id := IdOf(c, w.slots[k.slot].content);
      if id.Some? { QuietSteps(c, w, e.who, id.value, e.reply, e.now); }
      match k.pc
      case Failing => AfterFailureFrame(w, e.who, k.slot, Failure(c, w.slots[k.slot].content, e.now), e.reply);
      case Marking => assert MarkingOk(c, w, k);
      case Handling =>
      case _ =>
    }
  }

  // No message is lost.

  ghost predicate InFile(file: seq<Filed>, m: Content) {
    exists n | 0 <= n < |file| :: SameMessage(file[n].letter.content, m)
  }

  predicate Carries(w: World, j: nat, k: nat) {
    j < k < |w.slots| && !w.slots[k].acked && SameMessage(w.slots[k].content, w.slots[j].content)
  }

  /**
   * The record may be acknowledged: it is effected, or dead-lettered in topic and table, or a later unacknowledged
   * copy carries it.
   */
  ghost predicate Onward(c: Runtime, w: World, j: nat)
    requires j < |w.slots|
  {
    var m := w.slots[j].content;
    var id := IdOf(c, m);
    id.Some? && (id.value in w.markers || (InFile(w.dlq, m) && InFile(w.rows, m)) || exists k: nat :: Carries(w, j, k))
  }

  ghost predicate NothingLost(c: Runtime, w: World) {
    && (forall j | 0 <= j < |w.slots| && w.slots[j].acked :: Onward(c, w, j))
    && (forall x | x in w.workers :: AckSafe(c, w, w.workers[x]))
  }

  ghost predicate AckSafe(c: Runtime, w: World, k: Work) {
    k.slot < |w.slots| && (k.pc.Acking? ==> Onward(c, w, k.slot))
      && (k.pc.Filing? ==> InFile(w.dlq, w.slots[k.slot].content))
  }

  lemma SameMessageSameId(c: Runtime, a: Content, b: Content)
    requires SameMessage(a, b)
    ensures IdOf(c, a) == IdOf(c, b)
  {
    var h, g := a.headers - RETRY_NAMES, b.headers - RETRY_NAMES;
    forall name: string | name !in RETRY_NAMES ensures HeaderOr(a.headers, name, "") == HeaderOr(b.headers, name, "")
      && (name in a.headers <==> name in b.headers) {
      assert name in h <==> name in a.headers;
      assert name in g <==> name in b.headers;
      if name in h { assert h[name] == g[name]; }
    }
    assert "type"[0] != 'x' && "eventVersion"[0] != 'x' && "contentType"[0] != 'x';
    assert forall name | name in RETRY_NAMES :: name[0] == 'x';
  }

  lemma InFileStays(file: seq<Filed>, file': seq<Filed>, a: Content, b: Content)
    requires file <= file' && InFile(file, a) && SameMessage(a, b)
    ensures InFile(file', b)
  {
    var n :| 0 <= n < |file| && SameMessage(file[n].letter.content, a);
    assert SameMessage(file'[n].letter.content, b);
  }

  /** If records are only acknowledged when that is safe, what was safe stays safe. */
  lemma {:induction false} OnwardKept(c: Runtime, w: World, w': World, j: nat)
    requires Extends(w, w') && j < |w.slots| && Onward(c, w, j)
    requires forall k | 0 <= k < |w.slots| && w'.slots[k].acked && !w.slots[k].acked :: Onward(c, w, k)
    ensures Onward(c, w', j)
    decreases |w.slots| - j
  {
    var m := w.slots[j].content;
    assert SameSlot(w.slots[j], w'.slots[j]);
    if IdOf(c, m).value in w.markers {
    } else if InFile(w.dlq, m) && InFile(w.rows, m) {
      InFileStays(w.dlq, w'.dlq, m, m);
      InFileStays(w.rows, w'.rows, m, m);
    } else {
      var k: nat :| Carries(w, j, k);
      assert SameSlot(w.slots[k], w'.slots[k]);
      if w'.slots[k].acked {
        OnwardKept(c, w, w', k);
        OnwardPassesOn(c, w', j, k);
      } else {
        assert Carries(w', j, k);
      }
    }
  }

  lemma OnwardPassesOn(c: Runtime, w: World, j: nat, k: nat)
    requires j < k < |w.slots| && SameMessage(w.slots[k].content, w.slots[j].content) && Onward(c, w, k)
    ensures Onward(c, w, j)
  {
    var a, b := w.slots[k].content, w.slots[j].content;
    SameMessageSameId(c, a, b);
    if InFile(w.dlq, a) && InFile(w.rows, a) {
      InFileStays(w.dlq, w.dlq, a, b);
      InFileStays(w.rows, w.rows, a, b);
    } else if IdOf(c, a).value !in w.markers {
      var n: nat :| Carries(w, k, n);
      assert Carries(w, j, n);
    }
  }

  lemma NothingLostKept(c: Runtime, w: World, e: Event)
    requires Workers(c, w) && NothingLost(c, w) && ReadsBack(c.number) && (e.Advance? ==> Exact(c.settings, e.now))
    ensures NothingLost(c, Step(c, w, e))
  {
    var w' := Step(c, w, e);
    StepFrame(c, w, e);
    AcksAreSafe(c, w, e);
    forall j | 0 <= j < |w'.slots| && w'.slots[j].acked ensures Onward(c, w', j) {
      OnwardKept(c, w, w', j);
    }
    forall x | x in w'.workers ensures AckSafe(c, w', w'.workers[x]) {
      if !e.Arrive? && x == e.who {
        OwnAckSafe(c, w, e);
      } else {
        var k := w.workers[x];
        assert AckSafe(c, w, k) && SameSlot(w.slots[k.slot], w'.slots[k.slot]);
        if k.pc.Acking? { OnwardKept(c, w, w', k.slot); }
        if k.pc.Filing? { InFileStays(w.dlq, w'.dlq, w.slots[k.slot].content, w'.slots[k.slot].content); }
      }
    }
  }

  /** A step acknowledges at most the record its worker may acknowledge, and every record is old or unacknowledged. */
  lemma AcksAreSafe(c: Runtime, w: World, e: Event)
    requires Workers(c, w) && NothingLost(c, w)
    ensures forall k | 0 <= k < |w.slots| && Step(c, w, e).slots[k].acked :: Onward(c, w, k)
    ensures forall k | |w.slots| <= k < |Step(c, w, e).slots| :: !Step(c, w, e).slots[k].acked
  {
    if e.Advance? && e.who in w.workers {
      var k := w.workers[e.who];
      assert WorkerOk(c, w, k) && AckSafe(c, w, k);
    }
  }

  lemma OwnAckSafe(c: Runtime, w: World, e: Event)
    requires Workers(c, w) && NothingLost(c, w) && !e.Arrive? && e.who in Step(c, w, e).workers
    requires ReadsBack(c.number) && (e.Advance? ==> Exact(c.settings, e.now))
    ensures AckSafe(c, Step(c, w, e), Step(c, w, e).workers[e.who])
  {
    if e.Advance? && e.who in w.workers {
      var k := w.workers[e.who];
      assert WorkerOk(c, w, k) && AckSafe(c, w, k);
      if k.pc.Failing? {
        OwnFailureSafe(c, w, e);
      } else if k.pc.Filing? {
        OwnFilingSafe(c, w, e);
      } else if IdOf(c, w.slots[k.slot].content).Some? {
        EffectedIsSafe(c, w, e.who, IdOf(c, w.slots[k.slot].content).value, e.reply, e.now);
      }
    }
  }

  /** Up to the effect, a worker may acknowledge only once the marker is there. */
  lemma EffectedIsSafe(c: Runtime, w: World, x: nat, id: string, reply: Reply, now: nat)
    requires x in w.workers && WorkerOk(c, w, w.workers[x]) && IdOf(c, w.slots[w.workers[x].slot].content) == Some(id)
    requires !w.workers[x].pc.Failing? && !w.workers[x].pc.Filing? && x in Advanced(c, w, x, id, reply, now).workers
    ensures var w' := Advanced(c, w, x, id, reply, now); AckSafe(c, w', w'.workers[x])
  {
    match w.workers[x].pc
    case Acking =>
    case Marking =>
    case Committing =>
    case _ =>
  }

  lemma OwnFilingSafe(c: Runtime, w: World, e: Event)
    requires Workers(c, w) && e.Advance? && e.who in w.workers && w.workers[e.who].pc.Filing?
             && e.who in Step(c, w, e).workers
    requires AckSafe(c, w, w.workers[e.who])
    ensures AckSafe(c, Step(c, w, e), Step(c, w, e).workers[e.who])
  {
    var k, w' := w.workers[e.who], Step(c, w, e);
    assert WorkerOk(c, w, k);
    var m := w.slots[k.slot].content;
    assert SameMessage(w'.rows[|w.rows|].letter.content, m);
    InFileStays(w.dlq, w'.dlq, m, m);
  }

  lemma OwnFailureSafe(c: Runtime, w: World, e: Event)
    requires Workers(c, w) && e.Advance? && e.who in w.workers && w.workers[e.who].pc.Failing?
             && e.who in Step(c, w, e).workers
    requires ReadsBack(c.number) && Exact(c.settings, e.now)
    ensures AckSafe(c, Step(c, w, e), Step(c, w, e).workers[e.who])
  {
    var k, w' := w.workers[e.who], Step(c, w, e);
    assert WorkerOk(c, w, k);
    var m := w.slots[k.slot].content;
    var v := Failure(c, m, e.now);
    OneFailure(c.number, c.settings, m, e.now);
    assert w' == AfterFailure(w, e.who, k.slot, v, e.reply);
    if v.Again? {
      WireRoundTrip(v.copy);
      assert Carries(w', k.slot, |w.slots|);
    } else {
      assert SameMessage(w'.dlq[|w.dlq|].letter.content, m);
    }
  }

  // Where copies and letters come from.

  ghost predicate Lineage(c: Runtime, w: World) {
    && (forall k | 0 <= k < |w.slots| && w.slots[k].from.Some? :: CopyOk(c, w, w.slots[k], k))
    && (forall n | 0 <= n < |w.dlq| :: LetterOk(c, w, w.dlq[n]))
    && (forall n | 0 <= n < |w.rows| :: LetterOk(c, w, w.rows[n]))
  }

  /** A retry copy is the next attempt of an earlier record whose handling failed. */
  predicate CopyOk(c: Runtime, w: World, s: Slot, k: nat)
    requires s.from.Some?
  {
    && s.from.value < k && s.from.value < |w.slots| && s.from.value in w.failed
    && Next(c, w.slots[s.from.value].content, s.content)
  }

  predicate Next(c: Runtime, m: Content, copy: Content) {
    SameMessage(copy, m) && AttemptOf(c.number, copy) == AttemptOf(c.number, m) + 1 <= MaxAttempts(c.settings)
      && IdOf(c, m).Some?
  }

  /** A dead letter is a record without retries left whose handling failed. */
  predicate LetterOk(c: Runtime, w: World, f: Filed) {
    && f.from < |w.slots| && f.from in w.failed
    && f.letter == LetterFor(c, w.slots[f.from].content) && Spent(c, w.slots[f.from].content)
    && IdOf(c, w.slots[f.from].content).Some?
  }

  lemma LineageKept(c: Runtime, w: World, e: Event)
    requires Workers(c, w) && Lineage(c, w) && ReadsBack(c.number) && (e.Advance? ==> Exact(c.settings, e.now))
    ensures Lineage(c, Step(c, w, e))
  {
    var w' := Step(c, w, e);
    StepFrame(c, w, e);
    NewcomersOk(c, w, e);
    forall k | 0 <= k < |w'.slots| && w'.slots[k].from.Some? ensures CopyOk(c, w', w'.slots[k], k) {
      if k < |w.slots| {
        assert SameSlot(w.slots[k], w'.slots[k]) && CopyOk(c, w, w.slots[k], k);
        assert SameSlot(w.slots[w.slots[k].from.value], w'.slots[w.slots[k].from.value]);
      }
    }
    forall f | LetterOk(c, w, f) ensures LetterOk(c, w', f) { assert SameSlot(w.slots[f.from], w'.slots[f.from]); }
  }

  lemma NewcomersOk(c: Runtime, w: World, e: Event)
    requires Workers(c, w) && ReadsBack(c.number) && (e.Advance? ==> Exact(c.settings, e.now))
    ensures var w' := Step(c, w, e);
            && (forall k | |w.slots| <= k < |w'.slots| && w'.slots[k].from.Some? :: CopyOk(c, w', w'.slots[k], k))
            && (forall n | |w.dlq| <= n < |w'.dlq| :: LetterOk(c, w', w'.dlq[n]))
            && (forall n | |w.rows| <= n < |w'.rows| :: LetterOk(c, w', w'.rows[n]))
  {
    if e.Advance? && e.who in w.workers {
      var k := w.workers[e.who];
      assert WorkerOk(c, w, k);
      match k.pc
      case Failing =>
        var m := w.slots[k.slot].content;
        var v := Failure(c, m, e.now);
        GivesUpWhenSpent(c, m, e.now);
        OneFailure(c.number, c.settings, m, e.now);
        if v.Again? { WireRoundTrip(v.copy); }
        FailureNewcomers(c, w, e.who, k.slot, v, e.reply);
      case Filing =>
      case Acking =>
      case _ =>
    }
  }

  lemma FailureNewcomers(c: Runtime, w: World, x: nat, i: nat, v: Verdict, reply: Reply)
    requires x in w.workers && i < |w.slots| && i in w.failed
    requires v.Again? ==> Next(c, w.slots[i].content, Read(Wire(v.copy)))
    requires v.GiveUp? ==>
             v.letter == LetterFor(c, w.slots[i].content) && Spent(c, w.slots[i].content)
             && IdOf(c, w.slots[i].content).Some?
    ensures var w' := AfterFailure(w, x, i, v, reply);
            && (forall k | |w.slots| <= k < |w'.slots| && w'.slots[k].from.Some? :: CopyOk(c, w', w'.slots[k], k))
            && (forall n | |w.dlq| <= n < |w'.dlq| :: LetterOk(c, w', w'.dlq[n]))
            && w'.rows == w.rows
  {
  }

  // ---------------------------------------------------------------------------
  // Every run
  // ---------------------------------------------------------------------------

  ghost predicate Invariant(c: Runtime, w: World) {
    Workers(c, w) && (c.atomic ==> EffectOnce(c, w)) && (!c.atomic ==> MarkedIsHandled(c, w)) && NothingLost(c, w)
      && Lineage(c, w)
  }

  lemma {:induction false} RunInvariant(c: Runtime, evs: seq<Event>)
    requires Sane(c, evs)
    ensures Invariant(c, Run(c, evs))
  {
    if evs != [] {
      var n := |evs| - 1;
      assert forall k | 0 <= k < n :: evs[..n][k] == evs[k];
      RunInvariant(c, evs[..n]);
      var w := Run(c, evs[..n]);
      WorkersKept(c, w, evs[n]);
      if c.atomic { EffectOnceKept(c, w, evs[n]); } else { MarkedKept(c, w, evs[n]); }
      NothingLostKept(c, w, evs[n]);
      LineageKept(c, w, evs[n]);
    }
  }

  /**
   * No message is lost: every record ever on the main or the retry topic is still unacknowledged, or its
   * message is effected, or dead-lettered in topic and table, or carried by a later unacknowledged retry copy.
   */
  lemma NoMessageLost(c: Runtime, evs: seq<Event>, j: nat, answer: Option<string>)
    requires Sane(c, evs) && j < |Run(c, evs).slots| && Says(c, Run(c, evs).slots[j].content, answer)
    ensures var w := Run(c, evs);
            var m := w.slots[j].content;
            !w.slots[j].acked ||
            (answer.Some? && (answer.value in w.markers || (InFile(w.dlq, m) && InFile(w.rows, m)) || exists k: nat ::
              Carries(w, j, k)))
  {
    RunInvariant(c, evs);
    IdIsTheSerializers(c, Run(c, evs).slots[j].content, answer);
  }

  /**
   * The atomic path: however deliveries, crashes and rollbacks interleave, the committed write for a message
   * happened at most once, and it happened exactly when the processed marker exists.
   */
  lemma EffectedAtMostOnce(c: Runtime, evs: seq<Event>, id: string)
    requires Sane(c, evs) && c.atomic
    ensures Count(Run(c, evs).effects, id) == if id in Run(c, evs).markers then 1 else 0
  {
    RunInvariant(c, evs);
  }

  /** The plain path: a marker means at least one handling returned. */
  lemma MarkerMeansHandled(c: Runtime, evs: seq<Event>, id: string)
    requires Sane(c, evs) && !c.atomic && id in Run(c, evs).markers
    ensures Count(Run(c, evs).handled, id) >= 1
  {
    RunInvariant(c, evs);
  }

  /** A record that cannot be decoded is never acknowledged, retried or dead-lettered: it stays where it is. */
  lemma UndecodableStays(c: Runtime, evs: seq<Event>, j: nat)
    requires Sane(c, evs) && j < |Run(c, evs).slots| && Says(c, Run(c, evs).slots[j].content, None)
    ensures var w := Run(c, evs);
            && !w.slots[j].acked
            && (forall k | 0 <= k < |w.slots| :: w.slots[k].from != Some(j))
            && (forall n | 0 <= n < |w.dlq| :: w.dlq[n].from != j)
            && (forall n | 0 <= n < |w.rows| :: w.rows[n].from != j)
  {
    RunInvariant(c, evs);
    var w := Run(c, evs);
    IdIsTheSerializers(c, w.slots[j].content, None);
    assert forall k | 0 <= k < |w.slots| && w.slots[k].from.Some? :: CopyOk(c, w, w.slots[k], k);
    assert forall n | 0 <= n < |w.dlq| :: LetterOk(c, w, w.dlq[n]);
    assert forall n | 0 <= n < |w.rows| :: LetterOk(c, w, w.rows[n]);
  }

  /** The records a retry copy descends from, itself first. */
  function Ancestry(w: World, k: nat): seq<nat>
    requires k < |w.slots|
  {
    var from := w.slots[k].from;
    if from.Some? && from.value < k then [k] + Ancestry(w, from.value) else [k]
  }

  lemma {:induction false} AncestryCounts(c: Runtime, w: World, k: nat)
    requires Lineage(c, w) && k < |w.slots|
    ensures var line := Ancestry(w, k);
            && line[0] == k && (forall i | 0 <= i < |line| :: line[i] < |w.slots|)
            && (forall i | 0 < i < |line| :: line[i] in w.failed)
            && w.slots[line[|line| - 1]].from.None?
            && SameMessage(w.slots[k].content, w.slots[line[|line| - 1]].content)
            && AttemptOf(c.number, w.slots[k].content) == AttemptOf(c.number, w.slots[line[|line| - 1]].content)
                 + |line| - 1
            && |line| - 1 <= RetriesLeft(c.number, c.settings, w.slots[line[|line| - 1]].content)
  {
    var from := w.slots[k].from;
    if from.Some? {
      assert CopyOk(c, w, w.slots[k], k);
      AncestryCounts(c, w, from.value);
      var rest, line := Ancestry(w, from.value), Ancestry(w, k);
      assert line == [k] + rest && line[|line| - 1] == rest[|rest| - 1] && forall i | 0 < i < |line| ::
        line[i] == rest[i - 1];
    }
  }

  /**
   * Redelivery is bounded and keeps the bytes: a record descends from a main-topic record with the same key,
   * bytes and other headers, by no more copies than the retries that record arrived with, each made after a
   * failed handling of the one before.
   */
  lemma RetriesAreBounded(c: Runtime, evs: seq<Event>, k: nat)
    requires Sane(c, evs) && k < |Run(c, evs).slots|
    ensures var w := Run(c, evs);
            var line := Ancestry(w, k);
            && (forall i | 0 <= i < |line| :: line[i] < |w.slots|) && (forall i | 0 < i < |line| :: line[i] in w.failed)
            && w.slots[line[|line| - 1]].from.None?
            && SameMessage(w.slots[k].content, w.slots[line[|line| - 1]].content)
            && |line| <= RetriesLeft(c.number, c.settings, w.slots[line[|line| - 1]].content) + 1
  {
    RunInvariant(c, evs);
    AncestryCounts(c, Run(c, evs), k);
  }

  /**
   * A dead letter is never early: it holds the original key, bytes and headers, and exactly one record more
   * than the retries the message arrived with was handled and failed, the dead-lettered one included.
   */
  lemma DeadLettersAreLast(c: Runtime, evs: seq<Event>, n: nat)
    requires Sane(c, evs) && n < |Run(c, evs).dlq|
    ensures var w := Run(c, evs);
            var f := w.dlq[n];
            && f.from < |w.slots|
            && var line := Ancestry(w, f.from);
               && (forall i | 0 <= i < |line| :: line[i] < |w.slots| && line[i] in w.failed)
               && |line| == RetriesLeft(c.number, c.settings, w.slots[line[|line| - 1]].content) + 1
               && SameMessage(f.letter.content, w.slots[line[|line| - 1]].content)
               && f.letter.attempts == AttemptOf(c.number, w.slots[f.from].content)
  {
    RunInvariant(c, evs);
    LetterIsLast(c, Run(c, evs), n);
  }

  lemma LetterIsLast(c: Runtime, w: World, n: nat)
    requires Lineage(c, w) && n < |w.dlq|
    ensures var f := w.dlq[n];
            && f.from < |w.slots|
            && var line := Ancestry(w, f.from);
               && (forall i | 0 <= i < |line| :: line[i] < |w.slots| && line[i] in w.failed)
               && |line| == RetriesLeft(c.number, c.settings, w.slots[line[|line| - 1]].content) + 1
               && SameMessage(f.letter.content, w.slots[line[|line| - 1]].content)
               && f.letter.attempts == AttemptOf(c.number, w.slots[f.from].content)
  {
    assert LetterOk(c, w, w.dlq[n]);
    AncestryCounts(c, w, w.dlq[n].from);
  }

  /** Two workers on the only record, nothing effected yet. */
  function Pair(m: Content, p: Pc, q: Pc, handled: map<string, nat>): World {
    World([Slot(m, None, false)], map[0 := Work(0, p), 1 := Work(0, q)], {}, map[], handled, [], [], {})
  }

  lemma PairSteps(c: Runtime, m: Content, p: Pc, q: Pc, handled: map<string, nat>, now: nat, p': Pc,
      handled': map<string, nat>)
    requires IdOf(c, m).Some? && !c.atomic
    requires (p, p', handled') in [(Decoding, Checking, handled), (Checking, Handling, handled),
             (Handling, Marking, Bump(handled, IdOf(c, m).value))]
    ensures Step(c, Pair(m, p, q, handled), Advance(0, Done, now)) == Pair(m, p', q, handled')
    ensures Step(c, Pair(m, q, p, handled), Advance(1, Done, now)) == Pair(m, q, p', handled')
  {
    var w, w' := Pair(m, p, q, handled), Pair(m, p', q, handled');
    assert w.workers[0 := Work(0, p')] == w'.workers;
    var v, v' := Pair(m, q, p, handled), Pair(m, q, p', handled');
    assert v.workers[1 := Work(0, p')] == v'.workers;
  }

  lemma RunSnoc(c: Runtime, evs: seq<Event>, e: Event)
    ensures Run(c, evs + [e]) == Step(c, Run(c, evs), e)
  {
    assert (evs + [e])[..|evs|] == evs;
  }

  /** Without the atomic path, two deliveries of one record at once can both handle it. */
  lemma PlainPathCanHandleTwice(c: Runtime, m: Content, now: nat)
    requires !c.atomic && IdOf(c, m).Some?
    ensures exists evs: seq<Event> ::
            |evs| == 9 && |Run(c, evs).slots| == 1
            && Count(Run(c, evs).handled, IdOf(c, m).value) == 2
  {
    var id := IdOf(c, m).value;
    var a, b := Advance(0, Done, now), Advance(1, Done, now);
    var one: map<string, nat> := Bump(map[], id);
    var start := [Arrive(m), Deliver(0, 0), Deliver(1, 0)];
    PairStarts(c, m);
    PairSteps(c, m, Decoding, Decoding, map[], now, Checking, map[]);
    PairSteps(c, m, Decoding, Checking, map[], now, Checking, map[]);
    PairSteps(c, m, Checking, Checking, map[], now, Handling, map[]);
    PairSteps(c, m, Checking, Handling, map[], now, Handling, map[]);
    PairSteps(c, m, Handling, Handling, map[], now, Marking, one);
    PairSteps(c, m, Handling, Marking, one, now, Marking, Bump(one, id));
    RunSnoc(c, start, a);
    RunSnoc(c, start + [a], b);
    RunSnoc(c, start + [a] + [b], a);
    RunSnoc(c, start + [a] + [b] + [a], b);
    RunSnoc(c, start + [a] + [b] + [a] + [b], a);
    RunSnoc(c, start + [a] + [b] + [a] + [b] + [a], b);
    assert Run(c, start + [a] + [b] + [a] + [b] + [a] + [b]) == Pair(m, Marking, Marking, Bump(one, id));
  }

  lemma PairStarts(c: Runtime, m: Content)
    ensures Run(c, [Arrive(m), Deliver(0, 0), Deliver(1, 0)]) == Pair(m, Decoding, Decoding, map[])
  {
    var e0, e1, e2 := Arrive(m), Deliver(0, 0), Deliver(1, 0);
    RunSnoc(c, [], e0);
    RunSnoc(c, [e0], e1);
    RunSnoc(c, [e0, e1], e2);
    assert [] + [e0] == [e0] && [e0] + [e1] == [e0, e1] && [e0, e1] + [e2] == [e0, e1, e2];
    var empty: map<nat, Work> := map[];
    assert empty[0 := Work(0, Decoding)][1 := Work(0, Decoding)] == Pair(m, Decoding, Decoding, map[]).workers;
  }
}
