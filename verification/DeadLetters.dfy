/**
 * Which failing messages can rest in the dead-letter topic: exactly those that decode. A delivery of the
 * consumer runtime, as one call, is put back into runs of the machine, and failures are chained to the end.
 */
module DeadLetters {
  import opened Common
  import opened RetryHeaders
  import opened Redelivery
  import opened KafkaRuntime
  import opened KafkaConsumer

  /** Every call ends well except the handler's. */
  const HandlerFails: Faults := Faults(Done, Refused, Done, Done, Done, Done, Done, 0)

  lemma SaneMore(c: Runtime, evs: seq<Event>, e: Event)
    requires Sane(c, evs) && (e.Advance? ==> Exact(c.settings, e.now))
    ensures Sane(c, evs + [e]) && Run(c, evs + [e]) == Step(c, Run(c, evs), e)
  {
    RunSnoc(c, evs, e);
  }

  function Own(w: World, x: nat, f: Faults): Event
    requires x in w.workers
  {
    Advance(x, Answer(f, w.workers[x].pc), f.now)
  }

  predicate GoesOn(w: World, w': World, x: nat) {
    x in w.workers && x in w'.workers && Rank(w'.workers[x].pc) < Rank(w.workers[x].pc)
  }

  lemma AloneUnfolds(c: Runtime, w: World, x: nat, f: Faults)
    requires x in w.workers
    ensures var w' := Step(c, w, Own(w, x, f));
            Alone(c, w, x, f) == if GoesOn(w, w', x) || x !in w'.workers then Alone(c, w', x, f) else w'
  {
  }

  /** What a worker does alone is a run. */
  lemma {:induction false} AloneIsRun(c: Runtime, evs: seq<Event>, w: World, x: nat, f: Faults)
      returns (all: seq<Event>)
    requires w == Run(c, evs) && Sane(c, evs) && Exact(c.settings, f.now)
    ensures evs <= all && Sane(c, all) && Run(c, all) == Alone(c, w, x, f)
    decreases if x in w.workers then Rank(w.workers[x].pc) + 1 else 0
  {
    if x !in w.workers {
      all := evs;
    } else {
      var e := Own(w, x, f);
      var w' := Step(c, w, e);
      SaneMore(c, evs, e);
      AloneUnfolds(c, w, x, f);
      if GoesOn(w, w', x) || x !in w'.workers {
        all := AloneIsRun(c, evs + [e], w', x, f);
      } else {
        all := evs + [e];
      }
    }
  }

  /** No delivery is under way and nothing has been handled. */
  predicate Quiet(w: World) { w.workers == map[] && w.markers == {} && w.effects == map[] && w.handled == map[] }

  /** One delivery of a record whose handling fails: the next copy if a retry is left, else the letter. */
  lemma FailedDelivery(c: Runtime, w: World, i: nat)
    requires ReadsBack(c.number) && Exact(c.settings, 0) && Quiet(w) && i < |w.slots|
             && IdOf(c, w.slots[i].content).Some?
    ensures var w' := Outcome(Handled(c, w, i, HandlerFails), i, HandlerFails);
            var m := w.slots[i].content;
            && Quiet(w') && Extends(w, w')
            && if Spent(c, m) then w'.dlq == w.dlq + [Filed(LetterFor(c, m), i)]
               else
                 && |w'.slots| == |w.slots| + 1 && w'.slots[|w.slots|].from == Some(i)
                 && KafkaRuntime.Next(c, m, w'.slots[|w.slots|].content)
  {
    var m := w.slots[i].content;
    var v := Failure(c, m, 0);
    OneFailure(c.number, c.settings, m, 0);
    if v.Again? { WireRoundTrip(v.copy); }
  }

  lemma DeliveredAndFailed(c: Runtime, evs: seq<Event>, w: World, i: nat) returns (all: seq<Event>)
    requires w == Run(c, evs) && Sane(c, evs) && Exact(c.settings, 0) && Quiet(w) && i < |w.slots|
    ensures evs <= all && Sane(c, all) && Run(c, all) == Outcome(Handled(c, w, i, HandlerFails), i, HandlerFails)
  {
    var e := KafkaRuntime.Deliver(0, i);
    SaneMore(c, evs, e);
    AloneIsHandled(c, w, 0, i, HandlerFails);
    all := AloneIsRun(c, evs + [e], Step(c, w, e), 0, HandlerFails);
  }

  function Root(w: World, k: nat): nat
    requires k < |w.slots|
  {
    var line := Ancestry(w, k);
    line[|line| - 1]
  }

  lemma {:induction false} RootStays(w: World, w': World, k: nat)
    requires Extends(w, w') && k < |w.slots|
    ensures Root(w', k) == Root(w, k)
  {
    assert SameSlot(w.slots[k], w'.slots[k]);
    var from := w.slots[k].from;
    if from.Some? && from.value < k { RootStays(w, w', from.value); }
  }

  /** Some letter descends from this record. */
  ghost predicate Rests(w: World, root: nat) {
    exists n | 0 <= n < |w.dlq| :: w.dlq[n].from < |w.slots| && Root(w, w.dlq[n].from) == root
  }

  /**
   * After one failure: a letter of the record's own, or a copy with one retry less that descends from the same
   * record.
   */
  ghost predicate Moved(c: Runtime, w: World, w': World, i: nat)
    requires i < |w.slots|
  {
    && Quiet(w') && Extends(w, w')
    && if Spent(c, w.slots[i].content) then Rests(w', Root(w, i))
       else var j := |w.slots|;
            && j < |w'.slots| && IdOf(c, w'.slots[j].content).Some? && Root(w', j) == Root(w, i)
            && RetriesLeft(c.number, c.settings, w'.slots[j].content) < RetriesLeft(c.number, c.settings,
                 w.slots[i].content)
  }

  lemma OneMoves(c: Runtime, w: World, i: nat)
    requires ReadsBack(c.number) && Exact(c.settings, 0) && Quiet(w) && i < |w.slots|
             && IdOf(c, w.slots[i].content).Some?
    ensures Moved(c, w, Outcome(Handled(c, w, i, HandlerFails), i, HandlerFails), i)
  {
    var w', m := Outcome(Handled(c, w, i, HandlerFails), i, HandlerFails), w.slots[i].content;
    FailedDelivery(c, w, i);
    RootStays(w, w', i);
    if Spent(c, m) {
      assert w'.dlq[|w.dlq|].from == i;
    } else {
      SameMessageSameId(c, w'.slots[|w.slots|].content, m);
    }
  }

  /** Failure after failure, a record that decodes comes to rest. */
  lemma {:induction false} FailsToTheEnd(c: Runtime, evs: seq<Event>, w: World, i: nat) returns (all: seq<Event>)
    requires w == Run(c, evs) && Sane(c, evs) && Exact(c.settings, 0) && Quiet(w) && i < |w.slots|
             && IdOf(c, w.slots[i].content).Some?
    ensures evs <= all && Sane(c, all) && Quiet(Run(c, all)) && Rests(Run(c, all), Root(w, i))
    decreases RetriesLeft(c.number, c.settings, w.slots[i].content)
  {
    all := DeliveredAndFailed(c, evs, w, i);
    OneMoves(c, w, i);
    if !Spent(c, w.slots[i].content) { all := FailsToTheEnd(c, all, Run(c, all), |w.slots|); }
  }

  /**
   * A run in which this message arrives first, nothing is ever handled with success, and a letter that descends from
   * it is on the dead-letter topic.
   */
  ghost predicate ComesToRest(c: Runtime, evs: seq<Event>, m: Content) {
    Sane(c, evs) && evs != [] && evs[0] == Arrive(m) && Quiet(Run(c, evs)) && Rests(Run(c, evs), 0)
  }

  lemma {:induction false} FirstStays(c: Runtime, evs: seq<Event>, m: Content)
    requires evs != [] && evs[0] == Arrive(m)
    ensures |Run(c, evs).slots| > 0 && Run(c, evs).slots[0].content == m
  {
    var n := |evs| - 1;
    if n == 0 {
      assert evs[..0] == [];
    } else {
      FirstStays(c, evs[..n], m);
      StepFrame(c, Run(c, evs[..n]), evs[n]);
      assert SameSlot(Run(c, evs[..n]).slots[0], Run(c, evs).slots[0]);
    }
  }

  lemma RestingDecodes(c: Runtime, evs: seq<Event>, m: Content)
    requires ComesToRest(c, evs, m)
    ensures IdOf(c, m).Some?
  {
    var w := Run(c, evs);
    FirstStays(c, evs, m);
    var n :| 0 <= n < |w.dlq| && w.dlq[n].from < |w.slots| && Root(w, w.dlq[n].from) == 0;
    RunInvariant(c, evs);
    assert LetterOk(c, w, w.dlq[n]);
    AncestryCounts(c, w, w.dlq[n].from);
    SameMessageSameId(c, w.slots[w.dlq[n].from].content, w.slots[0].content);
  }

  ghost predicate CanRest(c: Runtime, m: Content) { exists evs: seq<Event> :: ComesToRest(c, evs, m) }

  lemma Arrives(c: Runtime, m: Content) returns (evs: seq<Event>)
    ensures |evs| == 1 && evs[0] == Arrive(m) && Run(c, evs) == Start.(slots := [Slot(m, None, false)])
  {
    evs := [Arrive(m)];
    assert evs[..0] == [];
  }

  lemma DecodableRests(c: Runtime, m: Content)
    requires ReadsBack(c.number) && Exact(c.settings, 0) && IdOf(c, m).Some?
    ensures CanRest(c, m)
  {
    var start := Arrives(c, m);
    var evs := FailsToTheEnd(c, start, Run(c, start), 0);
    assert evs[0] == start[0];
    assert Root(Run(c, start), 0) == 0;
    assert ComesToRest(c, evs, m);
  }

  /**
   * A message whose handlings all fail can come to rest in the dead-letter topic if and only if the serializer
   * accepts it; `KafkaRuntime.UndecodableStays` says what becomes of the others.
   */
  lemma RestsIffDecodable(c: Runtime, m: Content)
    requires ReadsBack(c.number) && Exact(c.settings, 0)
    ensures CanRest(c, m) <==> !Says(c, m, None)
  {
    IdIsTheSerializers(c, m, None);
    if CanRest(c, m) {
      var evs: seq<Event> :| ComesToRest(c, evs, m);
      RestingDecodes(c, evs, m);
    } else if IdOf(c, m).Some? {
      DecodableRests(c, m);
    }
  }
}
