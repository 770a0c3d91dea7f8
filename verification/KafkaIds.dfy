/** By which id the consumer runtime tells messages apart: the serializer's, in every run. */
module KafkaIds {
  import opened Common
  import opened Redelivery
  import opened KafkaRuntime

  /** Some record ever on a topic has this id. */
  ghost predicate Named(c: Runtime, w: World, id: string) {
    exists j | 0 <= j < |w.slots| :: Says(c, w.slots[j].content, Some(id))
  }

  ghost predicate AllNamed(c: Runtime, w: World) {
    forall id: string | id in w.markers || id in w.effects || id in w.handled :: Named(c, w, id)
  }

  lemma NamedStays(c: Runtime, w: World, w': World, id: string)
    requires Extends(w, w') && Named(c, w, id)
    ensures Named(c, w', id)
  {
    var j :| 0 <= j < |w.slots| && Says(c, w.slots[j].content, Some(id));
    assert SameSlot(w.slots[j], w'.slots[j]);
  }

  /** A step marks, counts and handles under the id of the record its worker is at. */
  lemma OwnId(c: Runtime, w: World, x: nat, id: string, reply: Reply, now: nat)
    requires x in w.workers && w.workers[x].slot < |w.slots|
    ensures var w' := Advanced(c, w, x, id, reply, now);
            && w'.markers <= w.markers + {id} && w'.effects.Keys <= w.effects.Keys + {id}
            && w'.handled.Keys <= w.handled.Keys + {id}
  {
    match w.workers[x].pc
    case Failing => AfterFailureFrame(w, x, w.workers[x].slot, Failure(c, w.slots[w.workers[x].slot].content, now),
        reply);
    case Marking =>
    case Committing =>
    case _ =>
  }

  /** Markers, effects and handlings are all under serializer ids of records that were there. */
  lemma {:induction false} AllAreNamed(c: Runtime, evs: seq<Event>)
    ensures AllNamed(c, Run(c, evs))
  {
    if evs != [] {
      var n := |evs| - 1;
      var w, e, w' := Run(c, evs[..n]), evs[n], Run(c, evs);
      AllAreNamed(c, evs[..n]);
      StepFrame(c, w, e);
      forall id | Named(c, w, id) ensures Named(c, w', id) { NamedStays(c, w, w', id); }
      if e.Advance? && e.who in w.workers && w.workers[e.who].slot < |w.slots| {
        var m := w.slots[w.workers[e.who].slot].content;
        if IdOf(c, m).Some? {
          OwnId(c, w, e.who, IdOf(c, m).value, e.reply, e.now);
          IdIsTheSerializers(c, m, IdOf(c, m));
          assert Named(c, w, IdOf(c, m).value);
        }
      }
    }
  }

  /** The record is effected: it goes by an id that is marked. */
  ghost predicate IsEffected(c: Runtime, w: World, j: nat) {
    j < |w.slots| && exists id | id in w.markers :: Says(c, w.slots[j].content, Some(id))
  }

  /**
   * The pre-check goes by the serializer's id: a worker that has checked a record goes on to handle it exactly
   * when no record effected so far has the same id, and otherwise acknowledges it unhandled.
   */
  lemma PrecheckIsById(c: Runtime, evs: seq<Event>, x: nat, now: nat, id: string)
    requires var w := Run(c, evs);
             x in w.workers && w.workers[x].slot < |w.slots| && w.workers[x].pc == Checking
             && Says(c, w.slots[w.workers[x].slot].content, Some(id))
    ensures var w, w' := Run(c, evs), Run(c, evs + [Advance(x, Done, now)]);
            && x in w'.workers && w' == w.(workers := w'.workers)
            && w'.workers[x].pc ==
               if exists j: nat :: IsEffected(c, w, j) && Says(c, w.slots[j].content, Some(id)) then Acking
                   else Handling
  {
    var w := Run(c, evs);
    RunSnoc(c, evs, Advance(x, Done, now));
    IdIsTheSerializers(c, w.slots[w.workers[x].slot].content, Some(id));
    EffectedById(c, evs, id);
  }

  lemma EffectedById(c: Runtime, evs: seq<Event>, id: string)
    ensures var w := Run(c, evs);
            id in w.markers <==> exists j: nat :: IsEffected(c, w, j) && Says(c, w.slots[j].content, Some(id))
  {
    var w := Run(c, evs);
    AllAreNamed(c, evs);
    if id in w.markers {
      assert Named(c, w, id);
      var j :| 0 <= j < |w.slots| && Says(c, w.slots[j].content, Some(id));
      assert IsEffected(c, w, j);
    }
    forall j: nat | IsEffected(c, w, j) && Says(c, w.slots[j].content, Some(id)) ensures id in w.markers {
      var other :| other in w.markers && Says(c, w.slots[j].content, Some(other));
      IdIsTheSerializers(c, w.slots[j].content, Some(id));
      IdIsTheSerializers(c, w.slots[j].content, Some(other));
    }
  }
}
