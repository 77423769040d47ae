/** What a delivery means: every result is handed back once per successful stamp, and an attempt that
    fails takes nothing out of the queue. */
module ChildWakeupDelivery {
  import opened ChildWakeup
  import opened ChildWakeupSlots
  import opened ChildWakeupLedger

  // ----- what it means for a child -------------------------------------------------------

  /** A child in the batches of two successful sends was not stamped after the first; so if every
      stamp is written, no result is handed back twice, over any run. */
  lemma HandedBackAtMostOnce(run: seq<Service>, i: nat, j: nat, k: nat, id: string)
    requires IsRun(run) && i < |run| && j < k < |run[i].deliveries|
    requires id in run[i].deliveries[j].batch && id in run[i].deliveries[k].batch
    ensures id in run[i].deliveries[j].failed
  {
    RunBooks(run, i);
  }

  /** A row is reported only if the store already said so at the start, or a successful send of its
      conversation held it and its stamp was written. Conversely such a child is never owed again. */
  lemma ReportedExactlyByDelivery(run: seq<Service>, i: nat, r: Row)
    requires IsRun(run) && i < |run| && r in run[i].rows && !(r.reported && r in run[0].rows)
    ensures r.reported <==> exists d :: d in run[i].deliveries && HandedBack(d, r)
  {
    RunBooks(run, i);
    var s := run[i];
    if d :| d in s.deliveries && HandedBack(d, r) {
      assert !Owes(s.rows, r.id, r.conversation);
    }
  }

  /** One step takes a child out of the queue of its conversation only by a successful send of a batch
      that held it, and with its stamp written. Every other outcome of an attempt - the store could not
      be read, the conversation is missing or archived, the send failed - leaves it there. */
  lemma LeavesQueueOnlyByDelivery(s: Service, e: Event, id: string, conversation: string)
    requires SlotsOk(s) && BatchesOk(s.rows, s.windows) && DistinctRows(s.rows) && Enabled(s, e)
    requires id in Unreported(s.rows, conversation)
    ensures var s' := Apply(s, e);
            || (id in Unreported(s'.rows, conversation) && s.deliveries <= s'.deliveries)
            || (&& e.SendReturned? && e.result.Delivered?
                && s'.deliveries == s.deliveries
                                    + [Delivery(conversation, s.windows[e.t].phase.batch, s.now, e.result.failed)]
                && HandedBack(s'.deliveries[|s.deliveries|], Row(id, conversation, true)))
  {
    var s' := Apply(s, e);
    UnreportedExact(s.rows, conversation);
    assert Owes(s.rows, id, conversation);
    StepRows(s, e);
    if e.SendReturned? && e.result.Delivered? {
      var w := s.windows[e.t];
      var ids := ToSet(w.phase.batch) - e.result.failed;
      assert BatchOk(s.rows, w);
      StampDistinct(s.rows, ids);
      UnreportedExact(s'.rows, conversation);
      StampRow(s.rows, ids, Row(id, conversation, false));
      if id in ids {
        OwedToOne(s.rows, id, conversation, w.conversation);
      }
    } else {
      assert DistinctRows(s'.rows);
      UnreportedExact(s'.rows, conversation);
    }
  }

  /** What a step does to the store and to the list of deliveries. */
  lemma StepRows(s: Service, e: Event)
    requires Enabled(s, e)
    ensures var s' := Apply(s, e);
            match e {
              case ChildSettled(row) => s'.rows == s.rows + [row] && s'.deliveries == s.deliveries
              case SendReturned(t, result) => s' == SendEnds(s, t, result)
              case _ => s'.rows == s.rows && s'.deliveries == s.deliveries
            }
  {
    match e
    case ScheduleCalled(child, conversation) => ScheduleOnly(s, child, conversation);
    case RearmCalled => RearmOnly(s, s.rows);
    case CallbackRuns(t) =>
      var freed := Freed(s, t);
      EnsureAllOnly(freed, freed.pending);
    case _ =>
  }

  /** Over any run: a child owed to its conversation stays in every later query, through failures,
      shutdown and all, until a successful send hands it back. */
  lemma {:induction false} StaysInQueue(run: seq<Service>, i: nat, j: nat, id: string, conversation: string)
    requires IsRun(run) && i <= j < |run|
    requires id in Unreported(run[i].rows, conversation)
    ensures run[i].deliveries <= run[j].deliveries
    ensures || id in Unreported(run[j].rows, conversation)
            || exists k :: |run[i].deliveries| <= k < |run[j].deliveries|
                           && HandedBack(run[j].deliveries[k], Row(id, conversation, true))
    decreases j - i
  {
    hide Books, Apply, Enabled, Unreported, HandedBack;
    if i < j {
      StaysInQueue(run, i, j - 1, id, conversation);
      RunBooks(run, j - 1);
      assert Step(run[j - 1], run[j - 1 + 1]);
      var e :| Enabled(run[j - 1], e) && run[j] == Apply(run[j - 1], e);
      DeliveriesGrow(run[j - 1], e);
      if id in Unreported(run[j - 1].rows, conversation) {
        StaysOneStep(run[j - 1], e, run[0].rows, id, conversation);
      } else {
        var k :| |run[i].deliveries| <= k < |run[j - 1].deliveries|
            && HandedBack(run[j - 1].deliveries[k], Row(id, conversation, true));
        assert run[j].deliveries[k] == run[j - 1].deliveries[k];
      }
    }
  }

  lemma StaysOneStep(s: Service, e: Event, start: seq<Row>, id: string, conversation: string)
    requires Books(s, start) && Enabled(s, e) && id in Unreported(s.rows, conversation)
    ensures var s' := Apply(s, e);
            id in Unreported(s'.rows, conversation)
            || (&& |s.deliveries| < |s'.deliveries|
                && HandedBack(s'.deliveries[|s.deliveries|], Row(id, conversation, true)))
  {
    LeavesQueueOnlyByDelivery(s, e, id, conversation);
  }

  lemma DeliveriesGrow(s: Service, e: Event)
    requires Enabled(s, e)
    ensures s.deliveries <= Apply(s, e).deliveries
  {
    StepRows(s, e);
  }
}
