/** Exactly what scheduling, re-arming and querying do. */
module ChildWakeupCalls {
  import opened ChildWakeup
  import opened ChildWakeupSlots
  import opened ChildWakeupLedger
  import opened ChildWakeupPromises
  import opened ChildWakeupRuntime

  // ----- scheduling ----------------------------------------------------------------------

  /** Only an open service takes a call, and only one that names a child and a conversation. */
  predicate Takes(s: Service, child: string, conversation: string) {
    s.enabled && !s.closed && child != "" && conversation != ""
  }

  /** A call that is not taken changes nothing. One that is adds this child to what is pending and nothing
      else; it starts a window exactly if the conversation has none, a slot is free and tasks are accepted,
      and that window merges from now on. */
  lemma ScheduleExactly(s: Service, child: string, conversation: string)
    requires DistinctPending(s.pending)
    ensures var s' := Schedule(s, child, conversation);
            if !Takes(s, child, conversation) then s' == s
            else
              && (forall c, x :: PendingFor(s'.pending, c, x) <==>
                    PendingFor(s.pending, c, x) || (c == conversation && x == child))
              && s'.rows == s.rows && s'.deliveries == s.deliveries && s'.lastDelivery == s.lastDelivery
              && s'.now == s.now
              && if conversation !in s.inflight && |s.inflight| < s.cap && s.supervisorOpen
                 then && s'.windows == s.windows + [Window(conversation, Merging(s.now + s.mergeWindow))]
                      && s'.inflight == s.inflight[conversation := |s.windows|]
                 else s'.windows == s.windows && s'.inflight == s.inflight
  {
    if Takes(s, child, conversation) {
      AddsOnly(s.pending, conversation, child);
      hide PendingFor, AddPending;
    }
  }

  lemma AddsOnly(pending: seq<Pending>, conversation: string, child: string)
    requires DistinctPending(pending)
    ensures var p' := AddPending(pending, conversation, child);
            forall c, x :: PendingFor(p', c, x) <==> PendingFor(pending, c, x) || (c == conversation && x == child)
  {
    var p' := AddPending(pending, conversation, child);
    AddPendingRemembers(pending, conversation, child);
    forall c, x | PendingFor(p', c, x) ensures PendingFor(pending, c, x) || (c == conversation && x == child) {
      var p :| p in p' && p.conversation == c && x in p.children;
      var k :| 0 <= k < |p'| && p'[k] == p;
      if k < |pending| {
        assert pending[k] in pending;
      }
    }
  }

  // ----- re-arming -----------------------------------------------------------------------

  /** The row names a child that was not handed back. */
  predicate Due(rows: seq<Row>, conversation: string, child: string) {
    Row(child, conversation, false) in rows && child != "" && conversation != ""
  }

  /** Re-arming makes pending what was so before, and what is due by the store, and nothing else. */
  lemma {:induction false} RearmExactly(s: Service, rows: seq<Row>)
    requires DistinctPending(s.pending)
    ensures var s' := Rearm(s, rows);
            if !s.enabled || s.closed then s' == s
            else forall c, x :: PendingFor(s'.pending, c, x) <==> PendingFor(s.pending, c, x) || Due(rows, c, x)
    decreases |rows|
  {
    hide Schedule, PendingFor, DistinctPending;
    if rows == [] {
    } else {
      var row := rows[0];
      var next := if row.reported then s else Schedule(s, row.id, row.conversation);
      ScheduleExactly(s, row.id, row.conversation);
      ScheduleKeepsDistinct(s, row.id, row.conversation);
      ScheduleOnly(s, row.id, row.conversation);
      RearmExactly(next, rows[1..]);
      assert rows == [row] + rows[1..];
    }
  }

  lemma ScheduleKeepsDistinct(s: Service, child: string, conversation: string)
    requires DistinctPending(s.pending)
    ensures DistinctPending(Schedule(s, child, conversation).pending)
  {
    AddPendingOk(s.pending, conversation, child);
  }

  /** The conversations counted are those of the children due. */
  lemma {:induction false} ConversationsExactly(rows: seq<Row>)
    ensures forall c :: c in Conversations(rows) <==> exists x :: Due(rows, c, x)
  {
    if rows != [] {
      ConversationsExactly(rows[1..]);
      assert rows == [rows[0]] + rows[1..];
      forall c ensures c in Conversations(rows) <==> exists x :: Due(rows, c, x) {
        if x :| Due(rows[1..], c, x) {
          assert Due(rows, c, x);
        }
        if !rows[0].reported && c == rows[0].conversation != "" && rows[0].id != "" {
          assert Due(rows, c, rows[0].id);
        }
        if x :| Due(rows, c, x) {
          assert Due(rows[1..], c, x) || Row(x, c, false) == rows[0];
        }
      }
    } else {
      assert forall c, x :: !Due([], c, x);
    }
  }

  // ----- the queue -----------------------------------------------------------------------

  /** The queue keeps the order in which children settled. */
  lemma {:induction false} QueueInOrder(rows: seq<Row>, row: Row, conversation: string)
    ensures Unreported([], conversation) == []
    ensures Unreported(rows + [row], conversation) ==
            Unreported(rows, conversation) + if row.conversation == conversation && !row.reported then [row.id] else []
  {
    if rows == [] {
      assert [] + [row] == [row] && [row][1..] == [];
    } else {
      QueueInOrder(rows[1..], row, conversation);
      assert (rows + [row])[1..] == rows[1..] + [row];
    }
  }
}
