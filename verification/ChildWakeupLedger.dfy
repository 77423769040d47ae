/** The books behind delivery: what the store owes each conversation, what the windows hold in their
    hands, and what was handed back. Every step keeps them. */
module ChildWakeupLedger {
  import opened ChildWakeup
  import opened ChildWakeupSlots

  /** The row is in the store and was not handed back yet. */
  predicate Owes(rows: seq<Row>, id: string, conversation: string) {
    Row(id, conversation, false) in rows
  }

  predicate NoDuplicates(ids: seq<string>) {
    forall i, j :: 0 <= i < j < |ids| ==> ids[i] != ids[j]
  }

  /** The queue of a conversation is exactly what the store owes it, each child once. */
  lemma {:induction false} UnreportedExact(rows: seq<Row>, conversation: string)
    requires DistinctRows(rows)
    ensures forall id :: id in Unreported(rows, conversation) <==> Owes(rows, id, conversation)
    ensures NoDuplicates(Unreported(rows, conversation))
  {
    if rows != [] {
      UnreportedExact(rows[1..], conversation);
      assert rows == [rows[0]] + rows[1..];
      var rest := Unreported(rows[1..], conversation);
      assert forall k :: 0 <= k < |rows| - 1 ==> rows[1..][k] == rows[k + 1];
      assert rows[0].id !in rest by {
        assert !Owes(rows[1..], rows[0].id, conversation);
      }
    }
  }

  // ----- what a delivery has done --------------------------------------------------------

  /** The batch in a window's hands is owed to its conversation. */
  ghost predicate BatchOk(rows: seq<Row>, w: Window) {
    w.phase.Sending? ==>
      NoDuplicates(w.phase.batch) && forall id :: id in w.phase.batch ==> Owes(rows, id, w.conversation)
  }

  ghost predicate BatchesOk(rows: seq<Row>, windows: seq<Window>) {
    forall t :: 0 <= t < |windows| ==> BatchOk(rows, windows[t])
  }

  /** The row stands in the batch of delivery `d`, and its stamp was written. */
  predicate HandedBack(d: Delivery, r: Row) {
    d.conversation == r.conversation && r.id in d.batch && r.id !in d.failed
  }

  /** A row is reported only because it came so, or because a delivery handed it back. */
  ghost predicate ReportsJustified(rows: seq<Row>, deliveries: seq<Delivery>, start: seq<Row>) {
    forall r :: r in rows && r.reported ==> r in start || exists d :: d in deliveries && HandedBack(d, r)
  }

  /** A child whose stamp was written is owed to nobody any more. */
  ghost predicate StampsStand(rows: seq<Row>, deliveries: seq<Delivery>) {
    forall d, id :: d in deliveries && id in d.batch && id !in d.failed ==> forall c :: !Owes(rows, id, c)
  }

  /** A child in two batches failed to be stamped after the first. */
  ghost predicate HandedBackOnce(deliveries: seq<Delivery>) {
    && (forall k :: 0 <= k < |deliveries| ==> NoDuplicates(deliveries[k].batch))
    && (forall j, k, id :: 0 <= j < k < |deliveries| && id in deliveries[j].batch && id in deliveries[k].batch ==>
          id in deliveries[j].failed)
  }

  ghost predicate Ledger(s: Service, start: seq<Row>) {
    && DistinctRows(s.rows) && BatchesOk(s.rows, s.windows)
    && ReportsJustified(s.rows, s.deliveries, start) && StampsStand(s.rows, s.deliveries)
    && HandedBackOnce(s.deliveries)
  }

  lemma StampRow(rows: seq<Row>, ids: set<string>, r: Row)
    ensures r in Stamp(rows, ids) && !r.reported ==> r in rows && r.id !in ids
    ensures r in rows && (r.reported || r.id !in ids) ==> r in Stamp(rows, ids)
    ensures r in Stamp(rows, ids) && r.reported ==> r in rows || (Owes(rows, r.id, r.conversation) && r.id in ids)
  {
    var stamped := Stamp(rows, ids);
    if r in stamped {
      var i :| 0 <= i < |rows| && stamped[i] == r;
      assert rows[i] in rows;
    }
    if r in rows {
      var i :| 0 <= i < |rows| && rows[i] == r;
      assert stamped[i] in stamped;
    }
  }

  lemma StampDistinct(rows: seq<Row>, ids: set<string>)
    requires DistinctRows(rows)
    ensures DistinctRows(Stamp(rows, ids))
  {
    var stamped := Stamp(rows, ids);
    assert forall i :: 0 <= i < |rows| ==> stamped[i].id == rows[i].id;
  }

  /** With distinct ids a child is owed to one conversation only. */
  lemma OwedToOne(rows: seq<Row>, id: string, a: string, b: string)
    requires DistinctRows(rows) && Owes(rows, id, a) && Owes(rows, id, b)
    ensures a == b
  {
    var i :| 0 <= i < |rows| && rows[i] == Row(id, a, false);
    var j :| 0 <= j < |rows| && rows[j] == Row(id, b, false);
  }

  /** Stamping the batch of one conversation takes nothing out of the hands of another. */
  lemma StampKeepsBatches(s: Service, t: nat, ids: set<string>)
    requires DistinctRows(s.rows) && BatchesOk(s.rows, s.windows) && WindowsOk(s)
    requires t < |s.windows| && s.windows[t].phase.Sending?
    requires forall id :: id in ids ==> id in s.windows[t].phase.batch
    ensures BatchesOk(Stamp(s.rows, ids), s.windows[t := s.windows[t].(phase := Finished)])
  {
    var rows' := Stamp(s.rows, ids);
    var windows' := s.windows[t := s.windows[t].(phase := Finished)];
    assert BatchOk(s.rows, s.windows[t]);
    forall u | 0 <= u < |windows'| ensures BatchOk(rows', windows'[u]) {
      if u != t && s.windows[u].phase.Sending? {
        assert BatchOk(s.rows, s.windows[u]);
        assert s.windows[u].conversation != s.windows[t].conversation;
        forall id | id in s.windows[u].phase.batch ensures Owes(rows', id, s.windows[u].conversation) {
          if id in ids {
            OwedToOne(s.rows, id, s.windows[u].conversation, s.windows[t].conversation);
            assert false;
          }
          StampRow(s.rows, ids, Row(id, s.windows[u].conversation, false));
        }
      }
    }
  }

  lemma StampJustified(rows: seq<Row>, deliveries: seq<Delivery>, d: Delivery, start: seq<Row>)
    requires DistinctRows(rows) && ReportsJustified(rows, deliveries, start)
    requires forall id :: id in d.batch ==> Owes(rows, id, d.conversation)
    ensures ReportsJustified(Stamp(rows, ToSet(d.batch) - d.failed), deliveries + [d], start)
  {
    var ids := ToSet(d.batch) - d.failed;
    forall r | r in Stamp(rows, ids) && r.reported
      ensures r in start || exists e :: e in deliveries + [d] && HandedBack(e, r)
    {
      StampRow(rows, ids, r);
      if r in rows && r !in start {
        var e :| e in deliveries && HandedBack(e, r);
        assert e in deliveries + [d];
      } else if r !in rows {
        OwedToOne(rows, r.id, r.conversation, d.conversation);
        assert d in deliveries + [d] && HandedBack(d, r);
      }
    }
  }

  lemma StampsStandAfter(rows: seq<Row>, deliveries: seq<Delivery>, d: Delivery)
    requires StampsStand(rows, deliveries)
    ensures StampsStand(Stamp(rows, ToSet(d.batch) - d.failed), deliveries + [d])
  {
    var ids := ToSet(d.batch) - d.failed;
    forall e, id, c | e in deliveries + [d] && id in e.batch && id !in e.failed ensures !Owes(Stamp(rows, ids), id, c) {
      StampRow(rows, ids, Row(id, c, false));
      if e in deliveries {
        assert !Owes(rows, id, c);
      }
    }
  }

  lemma OnceMore(rows: seq<Row>, deliveries: seq<Delivery>, d: Delivery)
    requires HandedBackOnce(deliveries) && StampsStand(rows, deliveries) && NoDuplicates(d.batch)
    requires forall id :: id in d.batch ==> Owes(rows, id, d.conversation)
    ensures HandedBackOnce(deliveries + [d])
  {
    var all := deliveries + [d];
    forall j, k, id | 0 <= j < k < |all| && id in all[j].batch && id in all[k].batch ensures id in all[j].failed {
      if k == |deliveries| {
        assert all[j] in deliveries && Owes(rows, id, d.conversation);
      }
    }
  }

  lemma SendEndsLedger(s: Service, t: nat, result: SendResult, start: seq<Row>)
    requires Ledger(s, start) && WindowsOk(s) && t < |s.windows| && s.windows[t].phase.Sending?
    ensures Ledger(SendEnds(s, t, result), start)
  {
    var w := s.windows[t];
    hide ReportsJustified, StampsStand, HandedBackOnce, WindowsOk, DistinctRows;
    assert BatchOk(s.rows, w);
    match result
    case NotDelivered =>
    case Delivered(failed) =>
      var d := Delivery(w.conversation, w.phase.batch, s.now, failed);
      StampDistinct(s.rows, ToSet(d.batch) - failed);
      StampKeepsBatches(s, t, ToSet(d.batch) - failed);
      StampJustified(s.rows, s.deliveries, d, start);
      StampsStandAfter(s.rows, s.deliveries, d);
      OnceMore(s.rows, s.deliveries, d);
  }

  lemma TakeBatchLedger(s: Service, t: nat, lookup: Lookup, start: seq<Row>)
    requires Ledger(s, start) && t < |s.windows|
    ensures Ledger(TakeBatch(s, t, lookup), start)
  {
    hide ReportsJustified, StampsStand, HandedBackOnce;
    UnreportedExact(s.rows, s.windows[t].conversation);
    var s' := TakeBatch(s, t, lookup);
    forall u | 0 <= u < |s'.windows| ensures BatchOk(s'.rows, s'.windows[u]) {
      assert BatchOk(s.rows, s.windows[u]);
    }
  }

  lemma SettledLedger(s: Service, row: Row, start: seq<Row>)
    requires Ledger(s, start) && !row.reported && forall r :: r in s.rows ==> r.id != row.id
    requires forall d, id :: d in s.deliveries && id in d.batch ==> id != row.id
    ensures Ledger(s.(rows := s.rows + [row]), start)
  {
    var s' := s.(rows := s.rows + [row]);
    hide HandedBackOnce;
    forall u | 0 <= u < |s'.windows| ensures BatchOk(s'.rows, s'.windows[u]) {
      assert BatchOk(s.rows, s.windows[u]);
    }
    forall d, id, c | d in s.deliveries && id in d.batch && id !in d.failed ensures !Owes(s'.rows, id, c) {
      assert !Owes(s.rows, id, c);
    }
  }

  /** Every delivered child has its row. */
  ghost predicate Known(s: Service) {
    && (forall d, id :: d in s.deliveries && id in d.batch ==> HasRow(s.rows, id))
  }

  predicate HasRow(rows: seq<Row>, id: string) {
    exists r :: r in rows && r.id == id
  }

  lemma HasRowKept(rows: seq<Row>, rows': seq<Row>, id: string)
    requires HasRow(rows, id)
    requires |rows| <= |rows'| && forall i :: 0 <= i < |rows| ==> rows'[i].id == rows[i].id
    ensures HasRow(rows', id)
  {
    var r :| r in rows && r.id == id;
    var i :| 0 <= i < |rows| && rows[i] == r;
    assert rows'[i] in rows';
  }

  // ----- scheduling does not touch the ledger --------------------------------------------

  /** The step only started windows and recorded pending children. */
  ghost predicate OnlySchedules(s: Service, s': Service) {
    && s' == s.(windows := s'.windows, inflight := s'.inflight, pending := s'.pending, log := s'.log)
    && |s.windows| <= |s'.windows| && s'.windows[..|s.windows|] == s.windows
    && (forall t :: |s.windows| <= t < |s'.windows| ==> s'.windows[t].phase.Merging?)
  }

  lemma OnlySchedulesTrans(a: Service, b: Service, c: Service)
    requires OnlySchedules(a, b) && OnlySchedules(b, c)
    ensures OnlySchedules(a, c)
  {
    assert c.windows[..|a.windows|] == c.windows[..|b.windows|][..|a.windows|];
  }

  lemma ScheduleOnly(s: Service, child: string, conversation: string)
    ensures OnlySchedules(s, Schedule(s, child, conversation))
  {
  }

  lemma {:induction false} RearmOnly(s: Service, rows: seq<Row>)
    ensures OnlySchedules(s, Rearm(s, rows))
    decreases |rows|
  {
    hide OnlySchedules;
    if rows == [] {
      assert OnlySchedules(s, s) by { OnlySchedulesSame(s); }
    } else {
      var next := if rows[0].reported then s else Schedule(s, rows[0].id, rows[0].conversation);
      ScheduleOnly(s, rows[0].id, rows[0].conversation);
      OnlySchedulesSame(s);
      RearmOnly(next, rows[1..]);
      OnlySchedulesTrans(s, next, Rearm(s, rows));
    }
  }

  lemma OnlySchedulesSame(s: Service)
    ensures OnlySchedules(s, s)
  {
  }

  lemma {:induction false} EnsureAllOnly(s: Service, list: seq<Pending>)
    ensures OnlySchedules(s, EnsureAll(s, list))
    decreases |list|
  {
    if list == [] {
      OnlySchedulesSame(s);
    } else {
      var next := EnsureWindow(s, list[0].conversation);
      assert OnlySchedules(s, next);
      EnsureAllOnly(next, list[1..]);
      OnlySchedulesTrans(s, next, EnsureAll(s, list));
    }
  }

  // ----- every step keeps the ledger -----------------------------------------------------

  ghost predicate Books(s: Service, start: seq<Row>) {
    SlotsOk(s) && Ledger(s, start) && Known(s)
  }

  lemma OnlySchedulesLedger(s: Service, s': Service, start: seq<Row>)
    requires Ledger(s, start) && Known(s) && OnlySchedules(s, s')
    ensures Ledger(s', start) && Known(s')
  {
    hide ReportsJustified, StampsStand, HandedBackOnce, DistinctRows;
    forall u | 0 <= u < |s'.windows| ensures BatchOk(s'.rows, s'.windows[u]) {
      if u < |s.windows| {
        assert s'.windows[..|s.windows|][u] == s.windows[u];
        assert BatchOk(s.rows, s.windows[u]);
      }
    }
  }

  lemma QuietLedger(s: Service, t: nat, phase: Phase, start: seq<Row>)
    requires Ledger(s, start) && Known(s) && t < |s.windows| && !phase.Sending?
    ensures Ledger(SetPhase(s, t, phase), start) && Known(SetPhase(s, t, phase))
  {
    hide ReportsJustified, StampsStand, HandedBackOnce, DistinctRows;
    var s' := SetPhase(s, t, phase);
    forall u | 0 <= u < |s'.windows| ensures BatchOk(s'.rows, s'.windows[u]) {
      assert BatchOk(s.rows, s.windows[u]);
    }
  }

  lemma SendEndsKnown(s: Service, t: nat, result: SendResult, start: seq<Row>)
    requires Ledger(s, start) && Known(s) && t < |s.windows| && s.windows[t].phase.Sending?
    ensures Known(SendEnds(s, t, result))
  {
    var s' := SendEnds(s, t, result);
    assert BatchOk(s.rows, s.windows[t]);
    forall d, id | d in s'.deliveries && id in d.batch ensures HasRow(s'.rows, id) {
      if d !in s.deliveries {
        assert Owes(s.rows, id, s.windows[t].conversation);
      }
      assert HasRow(s.rows, id);
      HasRowKept(s.rows, s'.rows, id);
    }
  }

  lemma ChildSettledBooks(s: Service, row: Row, start: seq<Row>)
    requires Ledger(s, start) && Known(s) && !row.reported && forall r :: r in s.rows ==> r.id != row.id
    ensures Ledger(s.(rows := s.rows + [row]), start) && Known(s.(rows := s.rows + [row]))
  {
    forall d, id | d in s.deliveries && id in d.batch ensures id != row.id {
      assert HasRow(s.rows, id);
    }
    SettledLedger(s, row, start);
    forall d, id | d in s.deliveries && id in d.batch ensures HasRow(s.rows + [row], id) {
      HasRowKept(s.rows, s.rows + [row], id);
    }
  }

  lemma CallbackLedger(s: Service, t: nat, start: seq<Row>)
    requires Ledger(s, start) && Known(s) && t < |s.windows|
    ensures Ledger(WindowDone(s, t), start) && Known(WindowDone(s, t))
  {
    hide Ledger, Known, OnlySchedules;
    var released := s.(inflight := s.inflight - {s.windows[t].conversation});
    assert Ledger(released, start) && Known(released) by { ReleaseLedger(s, released, start); }
    QuietLedger(released, t, Gone, start);
    var freed := SetPhase(released, t, Gone);
    OnlySchedulesSame(freed);
    EnsureAllOnly(freed, freed.pending);
    OnlySchedulesLedger(freed, WindowDone(s, t), start);
  }

  lemma ReleaseLedger(s: Service, s': Service, start: seq<Row>)
    requires Ledger(s, start) && Known(s)
    requires s' == s.(inflight := s'.inflight, pending := s'.pending, now := s'.now, closed := s'.closed,
                      supervisorOpen := s'.supervisorOpen)
    ensures Ledger(s', start) && Known(s')
  {
  }

  lemma MergeOverLedger(s: Service, t: nat, lookup: Lookup, start: seq<Row>)
    requires Ledger(s, start) && Known(s) && t < |s.windows|
    ensures Ledger(MergeOver(s, t, lookup), start) && Known(MergeOver(s, t, lookup))
    ensures Ledger(TakeBatch(s, t, lookup), start) && Known(TakeBatch(s, t, lookup))
  {
    var c := s.windows[t].conversation;
    TakeBatchLedger(s, t, lookup, start);
    hide Ledger;
    if MergeOver(s, t, lookup) != TakeBatch(s, t, lookup) {
      QuietLedger(s, t, Throttled(s.now + (s.throttle - (s.now - s.lastDelivery[c]))), start);
    }
  }

  lemma StepBooks(s: Service, e: Event, start: seq<Row>)
    requires Books(s, start) && Enabled(s, e)
    ensures Books(Apply(s, e), start)
  {
    var s' := Apply(s, e);
    StepSlots(s, e);
    hide SlotsOk, Ledger, Known, OnlySchedules, Schedule, Rearm, WindowDone, MergeOver, TakeBatch, SendEnds;
    match e
    case ChildSettled(row) => ChildSettledBooks(s, row, start);
    case ScheduleCalled(child, conversation) =>
      ScheduleOnly(s, child, conversation);
      OnlySchedulesLedger(s, s', start);
    case RearmCalled =>
      RearmOnly(s, s.rows);
      OnlySchedulesLedger(s, s', start);
    case TimePasses(_) => ReleaseLedger(s, s', start);
    case MergeElapsed(t, lookup) => MergeOverLedger(s, t, lookup, start);
    case ThrottleElapsed(t, lookup) => MergeOverLedger(s, t, lookup, start);
    case SendReturned(t, result) =>
      SlotsWindows(s);
      SendEndsLedger(s, t, result, start);
      SendEndsKnown(s, t, result, start);
    case CallbackRuns(t) => CallbackLedger(s, t, start);
    case SupervisorCloses => ReleaseLedger(s, s', start);
    case ShutdownBegins => ReleaseLedger(s, s', start);
    case WindowCancelled(t) => QuietLedger(s, t, Finished, start);
    case ShutdownEnds => ReleaseLedger(s, s', start);
  }

  lemma SlotsWindows(s: Service)
    requires SlotsOk(s)
    ensures WindowsOk(s)
  {
  }

  lemma {:induction false} RunBooks(run: seq<Service>, i: nat)
    requires IsRun(run) && i < |run|
    ensures Books(run[i], run[0].rows)
  {
    if i == 0 {
      InitSlots(run[0]);
    } else {
      RunBooks(run, i - 1);
      hide Books;
      assert Step(run[i - 1], run[i - 1 + 1]);
      var e :| Enabled(run[i - 1], e) && run[i] == Apply(run[i - 1], e);
      StepBooks(run[i - 1], e, run[0].rows);
    }
  }
}
