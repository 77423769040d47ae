/** No wakeup is lost, and none comes too soon. */
module ChildWakeupPromises {
  import opened ChildWakeup
  import opened ChildWakeupSlots
  import opened ChildWakeupLedger

  // ----- no lost wakeup ------------------------------------------------------------------

  predicate PendingFor(pending: seq<Pending>, conversation: string, child: string) {
    exists p :: p in pending && p.conversation == conversation && child in p.children
  }

  predicate QueriedSince(log: seq<LogEntry>, k: nat, conversation: string) {
    exists j :: k < j < |log| && log[j] == Queried(conversation)
  }

  /** Every scheduled child is pending still, or its conversation was queried later. */
  ghost predicate NoneLost(pending: seq<Pending>, log: seq<LogEntry>) {
    forall k :: 0 <= k < |log| && log[k].Scheduled? ==>
      PendingFor(pending, log[k].conversation, log[k].child) || QueriedSince(log, k, log[k].conversation)
  }

  ghost predicate Remembers(s: Service) {
    DistinctPending(s.pending) && (!s.closed ==> NoneLost(s.pending, s.log))
  }

  /** What was pending is pending, or was just queried. */
  lemma NoneLostLater(pending: seq<Pending>, log: seq<LogEntry>, pending': seq<Pending>, entry: LogEntry)
    requires NoneLost(pending, log)
    requires forall c, x :: PendingFor(pending, c, x) ==> PendingFor(pending', c, x) || entry == Queried(c)
    requires entry.Scheduled? ==> PendingFor(pending', entry.conversation, entry.child)
    ensures NoneLost(pending', log + [entry])
  {
    var log' := log + [entry];
    forall k | 0 <= k < |log'| && log'[k].Scheduled?
      ensures PendingFor(pending', log'[k].conversation, log'[k].child) || QueriedSince(log', k, log'[k].conversation)
    {
      if k < |log| {
        assert log'[k] == log[k];
        if QueriedSince(log, k, log[k].conversation) {
          var j :| k < j < |log| && log[j] == Queried(log[k].conversation);
          assert log'[j] == log[j];
        } else if entry == Queried(log[k].conversation) {
          assert log'[|log|] == entry;
        }
      }
    }
  }

  lemma AddPendingRemembers(pending: seq<Pending>, conversation: string, child: string)
    requires DistinctPending(pending)
    ensures var p' := AddPending(pending, conversation, child);
            && DistinctPending(p') && PendingFor(p', conversation, child)
            && forall c, x :: PendingFor(pending, c, x) ==> PendingFor(p', c, x)
  {
    var p' := AddPending(pending, conversation, child);
    AddPendingOk(pending, conversation, child);
    forall c, x | PendingFor(pending, c, x) ensures PendingFor(p', c, x) {
      var p :| p in pending && p.conversation == c && x in p.children;
      var q :| q in p' && q.conversation == p.conversation && p.children <= q.children;
    }
  }

  lemma ScheduleRemembers(s: Service, child: string, conversation: string)
    requires Remembers(s)
    ensures var s' := Schedule(s, child, conversation);
            && Remembers(s')
            && (s.enabled && !s.closed && child != "" && conversation != "" ==>
                  PendingFor(s'.pending, conversation, child))
            && forall c, x :: PendingFor(s.pending, c, x) ==> PendingFor(s'.pending, c, x)
  {
    var s' := Schedule(s, child, conversation);
    if s.enabled && !s.closed && child != "" && conversation != "" {
      AddPendingRemembers(s.pending, conversation, child);
      NoneLostLater(s.pending, s.log, s'.pending, Scheduled(conversation, child));
    }
  }

  lemma {:induction false} RearmRemembers(s: Service, rows: seq<Row>)
    requires Remembers(s)
    ensures var s' := Rearm(s, rows);
            && Remembers(s')
            && (forall c, x :: PendingFor(s.pending, c, x) ==> PendingFor(s'.pending, c, x))
            && (s.enabled && !s.closed ==>
                  forall r :: r in rows && !r.reported && r.id != "" && r.conversation != "" ==>
                      PendingFor(s'.pending, r.conversation, r.id))
    decreases |rows|
  {
    hide Remembers, PendingFor;
    if rows != [] {
      var next := if rows[0].reported then s else Schedule(s, rows[0].id, rows[0].conversation);
      ScheduleRemembers(s, rows[0].id, rows[0].conversation);
      ScheduleOnly(s, rows[0].id, rows[0].conversation);
      RearmRemembers(next, rows[1..]);
      forall r | r in rows && !r.reported && r.id != "" && r.conversation != "" && s.enabled && !s.closed
        ensures PendingFor(Rearm(s, rows).pending, r.conversation, r.id)
      {
        if r != rows[0] {
          assert r in rows[1..];
        }
      }
    }
  }

  lemma TakeBatchRemembers(s: Service, t: nat, lookup: Lookup)
    requires Remembers(s) && t < |s.windows|
    ensures Remembers(TakeBatch(s, t, lookup))
  {
    var c := s.windows[t].conversation;
    var popped := PopPending(s.pending, c);
    PopPendingOk(s.pending, c);
    if !s.closed {
      forall d, x | PendingFor(s.pending, d, x) ensures PendingFor(popped, d, x) || Queried(c) == Queried(d) {
        var p :| p in s.pending && p.conversation == d && x in p.children;
        assert d != c ==> p in popped;
      }
      NoneLostLater(s.pending, s.log, popped, Queried(c));
    }
  }

  lemma WindowDoneRemembers(s: Service, t: nat)
    requires Remembers(s) && t < |s.windows|
    ensures Remembers(WindowDone(s, t))
  {
    EnsureAllPending(Freed(s, t), s.pending);
  }

  lemma {:induction false} EnsureAllPending(s: Service, list: seq<Pending>)
    ensures var s' := EnsureAll(s, list); s'.pending == s.pending && s'.log == s.log && s'.closed == s.closed
    decreases |list|
  {
    if list != [] {
      EnsureAllPending(EnsureWindow(s, list[0].conversation), list[1..]);
    }
  }

  lemma StepRemembers(s: Service, e: Event)
    requires Remembers(s) && Enabled(s, e)
    ensures Remembers(Apply(s, e))
  {
    hide NoneLost;
    match e
    case ScheduleCalled(child, conversation) => ScheduleRemembers(s, child, conversation);
    case RearmCalled => RearmRemembers(s, s.rows);
    case MergeElapsed(t, lookup) => TakeBatchRemembers(s, t, lookup);
    case ThrottleElapsed(t, lookup) => TakeBatchRemembers(s, t, lookup);
    case CallbackRuns(t) => WindowDoneRemembers(s, t);
    case _ =>
  }

  lemma {:induction false} RunRemembers(run: seq<Service>, i: nat)
    requires IsRun(run) && i < |run|
    ensures Remembers(run[i])
  {
    if i > 0 {
      RunRemembers(run, i - 1);
      hide Remembers;
      assert Step(run[i - 1], run[i - 1 + 1]);
      var e :| Enabled(run[i - 1], e) && run[i] == Apply(run[i - 1], e);
      StepRemembers(run[i - 1], e);
    }
  }

  /** No lost wakeup: in every reachable state of a service not shut down, each scheduled child is still
      pending - and then, while tasks are accepted, its conversation has a window or all slots are taken -
      or the store was queried for its conversation after it was scheduled. */
  lemma NoWakeupLost(run: seq<Service>, i: nat, k: nat)
    requires IsRun(run) && i < |run| && !run[i].closed
    requires k < |run[i].log| && run[i].log[k].Scheduled?
    ensures var s := run[i]; var c := s.log[k].conversation;
            || QueriedSince(s.log, k, c)
            || (PendingFor(s.pending, c, s.log[k].child) && (s.Open() ==> c in s.inflight || |s.inflight| == s.cap))
  {
    RunRemembers(run, i);
    RunSlots(run, i);
  }

  /** Re-arming at start-up: afterwards every conversation with an unreported child is pending, with a
      window of its own or with all slots taken. */
  lemma RearmCovers(run: seq<Service>, i: nat, r: Row)
    requires IsRun(run) && i < |run| && run[i].Open()
    requires r in run[i].rows && !r.reported && r.id != "" && r.conversation != ""
    ensures var s := Rearm(run[i], run[i].rows);
            PendingFor(s.pending, r.conversation, r.id) && (r.conversation in s.inflight || |s.inflight| == s.cap)
  {
    RunRemembers(run, i);
    RunSlots(run, i);
    RearmRemembers(run[i], run[i].rows);
    RearmSlots(run[i], run[i].rows);
    RearmOnly(run[i], run[i].rows);
  }

  // ----- throttle ------------------------------------------------------------------------

  /** A window that got past the throttle boundary, or sleeps until it: exactly one throttle after the
      last delivery of its conversation. */
  ghost predicate PacedWindow(s: Service, w: Window) {
    && (w.phase.Sending? && w.conversation in s.lastDelivery ==> s.now >= s.lastDelivery[w.conversation] + s.throttle)
    && (w.phase.Throttled? ==>
          w.conversation in s.lastDelivery && w.phase.due == s.lastDelivery[w.conversation] + s.throttle)
  }

  ghost predicate WindowsPaced(s: Service) {
    && s.throttle >= 0.0
    && (forall c :: c in s.lastDelivery ==> s.lastDelivery[c] <= s.now)
    && (forall t :: 0 <= t < |s.windows| ==> PacedWindow(s, s.windows[t]))
  }

  ghost predicate Spaced(deliveries: seq<Delivery>, throttle: real) {
    forall j, k :: 0 <= j < k < |deliveries| && deliveries[j].conversation == deliveries[k].conversation ==>
      deliveries[k].at - deliveries[j].at >= throttle
  }

  /** The marks are the times of the last deliveries. */
  ghost predicate LastKnown(deliveries: seq<Delivery>, lastDelivery: map<string, real>) {
    && (forall d :: d in deliveries ==> d.conversation in lastDelivery && d.at <= lastDelivery[d.conversation])
    && (forall c :: c in lastDelivery ==> exists d :: d in deliveries && d.conversation == c && d.at == lastDelivery[c])
  }

  ghost predicate Paced(s: Service) {
    WindowsPaced(s) && Spaced(s.deliveries, s.throttle) && LastKnown(s.deliveries, s.lastDelivery)
  }

  /** Stamping a delivery: no other window of that conversation is on its way. */
  lemma SendEndsPaced(s: Service, t: nat, result: SendResult)
    requires Paced(s) && WindowsOk(s) && t < |s.windows| && s.windows[t].phase.Sending?
    ensures Paced(SendEnds(s, t, result))
  {
    var s' := SendEnds(s, t, result);
    assert PacedWindow(s, s.windows[t]);
    SendEndsWindows(s, t, result);
    hide WindowsOk, WindowsPaced, Spaced, LastKnown;
    if result.Delivered? {
      DeliverySpaced(s.deliveries, s.lastDelivery, s'.deliveries[|s.deliveries|], s.throttle);
      DeliveryKnown(s.deliveries, s.lastDelivery, s'.deliveries[|s.deliveries|]);
    }
  }

  lemma SendEndsWindows(s: Service, t: nat, result: SendResult)
    requires WindowsPaced(s) && WindowsOk(s) && t < |s.windows| && s.windows[t].phase.Sending?
    ensures WindowsPaced(SendEnds(s, t, result))
  {
    var s' := SendEnds(s, t, result);
    hide Stamp, SendEnds;
    SendEndsMarks(s, t, result);
    forall u | 0 <= u < |s'.windows| ensures PacedWindow(s', s'.windows[u]) {
      assert PacedWindow(s, s.windows[u]);
    }
  }

  lemma SendEndsMarks(s: Service, t: nat, result: SendResult)
    requires t < |s.windows| && s.windows[t].phase.Sending?
    ensures var s' := SendEnds(s, t, result); var c := s.windows[t].conversation;
            && s'.now == s.now && s'.throttle == s.throttle
            && s'.windows == s.windows[t := s.windows[t].(phase := Finished)]
            && s'.lastDelivery == if result.Delivered? then s.lastDelivery[c := s.now] else s.lastDelivery
  {
    hide Stamp;
  }

  lemma DeliverySpaced(deliveries: seq<Delivery>, last: map<string, real>, d: Delivery, throttle: real)
    requires Spaced(deliveries, throttle) && LastKnown(deliveries, last) && throttle >= 0.0
    requires d.conversation in last ==> d.at >= last[d.conversation] + throttle
    ensures Spaced(deliveries + [d], throttle)
  {
    var all := deliveries + [d];
    forall j, k | 0 <= j < k < |all| && all[j].conversation == all[k].conversation
      ensures all[k].at - all[j].at >= throttle
    {
      if k == |deliveries| {
        assert all[j] in deliveries;
      }
    }
  }

  lemma DeliveryKnown(deliveries: seq<Delivery>, last: map<string, real>, d: Delivery)
    requires LastKnown(deliveries, last) && (d.conversation in last ==> d.at >= last[d.conversation])
    ensures LastKnown(deliveries + [d], last[d.conversation := d.at])
  {
    var all, last' := deliveries + [d], last[d.conversation := d.at];
    forall c | c in last' ensures exists e :: e in all && e.conversation == c && e.at == last'[c] {
      if c == d.conversation {
        assert d in all;
      } else {
        var e :| e in deliveries && e.conversation == c && e.at == last[c];
        assert e in all;
      }
    }
  }

  lemma SetPhasePaced(s: Service, s': Service, t: nat, phase: Phase)
    requires WindowsPaced(s) && t < |s.windows| && s'.windows == s.windows[t := s.windows[t].(phase := phase)]
    requires s'.lastDelivery == s.lastDelivery && s'.now == s.now && s'.throttle == s.throttle
    requires PacedWindow(s, s.windows[t].(phase := phase))
    ensures WindowsPaced(s')
  {
    forall u | 0 <= u < |s'.windows| ensures PacedWindow(s', s'.windows[u]) {
      assert PacedWindow(s, s.windows[u]);
    }
  }

  lemma TakeBatchPaced(s: Service, t: nat, lookup: Lookup)
    requires WindowsPaced(s) && t < |s.windows|
    requires s.windows[t].conversation in s.lastDelivery ==>
             s.now >= s.lastDelivery[s.windows[t].conversation] + s.throttle
    ensures WindowsPaced(TakeBatch(s, t, lookup))
  {
    SetPhasePaced(s, TakeBatch(s, t, lookup), t, TakeBatch(s, t, lookup).windows[t].phase);
  }

  lemma MergeOverPaced(s: Service, t: nat, lookup: Lookup)
    requires WindowsPaced(s) && t < |s.windows|
    ensures WindowsPaced(MergeOver(s, t, lookup))
  {
    if MergeOver(s, t, lookup) == TakeBatch(s, t, lookup) {
      TakeBatchPaced(s, t, lookup);
    } else {
      SetPhasePaced(s, MergeOver(s, t, lookup), t, MergeOver(s, t, lookup).windows[t].phase);
    }
  }

  lemma OnlySchedulesPaced(s: Service, s': Service)
    requires WindowsPaced(s) && OnlySchedules(s, s')
    ensures WindowsPaced(s')
  {
    forall u | 0 <= u < |s'.windows| ensures PacedWindow(s', s'.windows[u]) {
      if u < |s.windows| {
        assert s'.windows[..|s.windows|][u] == s.windows[u];
        assert PacedWindow(s, s.windows[u]);
      }
    }
  }

  lemma CallbackPaced(s: Service, t: nat)
    requires WindowsPaced(s) && t < |s.windows|
    ensures WindowsPaced(WindowDone(s, t))
  {
    SetPhasePaced(s, Freed(s, t), t, Gone);
    OnlySchedulesSame(Freed(s, t));
    EnsureAllOnly(Freed(s, t), s.pending);
    OnlySchedulesPaced(Freed(s, t), WindowDone(s, t));
  }

  lemma TimePassesPaced(s: Service, seconds: real)
    requires WindowsPaced(s) && seconds >= 0.0
    ensures WindowsPaced(s.(now := s.now + seconds))
  {
    var s' := s.(now := s.now + seconds);
    forall u | 0 <= u < |s'.windows| ensures PacedWindow(s', s'.windows[u]) {
      assert PacedWindow(s, s.windows[u]);
    }
  }

  /** Events other than a returning send keep the deliveries and their marks. */
  lemma StepMarks(s: Service, e: Event)
    requires Enabled(s, e) && !e.SendReturned?
    ensures var s' := Apply(s, e);
            s'.deliveries == s.deliveries && s'.lastDelivery == s.lastDelivery && s'.throttle == s.throttle
  {
    hide Schedule, Rearm, TakeBatch, WindowDone, SendEnds;
    match e
    case ScheduleCalled(child, conversation) => ScheduleOnly(s, child, conversation);
    case RearmCalled => RearmOnly(s, s.rows);
    case MergeElapsed(t, lookup) => TakeBatchMarks(s, t, lookup);
    case ThrottleElapsed(t, lookup) => TakeBatchMarks(s, t, lookup);
    case CallbackRuns(t) => WindowDoneMarks(s, t);
    case _ =>
  }

  lemma TakeBatchMarks(s: Service, t: nat, lookup: Lookup)
    requires t < |s.windows|
    ensures var s' := TakeBatch(s, t, lookup);
            s'.deliveries == s.deliveries && s'.lastDelivery == s.lastDelivery && s'.throttle == s.throttle
  {
  }

  lemma WindowDoneMarks(s: Service, t: nat)
    requires t < |s.windows|
    ensures var s' := WindowDone(s, t);
            s'.deliveries == s.deliveries && s'.lastDelivery == s.lastDelivery && s'.throttle == s.throttle
  {
    EnsureAllOnly(Freed(s, t), s.pending);
  }

  lemma StepWindowsPaced(s: Service, e: Event)
    requires WindowsPaced(s) && Enabled(s, e) && !e.SendReturned?
    ensures WindowsPaced(Apply(s, e))
  {
    var s' := Apply(s, e);
    hide Schedule, Rearm, WindowDone, MergeOver, TakeBatch, OnlySchedules;
    match e
    case ChildSettled(_) => SameWindowsPaced(s, s');
    case ScheduleCalled(child, conversation) =>
      ScheduleOnly(s, child, conversation);
      OnlySchedulesPaced(s, s');
    case RearmCalled =>
      RearmOnly(s, s.rows);
      OnlySchedulesPaced(s, s');
    case TimePasses(seconds) => TimePassesPaced(s, seconds);
    case MergeElapsed(t, lookup) => MergeOverPaced(s, t, lookup);
    case ThrottleElapsed(t, lookup) =>
      assert PacedWindow(s, s.windows[t]);
      TakeBatchPaced(s, t, lookup);
    case CallbackRuns(t) => CallbackPaced(s, t);
    case SupervisorCloses => SameWindowsPaced(s, s');
    case ShutdownBegins => SameWindowsPaced(s, s');
    case WindowCancelled(t) => SetPhasePaced(s, s', t, Finished);
    case ShutdownEnds => SameWindowsPaced(s, s');
  }

  lemma SameWindowsPaced(s: Service, s': Service)
    requires WindowsPaced(s)
    requires s'.windows == s.windows && s'.lastDelivery == s.lastDelivery && s'.now == s.now
    requires s'.throttle == s.throttle
    ensures WindowsPaced(s')
  {
    forall u | 0 <= u < |s'.windows| ensures PacedWindow(s', s'.windows[u]) {
      assert PacedWindow(s, s.windows[u]);
    }
  }

  lemma StepPaced(s: Service, e: Event)
    requires SlotsOk(s) && Paced(s) && Enabled(s, e)
    ensures Paced(Apply(s, e)) && Apply(s, e).throttle == s.throttle
  {
    hide WindowsPaced, Spaced, LastKnown, WindowsOk;
    if e.SendReturned? {
      SlotsWindows(s);
      SendEndsPaced(s, e.t, e.result);
    } else {
      StepMarks(s, e);
      StepWindowsPaced(s, e);
    }
  }

  lemma {:induction false} RunPaced(run: seq<Service>, i: nat)
    requires IsRun(run) && i < |run|
    ensures Paced(run[i]) && run[i].throttle == run[0].throttle
  {
    if i == 0 {
      assert Init(run[0]);
    } else {
      hide Paced, Init, Step;
      RunPaced(run, i - 1);
      NextPaced(run, i - 1);
    }
  }

  lemma NextPaced(run: seq<Service>, i: nat)
    requires IsRun(run) && i + 1 < |run| && Paced(run[i])
    ensures Paced(run[i + 1]) && run[i + 1].throttle == run[i].throttle
  {
    hide Paced, SlotsOk, Enabled, Apply;
    RunSlots(run, i);
    assert Step(run[i], run[i + 1]);
    var e :| Enabled(run[i], e) && run[i + 1] == Apply(run[i], e);
    StepPaced(run[i], e);
  }

  /** Two deliveries of one conversation are at least the throttle apart, in every interleaving. */
  lemma DeliveriesSpaced(run: seq<Service>, i: nat, j: nat, k: nat)
    requires IsRun(run) && i < |run| && j < k < |run[i].deliveries|
    requires run[i].deliveries[j].conversation == run[i].deliveries[k].conversation
    ensures run[i].deliveries[k].at - run[i].deliveries[j].at >= run[0].throttle
  {
    RunPaced(run, i);
  }

  /** How many deliveries of a conversation fall into a closed interval of time. */
  function DeliveriesWithin(deliveries: seq<Delivery>, conversation: string, from: real, to: real): nat {
    if deliveries == [] then 0
    else
      (if deliveries[0].conversation == conversation && from <= deliveries[0].at <= to then 1 else 0)
      + DeliveriesWithin(deliveries[1..], conversation, from, to)
  }

  lemma {:induction false} WithinLater(deliveries: seq<Delivery>, conversation: string, from: real, later: real,
      to: real)
    requires from <= later
    requires forall d :: d in deliveries && d.conversation == conversation ==> d.at >= later
    ensures DeliveriesWithin(deliveries, conversation, from, to)
            == DeliveriesWithin(deliveries, conversation, later, to)
  {
    if deliveries != [] {
      WithinLater(deliveries[1..], conversation, from, later, to);
    }
  }

  lemma {:induction false} SpacedCount(deliveries: seq<Delivery>, throttle: real, conversation: string, from: real,
      to: real)
    requires Spaced(deliveries, throttle) && throttle > 0.0
    ensures Fits(DeliveriesWithin(deliveries, conversation, from, to), throttle, to - from)
    decreases |deliveries|
  {
    hide Fits;
    NoneFit(throttle, to - from);
    if deliveries != [] {
      var d, rest := deliveries[0], deliveries[1..];
      assert Spaced(rest, throttle) by {
        assert forall k :: 0 <= k < |rest| ==> rest[k] == deliveries[k + 1];
      }
      if d.conversation == conversation && from <= d.at <= to {
        forall e | e in rest && e.conversation == conversation ensures e.at >= d.at + throttle {
          var k :| 0 <= k < |rest| && rest[k] == e;
          assert deliveries[k + 1] == e;
        }
        WithinLater(rest, conversation, from, d.at + throttle, to);
        SpacedCount(rest, throttle, conversation, d.at + throttle, to);
        assert to - (d.at + throttle) == to - d.at - throttle;
        OneMore(DeliveriesWithin(rest, conversation, from, to), throttle, to - d.at, to - from);
      } else {
        SpacedCount(rest, throttle, conversation, from, to);
      }
    }
  }

  /** Rate: an interval of `length` seconds holds at most floor(length / throttle) + 1 deliveries of
      one conversation. */
  lemma DeliveryRate(run: seq<Service>, i: nat, conversation: string, from: real, length: real)
    requires IsRun(run) && i < |run| && run[0].throttle > 0.0 && length >= 0.0
    ensures DeliveriesWithin(run[i].deliveries, conversation, from, from + length)
            <= (length / run[0].throttle).Floor + 1
  {
    RunPaced(run, i);
    assert Spaced(run[i].deliveries, run[0].throttle);
    hide IsRun, Paced, Spaced;
    SpacedCount(run[i].deliveries, run[0].throttle, conversation, from, from + length);
    FitsAtMost(DeliveriesWithin(run[i].deliveries, conversation, from, from + length), run[0].throttle, length);
  }

  lemma FitsAtMost(n: nat, throttle: real, room: real)
    requires throttle > 0.0 && room >= 0.0 && Fits(n, throttle, room)
    ensures n <= (room / throttle).Floor + 1
  {
    if n > 0 {
      QuotientAtLeast((n - 1) as real, throttle, room);
    }
  }

  lemma QuotientAtLeast(m: real, d: real, length: real)
    requires d > 0.0 && m * d <= length
    ensures m <= length / d
  {
  }

  /** `n` points spaced by the throttle fit into `room` seconds. */
  predicate Fits(n: nat, throttle: real, room: real) {
    n > 0 ==> (n - 1) as real * throttle <= room
  }

  lemma NoneFit(throttle: real, room: real)
    ensures Fits(0, throttle, room)
  {
  }

  lemma OneMore(n: nat, throttle: real, less: real, room: real)
    requires Fits(n, throttle, less - throttle) && 0.0 <= less <= room
    ensures Fits(n + 1, throttle, room)
  {
    if n > 0 {
      assert n as real * throttle == (n - 1) as real * throttle + throttle;
    }
  }
}
