/** The wakeup service as the object it is: mutable registries, changed step by step. Each method is
    proved to take the state through the step function the theorems are about. */
module ChildWakeupRuntime {
  import opened ChildWakeup
  import opened ChildWakeupSlots

  /** Whether the store accepts the stamp of a child at the given attempt. */
  type StampOutcome = (string, nat) -> bool

  /** A stamp is tried twice at most. */
  const ATTEMPTS: nat := 2

  predicate Stamped(outcome: StampOutcome, id: string) {
    outcome(id, 1) || outcome(id, 2)
  }

  function FailedStamps(batch: seq<string>, outcome: StampOutcome): set<string> {
    set id | id in batch && !Stamped(outcome, id)
  }

  class ChildWakeupService {
    const enabled: bool
    const cap: nat
    const mergeWindow: real
    const throttle: real
    var closed: bool
    var supervisorOpen: bool
    var now: real
    var rows: seq<Row>
    var pending: seq<Pending>
    var inflight: map<string, nat>
    var windows: seq<Window>
    var lastDelivery: map<string, real>
    ghost var deliveries: seq<Delivery>
    ghost var log: seq<LogEntry>

    ghost function State(): Service
      reads this
    {
      Service(enabled, closed, supervisorOpen, cap, mergeWindow, throttle, now, rows, pending, inflight, windows,
              lastDelivery, deliveries, log)
    }

    constructor (enabled: bool, cap: nat, mergeWindow: real, throttle: real, now: real, rows: seq<Row>)
      requires cap > 0 && mergeWindow > 0.0 && throttle >= 0.0 && DistinctRows(rows)
      ensures Init(State()) && State().rows == rows && State().Open() == enabled
    {
      this.enabled, this.cap, this.mergeWindow, this.throttle := enabled, cap, mergeWindow, throttle;
      closed, supervisorOpen, this.now, this.rows := false, true, now, rows;
      pending, inflight, windows, lastDelivery := [], map[], [], map[];
      deliveries, log := [], [];
    }

    method Schedule(child: string, conversation: string)
      modifies `pending, `log, `inflight, `windows
      ensures State() == ChildWakeup.Schedule(old(State()), child, conversation)
    {
      if !enabled || closed {
        return;
      }
      if conversation == "" || child == "" {
        return;
      }
      pending := AddPending(pending, conversation, child);
      log := log + [Scheduled(conversation, child)];
      EnsureWindow(conversation);
    }

    method EnsureWindow(conversation: string)
      modifies `inflight, `windows
      ensures State() == ChildWakeup.EnsureWindow(old(State()), conversation)
    {
      if closed {
        return;
      }
      if conversation in inflight {
        return;
      }
      if |inflight| >= cap {
        return;
      }
      StartWindow(conversation);
    }

    method StartWindow(conversation: string)
      modifies `inflight, `windows
      ensures State() == ChildWakeup.StartWindow(old(State()), conversation)
    {
      if !supervisorOpen {
        return;
      }
      inflight := inflight[conversation := |windows|];
      windows := windows + [Window(conversation, Merging(now + mergeWindow))];
    }

    /** Registers every unreported row again and counts the conversations it found. */
    method RearmUnreported() returns (conversations: nat)
      modifies `pending, `log, `inflight, `windows
      ensures State() == (if enabled && !closed then Rearm(old(State()), old(rows)) else old(State()))
      ensures conversations == if enabled && !closed then |Conversations(old(rows))| else 0
    {
      if !enabled || closed {
        return 0;
      }
      var snapshot := rows;
      var found: set<string> := {};
      var i := 0;
      while i < |snapshot|
        invariant 0 <= i <= |snapshot|
        invariant Rearm(State(), snapshot[i..]) == Rearm(old(State()), snapshot)
        invariant found + Conversations(snapshot[i..]) == Conversations(snapshot)
      {
        var row := snapshot[i];
        assert snapshot[i..][1..] == snapshot[i + 1..];
        if !row.reported {
          if row.conversation != "" && row.id != "" {
            found := found + {row.conversation};
          }
          Schedule(row.id, row.conversation);
        }
        i := i + 1;
      }
      assert snapshot[i..] == [];
      conversations := |found|;
    }

    /** The done callback of a window. */
    method OnWindowDone(t: nat)
      requires t < |windows|
      modifies `inflight, `windows
      ensures State() == WindowDone(old(State()), t)
    {
      inflight := inflight - {windows[t].conversation};
      windows := windows[t := windows[t].(phase := Gone)];
      if closed {
        return;
      }
      var snapshot := pending;
      var i := 0;
      while i < |snapshot|
        invariant 0 <= i <= |snapshot|
        invariant EnsureAll(State(), snapshot[i..]) == WindowDone(old(State()), t)
      {
        assert snapshot[i..][1..] == snapshot[i + 1..];
        EnsureWindow(snapshot[i].conversation);
        i := i + 1;
      }
    }

    /** A window woke up from its merge sleep. */
    method AwaitThrottleBoundary(t: nat) returns (asleep: bool)
      requires t < |windows|
      modifies `windows
      ensures |windows| == |old(windows)| && windows[t].conversation == old(windows[t].conversation)
      ensures !asleep ==> State() == old(State())
      ensures forall lookup ::
                MergeOver(old(State()), t, lookup) == if asleep then State() else TakeBatch(State(), t, lookup)
    {
      asleep := false;
      if throttle <= 0.0 {
        return;
      }
      var conversation := windows[t].conversation;
      if conversation !in lastDelivery {
        return;
      }
      var remaining := throttle - (now - lastDelivery[conversation]);
      if remaining > 0.0 {
        windows := windows[t := windows[t].(phase := Throttled(now + remaining))];
        asleep := true;
      }
    }

    /** Takes the batch: from here on newly settled children belong to the next window. */
    method TakeWindowBatch(t: nat, lookup: Lookup) returns (batch: seq<string>)
      requires t < |windows|
      modifies `pending, `windows, `log
      ensures State() == TakeBatch(old(State()), t, lookup)
      ensures batch == if lookup == Deliverable then Unreported(rows, windows[t].conversation) else []
    {
      var conversation := windows[t].conversation;
      pending := PopPending(pending, conversation);
      log := log + [Queried(conversation)];
      if lookup == ReadFailed {
        windows := windows[t := windows[t].(phase := Finished)];
        return [];
      }
      batch := Unreported(rows, conversation);
      if batch == [] {
        windows := windows[t := windows[t].(phase := Finished)];
      } else if lookup == Deliverable {
        windows := windows[t := windows[t].(phase := Sending(batch))];
      } else {
        windows := windows[t := windows[t].(phase := Finished)];
        batch := [];
      }
    }

    /** The send came back; after a success the batch is stamped row by row. */
    method SendCameBack(t: nat, delivered: bool, outcome: StampOutcome) returns (failed: set<string>)
      requires t < |windows| && windows[t].phase.Sending?
      modifies `rows, `windows, `lastDelivery, `deliveries
      ensures failed == if delivered then FailedStamps(old(windows[t].phase.batch), outcome) else {}
      ensures State() == SendEnds(old(State()), t, if delivered then Delivered(failed) else NotDelivered)
    {
      var conversation, batch := windows[t].conversation, windows[t].phase.batch;
      failed := {};
      if delivered {
        lastDelivery := lastDelivery[conversation := now];
        failed := MarkReported(batch, outcome);
        deliveries := deliveries + [Delivery(conversation, batch, now, failed)];
      }
      windows := windows[t := windows[t].(phase := Finished)];
    }

    method MarkReported(batch: seq<string>, outcome: StampOutcome) returns (failed: set<string>)
      modifies `rows
      ensures failed == FailedStamps(batch, outcome)
      ensures rows == Stamp(old(rows), ToSet(batch) - failed)
    {
      failed := {};
      var i := 0;
      hide Stamp;
      StampNone(rows);
      assert ToSet(batch[..0]) - failed == {};
      while i < |batch|
        invariant 0 <= i <= |batch|
        invariant failed == FailedStamps(batch[..i], outcome)
        invariant rows == Stamp(old(rows), ToSet(batch[..i]) - failed)
      {
        var marked := MarkWithRetry(batch[i], outcome);
        assert batch[..i + 1] == batch[..i] + [batch[i]];
        ghost var before := ToSet(batch[..i]) - failed;
        if !marked {
          failed := failed + {batch[i]};
        }
        assert ToSet(batch[..i + 1]) - failed == if marked then before + {batch[i]} else before;
        StampMore(old(rows), before, {batch[i]});
        i := i + 1;
      }
      assert batch[..|batch|] == batch;
    }

    method MarkWithRetry(id: string, outcome: StampOutcome) returns (marked: bool)
      modifies `rows
      ensures marked == (outcome(id, 1) || outcome(id, 2))
      ensures rows == if marked then Stamp(old(rows), {id}) else old(rows)
    {
      for attempt := 1 to ATTEMPTS + 1
        invariant rows == old(rows)
        invariant forall a :: 1 <= a < attempt ==> !outcome(id, a)
      {
        if outcome(id, attempt) {
          rows := Stamp(rows, {id});
          return true;
        }
      }
      return false;
    }

    /** The first stretch of a shutdown: every registered window task is cancelled. */
    method BeginShutdown()
      requires SlotsOk(State())
      modifies `closed, `windows
      ensures State() == old(State()).(closed := true, windows := CancelFirst(old(windows), |old(windows)|))
    {
      hide SlotsOk, CancelFirst;
      closed := true;
      RegisteredIsActive(old(State()));
      var tasks := inflight.Values;
      while tasks != {}
        invariant closed && tasks <= inflight.Values && |windows| == |old(windows)|
        invariant forall t :: 0 <= t < |windows| ==>
                    windows[t] == if t in inflight.Values && t !in tasks then CancelWindow(old(windows[t]))
                                  else old(windows[t])
        decreases tasks
      {
        var t :| t in tasks;
        if Active(windows[t]) {
          windows := windows[t := windows[t].(phase := Finished)];
        }
        tasks := tasks - {t};
      }
      assert windows == CancelFirst(old(windows), |windows|);
    }

    method EndShutdown()
      modifies `inflight, `pending
      ensures State() == old(State()).(inflight := map[], pending := [])
    {
      inflight, pending := map[], [];
    }
  }

  /** What cancelling does to a window, once its task has ended. */
  function CancelWindow(w: Window): Window {
    if Active(w) then w.(phase := Finished) else w
  }

  function CancelFirst(windows: seq<Window>, n: nat): (r: seq<Window>)
    requires n <= |windows|
    ensures |r| == |windows|
    ensures forall t :: 0 <= t < |windows| ==> r[t] == if t < n then CancelWindow(windows[t]) else windows[t]
  {
    seq(|windows|, t requires 0 <= t < |windows| => if t < n then CancelWindow(windows[t]) else windows[t])
  }

  /** The registry holds every live window. */
  lemma RegisteredIsActive(s: Service)
    requires SlotsOk(s)
    ensures forall t :: 0 <= t < |s.windows| && Active(s.windows[t]) ==> t in s.inflight.Values
    ensures forall t :: t in s.inflight.Values ==> t < |s.windows|
  {
    forall t | 0 <= t < |s.windows| && Active(s.windows[t]) ensures t in s.inflight.Values {
      assert s.inflight[s.windows[t].conversation] == t;
    }
  }

  /** One cancellation for each active window, in order. */
  function CancelEvents(windows: seq<Window>, n: nat): seq<Event>
    requires n <= |windows|
  {
    if n == 0 then []
    else CancelEvents(windows, n - 1) + if Active(windows[n - 1]) then [WindowCancelled(n - 1)] else []
  }

  /** The first stretch of a shutdown is its beginning and one cancellation for each active window. */
  lemma {:induction false} ShutdownIsSteps(s: Service, n: nat) returns (run: seq<Service>)
    requires n <= |s.windows|
    ensures IsTrace(run, [ShutdownBegins] + CancelEvents(s.windows, n)) && run[0] == s
    ensures run[|run| - 1] == s.(closed := true, windows := CancelFirst(s.windows, n))
    decreases n
  {
    hide SetPhase, Enabled, Apply, CancelFirst;
    if n == 0 {
      BeginsShutdown(s);
      assert CancelFirst(s.windows, 0) == s.windows;
      run := [s, s.(closed := true)];
    } else {
      run := ShutdownIsSteps(s, n - 1);
      var last := run[|run| - 1];
      var events := [ShutdownBegins] + CancelEvents(s.windows, n - 1);
      if Active(s.windows[n - 1]) {
        var next := SetPhase(last, n - 1, Finished);
        CancelOneMore(s, n);
        OneMoreEvent(run, events, WindowCancelled(n - 1), next);
        assert [ShutdownBegins] + CancelEvents(s.windows, n) == events + [WindowCancelled(n - 1)];
        run := run + [next];
      } else {
        assert CancelFirst(s.windows, n) == CancelFirst(s.windows, n - 1);
        assert [ShutdownBegins] + CancelEvents(s.windows, n) == events;
      }
    }
  }

  lemma BeginsShutdown(s: Service)
    ensures IsTrace([s, s.(closed := true)], [ShutdownBegins])
  {
  }

  lemma CancelOneMore(s: Service, n: nat)
    requires 0 < n <= |s.windows| && Active(s.windows[n - 1])
    ensures var last := s.(closed := true, windows := CancelFirst(s.windows, n - 1));
            && SetPhase(last, n - 1, Finished) == s.(closed := true, windows := CancelFirst(s.windows, n))
            && Enabled(last, WindowCancelled(n - 1))
            && Apply(last, WindowCancelled(n - 1)) == SetPhase(last, n - 1, Finished)
  {
    assert CancelFirst(s.windows, n)
        == CancelFirst(s.windows, n - 1)[n - 1 := CancelFirst(s.windows, n - 1)[n - 1].(phase := Finished)];
  }

  lemma OneMoreEvent(run: seq<Service>, events: seq<Event>, e: Event, next: Service)
    requires IsTrace(run, events) && Enabled(run[|run| - 1], e) && next == Apply(run[|run| - 1], e)
    ensures IsTrace(run + [next], events + [e])
  {
    hide Enabled, Apply;
  }

  function Conversations(rows: seq<Row>): set<string> {
    if rows == [] then {}
    else
      (if !rows[0].reported && rows[0].conversation != "" && rows[0].id != "" then {rows[0].conversation} else {})
      + Conversations(rows[1..])
  }

  lemma StampNone(rows: seq<Row>)
    ensures Stamp(rows, {}) == rows
  {
  }

  lemma StampMore(rows: seq<Row>, a: set<string>, b: set<string>)
    ensures Stamp(Stamp(rows, a), b) == Stamp(rows, a + b)
  {
  }
}
