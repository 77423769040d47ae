/** The throttle only postpones: a window that has to wait is woken one throttle after the last delivery
    of its conversation, and then takes everything that came together until then. */
module ChildWakeupThrottle {
  import opened ChildWakeup
  import opened ChildWakeupSlots
  import opened ChildWakeupLedger
  import opened ChildWakeupDelivery
  import opened ChildWakeupPromises

  /** When the merge window is over, the window has to wait if and only if some delivery of its
      conversation lies less than one throttle back. */
  lemma PostponedExactly(run: seq<Service>, i: nat, t: nat, lookup: Lookup)
    requires IsRun(run) && i < |run| && Enabled(run[i], MergeElapsed(t, lookup))
    ensures var s := run[i];
            Apply(s, MergeElapsed(t, lookup)).windows[t].phase.Throttled? <==>
            exists d :: d in s.deliveries && d.conversation == s.windows[t].conversation
                && s.now < d.at + run[0].throttle
  {
    hide IsRun, WindowsPaced, Spaced, TakeBatch;
    RunPaced(run, i);
    var s := run[i];
    TakeBatchWindows(s, t, lookup);
    LastDelivered(s, s.windows[t].conversation);
    MarksPassed(s);
  }

  lemma MarksPassed(s: Service)
    requires WindowsPaced(s)
    ensures s.throttle >= 0.0 && forall c :: c in s.lastDelivery ==> s.lastDelivery[c] <= s.now
  {
  }

  /** A mark lies less than one throttle back if and only if some delivery does. */
  lemma LastDelivered(s: Service, conversation: string)
    requires LastKnown(s.deliveries, s.lastDelivery)
    ensures (conversation in s.lastDelivery && s.now < s.lastDelivery[conversation] + s.throttle) <==>
            exists d :: d in s.deliveries && d.conversation == conversation && s.now < d.at + s.throttle
  {
    if conversation in s.lastDelivery {
      var d :| d in s.deliveries && d.conversation == conversation && d.at == s.lastDelivery[conversation];
    }
  }

  /** The window still waits, and nothing was taken from what is queued or pending for its conversation. */
  ghost predicate StillPostponed(s: Service, s': Service, t: nat)
    requires t < |s.windows|
  {
    && t < |s'.windows| && s'.windows[t] == s.windows[t]
    && QueueKept(s, s', s.windows[t].conversation) && PendingKept(s, s', s.windows[t].conversation)
  }

  ghost predicate QueueKept(s: Service, s': Service, conversation: string) {
    forall id :: id in Unreported(s.rows, conversation) ==> id in Unreported(s'.rows, conversation)
  }

  ghost predicate PendingKept(s: Service, s': Service, conversation: string) {
    forall child :: PendingFor(s.pending, conversation, child) ==> PendingFor(s'.pending, conversation, child)
  }

  /** The end of a postponement: the wake time is reached and the batch is taken, or a shutdown cancels
      the window. */
  ghost predicate Leaves(s: Service, s': Service, t: nat)
    requires t < |s.windows| && s.windows[t].phase.Throttled?
  {
    || ((s.closed || !s.supervisorOpen) && s' == SetPhase(s, t, Finished))
    || (s.windows[t].phase.due <= s.now && exists lookup :: s' == TakeBatch(s, t, lookup))
  }

  /** Past its postponement for good. */
  ghost predicate Past(s: Service, t: nat) {
    t < |s.windows| && (s.windows[t].phase.Sending? || s.windows[t].phase.Finished? || s.windows[t].phase.Gone?)
  }

  /** A live window is the only one of its conversation. */
  lemma OtherConversation(s: Service, t: nat, u: nat)
    requires SlotsOk(s) && t < |s.windows| && u < |s.windows| && t != u && Active(s.windows[t]) && Active(s.windows[u])
    ensures s.windows[t].conversation != s.windows[u].conversation
  {
  }

  lemma QueueStep(s: Service, e: Event, t: nat, start: seq<Row>)
    requires Books(s, start) && Enabled(s, e) && t < |s.windows| && s.windows[t].phase.Throttled?
    ensures QueueKept(s, Apply(s, e), s.windows[t].conversation)
  {
    var conversation := s.windows[t].conversation;
    forall id | id in Unreported(s.rows, conversation) ensures id in Unreported(Apply(s, e).rows, conversation) {
      LeavesQueueOnlyByDelivery(s, e, id, conversation);
      hide Unreported, HandedBack, Ledger, Known, Stamp;
      if e.SendReturned? {
        OtherConversation(s, t, e.t);
      }
    }
  }

  lemma PoppedOther(s: Service, s': Service, popped: string, conversation: string)
    requires DistinctPending(s.pending) && popped != conversation && s'.pending == PopPending(s.pending, popped)
    ensures PendingKept(s, s', conversation)
  {
    PopPendingOk(s.pending, popped);
    forall child | PendingFor(s.pending, conversation, child) ensures PendingFor(s'.pending, conversation, child) {
      var p :| p in s.pending && p.conversation == conversation && child in p.children;
      assert p in s'.pending;
    }
  }

  lemma TakeBatchPending(s: Service, u: nat, lookup: Lookup, t: nat)
    requires SlotsOk(s) && t < |s.windows| && u < |s.windows| && Active(s.windows[t]) && Active(s.windows[u])
    ensures PendingKept(s, TakeBatch(s, u, lookup), s.windows[t].conversation) || t == u
  {
    if t != u {
      OtherConversation(s, t, u);
      PoppedOther(s, TakeBatch(s, u, lookup), s.windows[u].conversation, s.windows[t].conversation);
    }
  }

  /** Pending children of a postponed window's conversation leave only with the window. */
  lemma PendingStep(s: Service, e: Event, t: nat)
    requires SlotsOk(s) && Remembers(s) && Enabled(s, e) && t < |s.windows| && s.windows[t].phase.Throttled?
    ensures PendingKept(s, Apply(s, e), s.windows[t].conversation) || (e.ThrottleElapsed? && e.t == t)
  {
    hide Schedule, Rearm, TakeBatch, WindowDone, SendEnds, PendingFor, Remembers, SlotsOk;
    assert s.windows[t] in s.windows && Active(s.windows[t]);
    match e
    case ScheduleCalled(child, conversation) => ScheduleRemembers(s, child, conversation);
    case RearmCalled => RearmRemembers(s, s.rows);
    case MergeElapsed(u, lookup) => TakeBatchPending(s, u, lookup, t);
    case ThrottleElapsed(u, lookup) => TakeBatchPending(s, u, lookup, t);
    case SendReturned(u, result) => SendEndsKeeps(s, u, result);
    case CallbackRuns(u) => WindowDoneKeeps(s, u);
    case _ =>
  }

  lemma SendEndsKeeps(s: Service, t: nat, result: SendResult)
    requires t < |s.windows| && s.windows[t].phase.Sending?
    ensures SendEnds(s, t, result).pending == s.pending
    ensures SendEnds(s, t, result).windows == s.windows[t := s.windows[t].(phase := Finished)]
  {
  }

  lemma WindowDoneKeeps(s: Service, t: nat)
    requires t < |s.windows|
    ensures var s' := WindowDone(s, t);
            && s'.pending == s.pending && |s.windows| <= |s'.windows|
            && forall u :: 0 <= u < |s.windows| ==>
                 s'.windows[u] == if u == t then s.windows[t].(phase := Gone) else s.windows[u]
  {
    EnsureAllPending(Freed(s, t), s.pending);
    EnsureAllOnly(Freed(s, t), s.pending);
    var s' := WindowDone(s, t);
    forall u | 0 <= u < |s.windows|
      ensures s'.windows[u] == if u == t then s.windows[t].(phase := Gone) else s.windows[u]
    {
      assert s'.windows[..|s.windows|][u] == Freed(s, t).windows[u];
    }
  }

  lemma TakeBatchWindows(s: Service, t: nat, lookup: Lookup)
    requires t < |s.windows|
    ensures var s' := TakeBatch(s, t, lookup);
            Past(s', t) && |s'.windows| == |s.windows| && forall u :: 0 <= u < |s.windows| && u != t ==>
                s'.windows[u] == s.windows[u]
  {
  }

  lemma OnlySchedulesWindows(s: Service, s': Service, t: nat)
    requires OnlySchedules(s, s') && t < |s.windows|
    ensures t < |s'.windows| && s'.windows[t] == s.windows[t]
  {
    assert s'.windows[..|s.windows|][t] == s.windows[t];
  }

  /** A postponed window stays so until its wake time or a cancellation; one past that stays past it. */
  lemma WindowStep(s: Service, e: Event, t: nat)
    requires Enabled(s, e) && t < |s.windows|
    ensures var s' := Apply(s, e);
            && t < |s'.windows|
            && (s.windows[t].phase.Throttled? ==> s'.windows[t] == s.windows[t] || (Leaves(s, s', t) && Past(s', t)))
            && (Past(s, t) ==> Past(s', t))
  {
    hide Schedule, Rearm, TakeBatch, WindowDone, SendEnds, OnlySchedules;
    match e
    case ScheduleCalled(child, conversation) =>
      ScheduleOnly(s, child, conversation);
      OnlySchedulesWindows(s, Apply(s, e), t);
    case RearmCalled =>
      RearmOnly(s, s.rows);
      OnlySchedulesWindows(s, Apply(s, e), t);
    case MergeElapsed(u, lookup) => TakeBatchWindows(s, u, lookup);
    case ThrottleElapsed(u, lookup) => TakeBatchWindows(s, u, lookup);
    case SendReturned(u, result) => SendEndsKeeps(s, u, result);
    case CallbackRuns(u) => WindowDoneKeeps(s, u);
    case _ =>
  }

  lemma PostponedStep(s: Service, e: Event, t: nat, start: seq<Row>)
    requires Books(s, start) && Remembers(s) && Enabled(s, e) && t < |s.windows| && s.windows[t].phase.Throttled?
    ensures StillPostponed(s, Apply(s, e), t) || (Leaves(s, Apply(s, e), t) && Past(Apply(s, e), t))
  {
    QueueStep(s, e, t, start);
    PendingStep(s, e, t);
    WindowStep(s, e, t);
    hide Books, Remembers, Apply, QueueKept, PendingKept;
  }

  lemma StillPostponedSame(s: Service, t: nat)
    requires t < |s.windows|
    ensures StillPostponed(s, s, t)
  {
  }

  lemma StillPostponedTrans(a: Service, b: Service, c: Service, t: nat)
    requires t < |a.windows| && StillPostponed(a, b, t) && StillPostponed(b, c, t)
    ensures StillPostponed(a, c, t)
  {
  }

  /** Over any run: a postponed window waits with its wake time unchanged, what is queued or pending for its
      conversation stays and is only added to, until the wake time is reached and the batch is taken or a
      shutdown cancels the window; and it never waits again. */
  lemma {:induction false} ThrottleOnlyPostpones(run: seq<Service>, i: nat, j: nat, t: nat)
    requires IsRun(run) && i <= j < |run| && t < |run[i].windows| && run[i].windows[t].phase.Throttled?
    ensures || StillPostponed(run[i], run[j], t)
            || (Past(run[j], t)
                && exists m :: i <= m < j && StillPostponed(run[i], run[m], t) && Leaves(run[m], run[m + 1], t))
    decreases j - i
  {
    hide Books, Remembers, Apply, Enabled, QueueKept, PendingKept, Leaves;
    if i == j {
      StillPostponedSame(run[i], t);
    } else {
      ThrottleOnlyPostpones(run, i, j - 1, t);
      RunBooks(run, j - 1);
      RunRemembers(run, j - 1);
      assert Step(run[j - 1], run[j - 1 + 1]);
      var e :| Enabled(run[j - 1], e) && run[j] == Apply(run[j - 1], e);
      if StillPostponed(run[i], run[j - 1], t) {
        PostponedStep(run[j - 1], e, t, run[0].rows);
        if StillPostponed(run[j - 1], run[j], t) {
          StillPostponedTrans(run[i], run[j - 1], run[j], t);
        }
      } else {
        WindowStep(run[j - 1], e, t);
      }
    }
  }

  /** The wake time is exactly one throttle after the last delivery of the conversation. Once it is reached
      the window can go on whatever the lookup says, its conversation is queried, and if it is deliverable
      the one batch is everything owed to it then, with all that was queued when the wait began. */
  lemma PostponedIsQueried(run: seq<Service>, i: nat, j: nat, t: nat, lookup: Lookup)
    requires IsRun(run) && i <= j < |run| && t < |run[i].windows| && run[i].windows[t].phase.Throttled?
    requires StillPostponed(run[i], run[j], t)
    ensures var s, c := run[j], run[i].windows[t].conversation;
            && c in s.lastDelivery && s.windows[t].phase == Throttled(s.lastDelivery[c] + run[0].throttle)
            && (Enabled(s, ThrottleElapsed(t, lookup)) <==> s.lastDelivery[c] + run[0].throttle <= s.now)
            && (Enabled(s, ThrottleElapsed(t, lookup)) ==>
                  var s' := Apply(s, ThrottleElapsed(t, lookup));
                  && s'.log == s.log + [Queried(c)] && (forall p :: p in s'.pending ==> p.conversation != c)
                  && (s'.windows[t].phase.Sending? <==> lookup == Deliverable && exists id :: Owes(s.rows, id, c))
                  && (s'.windows[t].phase.Sending? ==>
                        && (forall id :: id in s'.windows[t].phase.batch <==> Owes(s.rows, id, c))
                        && (forall id :: id in Unreported(run[i].rows, c) ==> id in s'.windows[t].phase.batch)))
  {
    RunPaced(run, j);
    RunBooks(run, j);
    var s, c := run[j], run[i].windows[t].conversation;
    assert PacedWindow(s, s.windows[t]);
    hide Spaced, LastKnown, IsRun;
    if Enabled(s, ThrottleElapsed(t, lookup)) {
      UnreportedExact(s.rows, c);
      PopPendingOk(s.pending, c);
      if Unreported(s.rows, c) != [] {
        assert Unreported(s.rows, c)[0] in Unreported(s.rows, c);
      }
    }
  }
}
