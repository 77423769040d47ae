/** Exactly what a cancel call answers, followed from the call to its end. */
module DelegationCancels {
  import opened Semaphores
  import opened Delegation
  import opened DelegationInvariants
  import opened DelegationSteps
  import opened DelegationRuns
  import opened DelegationTheorems
  import opened DelegationEndings
  import opened DelegationAnswers

  /** The call `k` on child `id`, made of coordinator `c` at step `a`. */
  ghost predicate MadeAt(run: seq<World>, events: seq<Event>, k: nat, c: nat, id: RunId, a: nat) {
    && a < |run| && a < |events| && events[a] == CancelCalled(c, id) && |run[a].calls| == k && c < |run[a].coordinators|
  }

  /** At that step the conversation has the child, and it is running: the kernel is asked. */
  ghost predicate AskedAt(run: seq<World>, k: nat, c: nat, id: RunId, a: nat) {
    && a < |run| && c < |run[a].coordinators|
    && Visible(run[a].coordinators[c], run[a].store, id) && run[a].store[id].state == Running
  }

  /** The kernel's reply to call `k` comes at step `b`. */
  ghost predicate RepliedAt(events: seq<Event>, k: nat, reply: KernelCancel, b: nat) {
    b < |events| && events[b] == CancelReply(k, reply)
  }

  /** A background task of this coordinator still works on the child. */
  predicate TaskAlive(w: World, c: nat, id: RunId) {
    && c < |w.coordinators| && id in w.coordinators[c].childTasks
    && id in w.tasks && w.tasks[id].phase != Done
  }

  /** The task that call `k` cancelled was awaited until step `e`. */
  ghost predicate WokenAt(events: seq<Event>, k: nat, e: nat) {
    e < |events| && events[e].CancelWoken? && events[e].k == k
  }

  predicate SettledAs(w: World, id: RunId, state: RowState) {
    id in w.store && w.store[id].state == state
  }

  /** Where the call stands, and what has led there. */
  ghost predicate CallStory(run: seq<World>, events: seq<Event>, i: nat, k: nat, a: nat, b: nat, e: nat)
    requires i < |run| && k < |run[i].calls|
  {
    match run[i].calls[k]
    case AtKernel(c, id) => a < i && MadeAt(run, events, k, c, id, a) && AskedAt(run, k, c, id, a)
    case AwaitingTask(c, id) =>
      && a < i && MadeAt(run, events, k, c, id, a) && AskedAt(run, k, c, id, a)
      && b < i && b < |run| && RepliedAt(events, k, Disowned, b) && TaskAlive(run[b], c, id)
    case Ended(c, id, result, _) =>
      && a < i && MadeAt(run, events, k, c, id, a)
      && (if !Visible(run[a].coordinators[c], run[a].store, id) then result == UnknownChild
          else if run[a].store[id].state != Running then result == NotActive
          else
            && b < i && b < |run|
            && (|| (RepliedAt(events, k, Accepted, b) && result == CancelOk)
                || (RepliedAt(events, k, OtherError, b) && result == KernelError)
                || (&& RepliedAt(events, k, Disowned, b) && !TaskAlive(run[b], c, id)
                    && id in run[b].store
                    && result == if run[b].store[id].state == Running then KernelError else NotActive)
                || (&& RepliedAt(events, k, Disowned, b) && TaskAlive(run[b], c, id)
                    && e < i && e + 1 < |run| && WokenAt(events, k, e) && id in run[e + 1].store
                    && result == if run[e + 1].store[id].state == Cancelled then CancelOk else NotActive)))
  }

  // ----- one step ------------------------------------------------------------------------

  /** Only its own events move a call, and a call appears with its event. */
  lemma CallsMove(w: World, e: Event, k: nat)
    requires Enabled(w, e) && k < |w.calls|
    ensures var w' := Apply(w, e);
            && k < |w'.calls|
            && (!(e.CancelReply? && e.k == k) && !(e.CancelWoken? && e.k == k) ==> w'.calls[k] == w.calls[k])
  {
    hide CancelTask, CancelAnswered;
    if e.CancelReply? {
      ReplyCalls(w, e.k, e.reply);
    } else if !e.CancelCalled? && !e.CancelWoken? {
      OthersCalls(w, e);
    }
  }

  lemma OthersCalls(w: World, e: Event)
    requires Enabled(w, e) && !e.CancelCalled? && !e.CancelReply? && !e.CancelWoken?
    ensures Apply(w, e).calls == w.calls
  {
    hide Lookup, Spawn, Resume, KernelEnds, Evict, Touch, CloseSupervisor;
    match e
    case ToolCall(parent, conversation) => LookupCalls(w, parent, conversation);
    case SpawnCall(parent, conversation, call) => SpawnCalls(w, parent, conversation, call);
    case ResumeTask(id, now, usage) => ResumeCalls(w, id, now, usage);
    case KernelDone(id, answer) => KernelCalls(w, id, answer);
    case Closed => ClosedCalls(w);
    case _ =>
  }

  lemma LookupCalls(w: World, parent: RunId, conversation: string)
    ensures Lookup(w, parent, conversation).calls == w.calls
  {
    hide Evict, Touch, Find;
  }

  lemma SpawnCalls(w: World, parent: RunId, conversation: string, call: string)
    ensures Spawn(w, parent, conversation, call).calls == w.calls
  {
    hide Lookup, Find, Inflight;
    LookupCalls(w, parent, conversation);
  }

  lemma ResumeCalls(w: World, id: RunId, now: nat, usage: Usage)
    requires Runnable(w, id)
    ensures Resume(w, id, now, usage).calls == w.calls
  {
    hide Semaphore.Acquire, Semaphore.GiveBack, Row.MarkedStarted, Row.MarkedCancelled;
  }

  lemma KernelCalls(w: World, id: RunId, answer: KernelAnswer)
    requires Handled(w, id)
    ensures KernelEnds(w, id, answer).calls == w.calls
  {
    hide Recording, SettledRow, Semaphore.Release;
  }

  lemma ClosedCalls(w: World)
    ensures CloseSupervisor(w).calls == w.calls
  {
  }

  lemma ReplyCalls(w: World, k: nat, reply: KernelCancel)
    requires k < |w.calls| && w.calls[k].AtKernel? && w.calls[k].owner < |w.coordinators|
    ensures var w' := CancelAnswered(w, k, reply); var c, id := w.calls[k].owner, w.calls[k].id;
            && w'.calls == w.calls[k := w'.calls[k]]
            && (reply == Accepted ==> w'.calls[k] == Ended(c, id, CancelOk, false))
            && (reply == OtherError ==> w'.calls[k] == Ended(c, id, KernelError, false))
            && (reply == Disowned ==>
                  if TaskAlive(w, c, id) && Handled(w, id) then w'.calls[k] == AwaitingTask(c, id)
                  else w'.calls[k] ==
                       Ended(c, id, if id in w.store && w.store[id].state != Running then NotActive
                                    else KernelError, true))
  {
    hide CancelTask;
    if Handled(w, w.calls[k].id) {
      CancelKeepsCalls(w, w.calls[k].id);
    }
  }

  lemma CancelKeepsCalls(w: World, id: RunId)
    requires Handled(w, id)
    ensures CancelTask(w, id).calls == w.calls
  {
  }

  /** What is decided when the call is made: nothing but asks of the kernel is left open. */
  lemma BeginStory(w: World, c: nat, id: RunId)
    requires Inv(w) && c < |w.coordinators|
    ensures var w', co := CancelBegin(w, c, id), w.coordinators[c];
            && |w'.calls| == |w.calls| + 1
            && w'.calls[|w.calls|] ==
               if !Visible(co, w.store, id) then Ended(c, id, UnknownChild, false)
               else if w.store[id].state != Running then Ended(c, id, NotActive, false)
               else AtKernel(c, id)
  {
    hide Inv;
    if FindRecord(w.coordinators[c].children, id) < |w.coordinators[c].children| {
      MemoryIsVisible(w, c, id);
    }
  }

  lemma TaskAliveIsHandled(w: World, c: nat, id: RunId)
    requires Inv(w) && TaskAlive(w, c, id)
    ensures Handled(w, id)
  {
  }

  lemma AskedHasRow(w: World, k: nat)
    requires Inv(w) && k < |w.calls| && (w.calls[k].AtKernel? || w.calls[k].AwaitingTask?)
    ensures w.calls[k].id in w.store
  {
    CallFacts(w);
    hide Inv;
    assert CallOk(w.calls[k], |w.coordinators|, w.tasks, w.store);
  }

  // ----- the whole story -----------------------------------------------------------------

  lemma {:induction false} StoryOf(run: seq<World>, events: seq<Event>, i: nat, k: nat) returns (a: nat, b: nat, e: nat)
    requires IsTrace(run, events) && i < |run| && k < |run[i].calls|
    ensures CallStory(run, events, i, k, a, b, e)
    decreases i
  {
    hide IsTrace, Inv, Enabled, Apply, Visible, TaskAlive;
    TraceParts(run, events, i);
    if i == 0 {
      NoCallsAtFirst(run, events);
      assert false;
    }
    TraceStep(run, events, i - 1);
    TraceInv(run, events, i - 1);
    var w, event := run[i - 1], events[i - 1];
    if k < |w.calls| {
      a, b, e := StoryOf(run, events, i - 1, k);
      CallsMove(w, event, k);
      if event.CancelReply? && event.k == k {
        b := i - 1;
        ReplyStory(run, events, i, k, a, b, e);
      } else if event.CancelWoken? && event.k == k {
        e := i - 1;
        WokenStory(run, events, i, k, a, b, e);
      } else {
        assert CallStory(run, events, i, k, a, b, e);
      }
    } else {
      a, b, e := i - 1, 0, 0;
      NewStory(run, events, i, k);
    }
  }

  lemma NoCallsAtFirst(run: seq<World>, events: seq<Event>)
    requires IsTrace(run, events)
    ensures |run| > 0 && run[0].calls == []
  {
  }

  lemma NewStory(run: seq<World>, events: seq<Event>, i: nat, k: nat)
    requires 0 < i < |run| && i <= |events| && Inv(run[i - 1]) && |run[i - 1].calls| <= k < |run[i].calls|
    requires Enabled(run[i - 1], events[i - 1]) && run[i] == Apply(run[i - 1], events[i - 1])
    ensures CallStory(run, events, i, k, i - 1, 0, 0)
  {
    hide Inv, Visible, CancelBegin;
    var w, event := run[i - 1], events[i - 1];
    if !event.CancelCalled? {
      NoNewCalls(w, event);
    } else {
      BeginStory(w, event.owner, event.id);
    }
  }

  lemma NoNewCalls(w: World, e: Event)
    requires Enabled(w, e) && !e.CancelCalled?
    ensures |Apply(w, e).calls| == |w.calls|
  {
    hide CancelAnswered;
    if e.CancelReply? {
      ReplyCalls(w, e.k, e.reply);
    } else if !e.CancelWoken? {
      OthersCalls(w, e);
    }
  }

  lemma ReplyStory(run: seq<World>, events: seq<Event>, i: nat, k: nat, a: nat, b: nat, e: nat)
    requires 0 < i < |run| && i <= |events| && Inv(run[i - 1]) && k < |run[i - 1].calls| && k < |run[i].calls|
    requires b == i - 1
    requires Enabled(run[i - 1], events[i - 1]) && run[i] == Apply(run[i - 1], events[i - 1])
    requires events[i - 1].CancelReply? && events[i - 1].k == k
    requires run[i - 1].calls[k].AtKernel? ==>
               var c, id := run[i - 1].calls[k].owner, run[i - 1].calls[k].id;
               a < i && MadeAt(run, events, k, c, id, a) && AskedAt(run, k, c, id, a)
    ensures CallStory(run, events, i, k, a, b, e)
  {
    hide Inv, Visible, CancelAnswered;
    var w, reply := run[i - 1], events[i - 1].reply;
    ReplyCalls(w, k, reply);
    AskedHasRow(w, k);
    if TaskAlive(w, w.calls[k].owner, w.calls[k].id) {
      TaskAliveIsHandled(w, w.calls[k].owner, w.calls[k].id);
    }
    assert RepliedAt(events, k, reply, b);
  }

  lemma WokenStory(run: seq<World>, events: seq<Event>, i: nat, k: nat, a: nat, b: nat, e: nat)
    requires 0 < i < |run| && i <= |events| && Inv(run[i - 1]) && k < |run[i - 1].calls| && k < |run[i].calls|
    requires e == i - 1
    requires Enabled(run[i - 1], events[i - 1]) && run[i] == Apply(run[i - 1], events[i - 1])
    requires events[i - 1].CancelWoken? && events[i - 1].k == k
    requires run[i - 1].calls[k].AwaitingTask? ==>
               var c, id := run[i - 1].calls[k].owner, run[i - 1].calls[k].id;
               && a < i && MadeAt(run, events, k, c, id, a) && AskedAt(run, k, c, id, a)
               && b < i && RepliedAt(events, k, Disowned, b) && TaskAlive(run[b], c, id)
    ensures CallStory(run, events, i, k, a, b, e)
  {
    hide Inv, Visible, TaskAlive, MadeAt, RepliedAt;
    AskedHasRow(run[i - 1], k);
    WokenCalls(run[i - 1], k, events[i - 1].usage);
    assert WokenAt(events, k, e);
  }

  lemma WokenCalls(w: World, k: nat, usage: Usage)
    requires k < |w.calls| && w.calls[k].AwaitingTask? && w.calls[k].id in w.store
    ensures var w' := CancelResumed(w, k, usage); var c, id := w.calls[k].owner, w.calls[k].id;
            && k < |w'.calls| && id in w'.store
            && w'.calls[k] == Ended(c, id, if w'.store[id].state == Cancelled then CancelOk else NotActive, true)
  {
  }

  // ----- what the answers mean -----------------------------------------------------------

  lemma EndedStays(run: seq<World>, events: seq<Event>, j: nat, i: nat, k: nat)
    requires IsTrace(run, events) && j <= i < |run| && k < |run[j].calls| && run[j].calls[k].Ended?
    ensures k < |run[i].calls| && run[i].calls[k] == run[j].calls[k]
  {
    hide IsTrace, Step;
    TraceIsRun(run, events);
    RunKept(run, j, i);
  }

  lemma AfterMade(run: seq<World>, events: seq<Event>, i: nat, k: nat, c: nat, id: RunId, a: nat)
    requires IsTrace(run, events) && a < i < |run| && MadeAt(run, events, k, c, id, a) && !AskedAt(run, k, c, id, a)
    ensures k < |run[i].calls|
    ensures run[i].calls[k] ==
            Ended(c, id, if Visible(run[a].coordinators[c], run[a].store, id) then NotActive else UnknownChild, false)
  {
    hide IsTrace, Inv, Visible;
    TraceStep(run, events, a);
    TraceInv(run, events, a);
    BeginStory(run[a], c, id);
    EndedStays(run, events, a + 1, i, k);
  }

  lemma AfterReply(run: seq<World>, events: seq<Event>, i: nat, k: nat, reply: KernelCancel, b: nat)
    requires IsTrace(run, events) && b < i < |run| && RepliedAt(events, k, reply, b)
    ensures k < |run[b].calls| && run[b].calls[k].AtKernel?
    ensures var c, id := run[b].calls[k].owner, run[b].calls[k].id;
            reply != Disowned || !TaskAlive(run[b], c, id) ==>
              && k < |run[i].calls|
              && run[i].calls[k] ==
                 match reply
                 case Accepted => Ended(c, id, CancelOk, false)
                 case OtherError => Ended(c, id, KernelError, false)
                 case Disowned =>
                   Ended(c, id,
                         if id in run[b].store && run[b].store[id].state != Running then NotActive
                         else KernelError, true)
  {
    hide IsTrace, Inv, TaskAlive;
    TraceStep(run, events, b);
    var c, id := run[b].calls[k].owner, run[b].calls[k].id;
    ReplyCalls(run[b], k, reply);
    if reply != Disowned || !TaskAlive(run[b], c, id) {
      EndedStays(run, events, b + 1, i, k);
    }
  }

  lemma AfterWoken(run: seq<World>, events: seq<Event>, i: nat, k: nat, e: nat)
    requires IsTrace(run, events) && e < i < |run| && WokenAt(events, k, e)
    ensures k < |run[e].calls| && run[e].calls[k].id in run[e + 1].store && k < |run[i].calls|
    ensures var c, id := run[e].calls[k].owner, run[e].calls[k].id;
            run[i].calls[k] ==
            Ended(c, id, if run[e + 1].store[id].state == Cancelled then CancelOk else NotActive, true)
  {
    hide IsTrace, Inv;
    TraceStep(run, events, e);
    TraceInv(run, events, e);
    AskedHasRow(run[e], k);
    WokenCalls(run[e], k, events[e].usage);
    EndedStays(run, events, e + 1, i, k);
  }

  /** A cancel call succeeds if and only if the kernel accepted, or it disowned the run and the task that was
      cancelled instead has left the row cancelled. */
  lemma CancelOkExactly(run: seq<World>, events: seq<Event>, i: nat, k: nat)
    requires IsTrace(run, events) && i < |run| && k < |run[i].calls| && run[i].calls[k].Ended?
    ensures run[i].calls[k].result == CancelOk <==>
            || (exists b: nat :: b < i && RepliedAt(events, k, Accepted, b))
            || (exists e: nat :: e < i && WokenAt(events, k, e) && SettledAs(run[e + 1], run[i].calls[k].id, Cancelled))
  {
    hide IsTrace, MadeAt, TaskAlive, Visible, RepliedAt, WokenAt;
    TraceParts(run, events, i);
    var a, b, e := StoryOf(run, events, i, k);
    if b: nat :| b < i && RepliedAt(events, k, Accepted, b) {
      AfterReply(run, events, i, k, Accepted, b);
    }
    if e: nat :| e < i && WokenAt(events, k, e) && SettledAs(run[e + 1], run[i].calls[k].id, Cancelled) {
      AfterWoken(run, events, i, k, e);
    }
  }

  /** It knows no such child if and only if there was none of this conversation when it was made. */
  lemma UnknownExactly(run: seq<World>, events: seq<Event>, i: nat, k: nat)
    requires IsTrace(run, events) && i < |run| && k < |run[i].calls| && run[i].calls[k].Ended?
    ensures var c, id := run[i].calls[k].owner, run[i].calls[k].id;
            run[i].calls[k].result == UnknownChild <==>
            exists a: nat :: && a < i && MadeAt(run, events, k, c, id, a)
                             && !Visible(run[a].coordinators[c], run[a].store, id)
  {
    hide IsTrace, TaskAlive, Visible, RepliedAt, WokenAt;
    TraceParts(run, events, i);
    var a, b, e := StoryOf(run, events, i, k);
    var c, id := run[i].calls[k].owner, run[i].calls[k].id;
    if a: nat :| a < i && MadeAt(run, events, k, c, id, a) && !Visible(run[a].coordinators[c], run[a].store, id) {
      AfterMade(run, events, i, k, c, id, a);
    }
  }

  /** It finds the child not active if and only if it was settled when the call was made, or when the kernel
      disowned it and no task was left to cancel, or was settled otherwise by the task that was cancelled. */
  lemma NotActiveExactly(run: seq<World>, events: seq<Event>, i: nat, k: nat)
    requires IsTrace(run, events) && i < |run| && k < |run[i].calls| && run[i].calls[k].Ended?
    ensures var c, id := run[i].calls[k].owner, run[i].calls[k].id;
            run[i].calls[k].result == NotActive <==>
            || (exists a: nat ::
                  && a < i && MadeAt(run, events, k, c, id, a)
                  && Visible(run[a].coordinators[c], run[a].store, id) && Settled(run[a], id))
            || (exists b: nat ::
                  b < i && RepliedAt(events, k, Disowned, b) && !TaskAlive(run[b], c, id) && Settled(run[b], id))
            || (exists e: nat :: e < i && WokenAt(events, k, e) && !SettledAs(run[e + 1], id, Cancelled))
  {
    hide IsTrace, TaskAlive, RepliedAt, WokenAt;
    TraceParts(run, events, i);
    var a, b, e := StoryOf(run, events, i, k);
    var c, id := run[i].calls[k].owner, run[i].calls[k].id;
    if a: nat :|
      && a < i && MadeAt(run, events, k, c, id, a)
      && Visible(run[a].coordinators[c], run[a].store, id) && Settled(run[a], id)
    {
      AfterMade(run, events, i, k, c, id, a);
    }
    if b: nat :| b < i && RepliedAt(events, k, Disowned, b) && !TaskAlive(run[b], c, id) && Settled(run[b], id) {
      ReplyIsFor(run, events, i, k, Disowned, b);
      AfterReply(run, events, i, k, Disowned, b);
    }
    if e: nat :| e < i && WokenAt(events, k, e) && !SettledAs(run[e + 1], id, Cancelled) {
      AfterWoken(run, events, i, k, e);
    }
  }

  /** It reports the kernel's error if and only if the kernel gave another one than disowning the run, or
      disowned a child that was neither settled nor had a task left. */
  lemma KernelErrorExactly(run: seq<World>, events: seq<Event>, i: nat, k: nat)
    requires IsTrace(run, events) && i < |run| && k < |run[i].calls| && run[i].calls[k].Ended?
    ensures var c, id := run[i].calls[k].owner, run[i].calls[k].id;
            run[i].calls[k].result == KernelError <==>
            || (exists b: nat :: b < i && RepliedAt(events, k, OtherError, b))
            || (exists b: nat ::
                  b < i && RepliedAt(events, k, Disowned, b) && !TaskAlive(run[b], c, id) && !Settled(run[b], id))
  {
    hide IsTrace, MadeAt, TaskAlive, Visible, RepliedAt, WokenAt;
    TraceParts(run, events, i);
    var a, b, e := StoryOf(run, events, i, k);
    var c, id := run[i].calls[k].owner, run[i].calls[k].id;
    if b: nat :| b < i && RepliedAt(events, k, OtherError, b) {
      AfterReply(run, events, i, k, OtherError, b);
    }
    if b: nat :| b < i && RepliedAt(events, k, Disowned, b) && !TaskAlive(run[b], c, id) && !Settled(run[b], id) {
      ReplyIsFor(run, events, i, k, Disowned, b);
      AfterReply(run, events, i, k, Disowned, b);
    }
  }

  /** A call keeps its coordinator and child. */
  lemma {:induction false} CallKeepsParties(run: seq<World>, events: seq<Event>, j: nat, i: nat, k: nat)
    requires IsTrace(run, events) && j <= i < |run| && k < |run[j].calls|
    ensures k < |run[i].calls| && run[i].calls[k].owner == run[j].calls[k].owner
    ensures run[i].calls[k].id == run[j].calls[k].id
    decreases i
  {
    hide IsTrace, Inv, Enabled, Apply;
    if j < i {
      CallKeepsParties(run, events, j, i - 1, k);
      TraceParts(run, events, i);
      TraceStep(run, events, i - 1);
      TraceInv(run, events, i - 1);
      PartiesStay(run[i - 1], events[i - 1], k);
    }
  }

  lemma PartiesStay(w: World, e: Event, k: nat)
    requires Inv(w) && Enabled(w, e) && k < |w.calls|
    ensures var w' := Apply(w, e);
            k < |w'.calls| && w'.calls[k].owner == w.calls[k].owner && w'.calls[k].id == w.calls[k].id
  {
    hide Inv, CancelAnswered;
    CallsMove(w, e, k);
    if e.CancelReply? && e.k == k {
      ReplyCalls(w, k, e.reply);
    } else if e.CancelWoken? && e.k == k {
      AskedHasRow(w, k);
      WokenCalls(w, k, e.usage);
    }
  }

  lemma ReplyIsFor(run: seq<World>, events: seq<Event>, i: nat, k: nat, reply: KernelCancel, b: nat)
    requires IsTrace(run, events) && b < i < |run| && RepliedAt(events, k, reply, b) && k < |run[i].calls|
    ensures k < |run[b].calls| && run[b].calls[k].owner == run[i].calls[k].owner
    ensures run[b].calls[k].id == run[i].calls[k].id
  {
    hide IsTrace;
    TraceStep(run, events, b);
    CallKeepsParties(run, events, b, i, k);
  }
}
