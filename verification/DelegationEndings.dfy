/** How children end: each settles once, by one kind of step, and that alone decides whether its row has a
    summary and a query an answer. */
module DelegationEndings {
  import opened Wrappers
  import opened Texts
  import opened Delegation
  import opened DelegationInvariants
  import opened DelegationRuns
  import opened DelegationTheorems

  predicate Settled(w: World, id: RunId) {
    id in w.store && w.store[id].Terminal()
  }

  /** Refused by a closed supervisor, cancelled without ever reaching the kernel, or ended in the kernel. */
  datatype Ending = Unaccepted | CancelledOutside(usage: Usage) | KernelEnd(answer: KernelAnswer)

  /** How the event would end the child, if it is one that can. */
  function EndingOf(w: World, e: Event, id: RunId): Option<Ending> {
    match e
    case SpawnCall(_, _, _) => if w.supervisorClosed then Some(Unaccepted) else None
    case ResumeTask(x, _, usage) =>
      if x == id && id in w.tasks && w.tasks[id].cancelled then Some(CancelledOutside(usage)) else None
    case KernelDone(x, answer) => if x == id then Some(KernelEnd(answer)) else None
    case CancelWoken(k, usage) => if k < |w.calls| && w.calls[k].id == id then Some(CancelledOutside(usage)) else None
    case Finalized(c, usages) =>
      if c < |w.coordinators| && id in w.coordinators[c].childTasks
      then Some(CancelledOutside(if id in usages then usages[id] else NO_USAGE)) else None
    case _ => None
  }

  /** The outcome that the ending records: what the kernel answered - for a run that completed, failed or was
      cancelled in it - or what stands for its exception. */
  function RecordedOutcome(ending: Ending): Option<Outcome> {
    match ending
    case KernelEnd(Answered(o)) => Some(o)
    case KernelEnd(Raised(o)) => Some(o)
    case _ => None
  }

  ghost predicate SaysCancelled(row: Row, usage: Usage) {
    && row.state == Cancelled && row.summary == None && row.errorCode == None
    && row.safeMessage == Some("子运行在后台被取消。") && row.usage == usage
  }

  ghost predicate SaysFailed(row: Row, code: string, message: string, usage: Usage) {
    && row.state == Failed && row.summary == None && row.errorCode == Some(code) && row.safeMessage == Some(message)
    && row.usage == usage
  }

  /** What the ending leaves in the row: the outcome if one is recorded, and else a state, a code, a message
      and the usage known, but no summary. */
  ghost predicate Leaves(ending: Ending, row: Row) {
    match ending
    case Unaccepted => SaysFailed(row, "delegation_supervisor_closed", "后台任务主管已关闭，子运行未能启动。", Usage(0, 0, 0, 0))
    case CancelledOutside(usage) => SaysCancelled(row, usage)
    case KernelEnd(Answered(o)) => o.Valid() && RowMatches(row, o)
    case KernelEnd(Raised(o)) => o.Valid() && RowMatches(row, o) && row.state == Failed
    case KernelEnd(Refused(usage)) =>
      SaysFailed(row, "delegation_contract_violation", "子运行内核返回了不匹配的 run id。", usage)
    case KernelEnd(Crashed(usage)) => SaysFailed(row, "delegation_child_crashed", "子运行内部错误，已按失败收尾。", usage)
    case KernelEnd(CancelledInKernel(usage)) => SaysCancelled(row, usage)
  }

  /** What an ending does not change. */
  predicate SameChild(row: Row, row': Row) {
    && row'.parent == row.parent && row'.call == row.call && row'.conversation == row.conversation
    && row'.depth == row.depth && row'.startedAt == row.startedAt
  }

  // ----- one step ------------------------------------------------------------------------

  lemma SpawnSettles(w: World, parent: RunId, conversation: string, call: string, id: RunId)
    requires !Settled(w, id) && Settled(Spawn(w, parent, conversation, call), id)
    requires id in w.store ==> id in w.tasks
    ensures w.supervisorClosed && Leaves(Unaccepted, Spawn(w, parent, conversation, call).store[id]) && id !in w.store
  {
    hide Lookup, Inflight;
    LookupKeepsStore(w, parent, conversation);
  }

  lemma LookupKeepsStore(w: World, parent: RunId, conversation: string)
    ensures var found := Lookup(w, parent, conversation);
            found.store == w.store && found.supervisorClosed == w.supervisorClosed
  {
    hide Find, Evict, Touch;
  }

  lemma ResumeSettles(w: World, x: RunId, now: nat, usage: Usage, id: RunId)
    requires Runnable(w, x) && !Settled(w, id) && Settled(Resume(w, x, now, usage), id)
    ensures x == id && w.tasks[id].cancelled && Leaves(CancelledOutside(usage), Resume(w, x, now, usage).store[id])
    ensures SameChild(w.store[x], Resume(w, x, now, usage).store[id])
  {
    hide QueueForAdmission, QueueForSlot;
    QueueingKeepsStore(w, x);
    if w.tasks[x].phase == Fresh {
      QueueingKeepsStore(QueueForAdmission(w, x), x);
    }
  }

  lemma QueueingKeepsStore(w: World, id: RunId)
    requires Handled(w, id)
    ensures QueueForAdmission(w, id).store == w.store && Handled(QueueForAdmission(w, id), id)
    ensures QueueForSlot(w, id).store == w.store && Handled(QueueForSlot(w, id), id)
  {
  }

  lemma KernelSettles(w: World, x: RunId, answer: KernelAnswer, id: RunId)
    requires Handled(w, x) && ValidAnswer(answer) && !Settled(w, id) && Settled(KernelEnds(w, x, answer), id)
    ensures x == id && Leaves(KernelEnd(answer), KernelEnds(w, x, answer).store[id])
    ensures SameChild(w.store[x], KernelEnds(w, x, answer).store[id])
  {
    hide Recording;
  }

  lemma FinalizeSettles(w: World, c: nat, usages: map<RunId, Usage>, id: RunId)
    requires c < |w.coordinators| && !Settled(w, id) && Settled(Finalize(w, c, usages), id)
    ensures id in w.coordinators[c].childTasks && id in w.store
    ensures Leaves(CancelledOutside(if id in usages then usages[id] else NO_USAGE), Finalize(w, c, usages).store[id])
    ensures SameChild(w.store[id], Finalize(w, c, usages).store[id])
  {
  }

  lemma StepSettles(w: World, e: Event, id: RunId)
    requires Inv(w) && Enabled(w, e) && !Settled(w, id) && Settled(Apply(w, e), id)
    ensures EndingOf(w, e, id).Some? && Leaves(EndingOf(w, e, id).value, Apply(w, e).store[id])
    ensures id in w.store ==> SameChild(w.store[id], Apply(w, e).store[id])
  {
    hide Inv, Lookup, Evict, Touch, Spawn, Resume, KernelEnds, CancelTask, Finalize, Leaves, SameChild;
    match e
    case ToolCall(parent, conversation) => LookupKeepsStore(w, parent, conversation);
    case SpawnCall(parent, conversation, call) =>
      assert id in w.store ==> id in w.tasks by { ControlOf(w, id); }
      SpawnSettles(w, parent, conversation, call, id);
    case ResumeTask(x, now, usage) => ResumeSettles(w, x, now, usage, id);
    case KernelDone(x, answer) => KernelSettles(w, x, answer, id);
    case CancelReply(k, reply) => CancelKeepsStore(w, w.calls[k].id);
    case CancelWoken(k, usage) => WokenSettles(w, k, usage, id);
    case Finalized(c, usages) => FinalizeSettles(w, c, usages, id);
    case _ =>
  }

  lemma ControlOf(w: World, id: RunId)
    requires Inv(w) && !Settled(w, id)
    ensures id in w.store ==> id in w.tasks
  {
  }

  lemma CancelKeepsStore(w: World, id: RunId)
    ensures Handled(w, id) ==> CancelTask(w, id).store == w.store
  {
  }

  lemma WokenSettles(w: World, k: nat, usage: Usage, id: RunId)
    requires k < |w.calls| && w.calls[k].AwaitingTask? && !Settled(w, id) && Settled(CancelResumed(w, k, usage), id)
    ensures w.calls[k].id == id && Leaves(CancelledOutside(usage), CancelResumed(w, k, usage).store[id])
    ensures id in w.store && SameChild(w.store[id], CancelResumed(w, k, usage).store[id])
  {
  }

  /** A child cancelled outside was never handed to the kernel. */
  lemma NeverReached(w: World, e: Event, id: RunId)
    requires Inv(w) && Enabled(w, e) && !Settled(w, id) && id in w.tasks && EndingOf(w, e, id).Some?
    requires EndingOf(w, e, id).value.CancelledOutside?
    ensures id !in w.kernelLog
  {
    hide History;
    assert TaskOk(w.coordinators, w.tasks[id], w.store[id]);
    assert PhaseOk(w.coordinators[w.tasks[id].owner], w.tasks[id], w.store[id], id, id in w.kernelLog);
  }

  lemma LoggedHasTask(w: World, id: RunId)
    requires Inv(w) && id in w.kernelLog
    ensures id in w.tasks
  {
    hide History;
  }

  // ----- any run -------------------------------------------------------------------------

  lemma TraceIsRun(run: seq<World>, events: seq<Event>)
    requires IsTrace(run, events)
    ensures IsRun(run)
  {
    hide Enabled, Apply, Init;
    forall i | 0 <= i < |run| - 1 ensures Step(run[i], run[i + 1]) {
      assert Enabled(run[i], events[i]) && run[i + 1] == Apply(run[i], events[i]);
    }
  }

  /** The child settles at step `k`. */
  ghost predicate SettlesAt(run: seq<World>, k: nat, id: RunId) {
    k + 1 < |run| && !Settled(run[k], id) && Settled(run[k + 1], id)
  }

  /** A settled child of this process settled at one step, an ending of one of the kinds above, and its row
      is what that ending left. */
  lemma {:induction false} EndsOnce(run: seq<World>, events: seq<Event>, i: nat, id: RunId) returns (k: nat)
    requires IsTrace(run, events) && i < |run| && Settled(run[i], id) && id !in run[0].store
    ensures k < i && SettlesAt(run, k, id) && EndingOf(run[k], events[k], id).Some?
    ensures Leaves(EndingOf(run[k], events[k], id).value, run[i].store[id])
    ensures EndingOf(run[k], events[k], id).value.CancelledOutside? ==> id !in run[k].kernelLog
    ensures id in run[k].store ==> SameChild(run[k].store[id], run[i].store[id])
    ensures forall j: nat :: j < i && SettlesAt(run, j, id) ==> j == k
    decreases i
  {
    hide IsTrace, Inv, Enabled, Apply, EndingOf, Leaves;
    assert i > 0 && |events| + 1 == |run| by { TraceParts(run, events, i); }
    TraceStep(run, events, i - 1);
    TraceInv(run, events, i - 1);
    if Settled(run[i - 1], id) {
      k := EndsOnce(run, events, i - 1, id);
      SettledStays(run, events, i - 1, i, id);
    } else {
      k := i - 1;
      StepSettles(run[k], events[k], id);
      if EndingOf(run[k], events[k], id).value.CancelledOutside? && id in run[k].kernelLog {
        LoggedHasTask(run[k], id);
        NeverReached(run[k], events[k], id);
      }
      forall j: nat | j < i && SettlesAt(run, j, id) ensures j == k {
        if j < k {
          SettledStays(run, events, j + 1, k, id);
        }
      }
    }
  }

  lemma TraceParts(run: seq<World>, events: seq<Event>, i: nat)
    requires IsTrace(run, events) && i < |run|
    ensures |events| + 1 == |run|
  {
  }

  lemma TraceStep(run: seq<World>, events: seq<Event>, i: nat)
    requires IsTrace(run, events) && i < |events|
    ensures i + 1 < |run| && Enabled(run[i], events[i]) && run[i + 1] == Apply(run[i], events[i])
  {
  }

  lemma SettledStays(run: seq<World>, events: seq<Event>, i: nat, j: nat, id: RunId)
    requires IsTrace(run, events) && i <= j < |run| && Settled(run[i], id)
    ensures Settled(run[j], id) && run[j].store[id] == run[i].store[id]
  {
    hide IsTrace, Step;
    TraceIsRun(run, events);
    RunKept(run, i, j);
  }

  /** A settled child of this process has no summary if and only if it was refused by a closed supervisor,
      or cancelled without reaching the kernel, or the kernel call crashed, was cancelled from outside, or
      gave an answer that was refused. A child that the kernel itself reports as cancelled has one. */
  lemma NoSummaryExactly(run: seq<World>, events: seq<Event>, i: nat, id: RunId)
    requires IsTrace(run, events) && i < |run| && Settled(run[i], id) && id !in run[0].store
    ensures run[i].store[id].summary == None <==>
            exists k: nat :: && k < i && SettlesAt(run, k, id)
                             && EndingOf(run[k], events[k], id).Some?
                             && RecordedOutcome(EndingOf(run[k], events[k], id).value) == None
  {
    hide IsTrace, EndingOf, Settled;
    var k := EndsOnce(run, events, i, id);
    TraceParts(run, events, i);
  }

  /** So that is when a query on it cannot be answered, whichever coordinator that passes the ownership check
      is asked. */
  lemma UnanswerableExactly(run: seq<World>, events: seq<Event>, i: nat, d: nat, id: RunId)
    requires IsTrace(run, events) && i < |run| && Settled(run[i], id) && id !in run[0].store
    requires d < |run[i].coordinators| && OwnsRow(run[i].coordinators[d], run[i].store[id])
    ensures Query(run[i], d, id) == Unrepresentable <==> run[i].store[id].summary == None
    ensures Query(run[i], d, id).Reply? <==> run[i].store[id].summary != None
  {
    hide IsTrace, IsRun, EndingOf, Query, OwnsRow, Leaves, Representable, RecordedOutcome, SettlesAt;
    var k := EndsOnce(run, events, i, id);
    TraceParts(run, events, i);
    TraceIsRun(run, events);
    QueryAnswersExactly(run, i, d, id);
    LeftRepresentable(EndingOf(run[k], events[k], id).value, run[i].store[id]);
  }

  lemma LeftRepresentable(ending: Ending, row: Row)
    requires Leaves(ending, row) && row.Terminal()
    ensures Representable(row) <==> row.summary != None
  {
    hide RowMatches, RequireText, Strip;
    match RecordedOutcome(ending)
    case Some(o) =>
      RowReadsBack(row, o);
      ShownIsReply(row, o);
    case None =>
      NothingFails(MAX_SUMMARY);
  }

  lemma NothingFails(most: nat)
    ensures RequireText("", most) == None
  {
  }

  lemma ShownIsReply(row: Row, o: Outcome)
    requires RowMatches(row, o) && row.Terminal() && ShownRow(row) == Shown(o)
    ensures Representable(row) && row.summary != None
  {
    hide RequireText;
  }
}
