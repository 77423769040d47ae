/** Child-run delegation: the handler's cache of coordinators, each coordinator's bookkeeping,
    the child-run store and the background tasks, as one system of atomic steps. A step is a
    stretch of code between two suspension points. */
module Delegation {
  import opened Wrappers
  import opened Texts
  import opened Semaphores

  // ----- identifiers and rows ------------------------------------------------------------

  /** A child run id is derived from its spawn key (parent run, tool call) and nothing else. */
  datatype RunId = Root(name: string) | Child(parent: RunId, call: string)

  datatype RowState = Running | Completed | Failed | Cancelled | Interrupted

  datatype Usage = Usage(inputTokens: nat, outputTokens: nat, modelTurns: nat, toolCalls: nat)

  const NO_USAGE := Usage(0, 0, 0, 0)

  datatype Row = Row(
    parent: RunId, call: string, conversation: string, depth: nat,
    state: RowState, startedAt: Option<nat>,
    summary: Option<string>, errorCode: Option<string>, safeMessage: Option<string>, usage: Usage)
  {
    predicate Terminal() { state != Running }

    /** The terminal write: refused (no change) unless the row is still running. */
    function Settled(state': RowState, summary': Option<string>, errorCode': Option<string>,
                     safeMessage': Option<string>, usage': Usage): Row
    {
      if state == Running
      then this.(state := state', summary := summary', errorCode := errorCode', safeMessage := safeMessage',
          usage := usage')
      else this
    }

    function MarkedCancelled(usage': Usage): Row {
      Settled(Cancelled, None, None, Some("子运行在后台被取消。"), usage')
    }

    function MarkedFailed(code: string, message: string, usage': Usage): Row {
      Settled(Failed, None, Some(code), Some(message), usage')
    }

    /** The start mark: written once, and only while the row is running. */
    function MarkedStarted(now: nat): Row {
      if state == Running && startedAt == None then this.(startedAt := Some(now)) else this
    }
  }

  type Store = map<RunId, Row>

  /** The reserved and not yet terminal children of a parent run. */
  function Inflight(store: Store, parent: RunId): set<RunId> {
    set id | id in store && store[id].parent == parent && !store[id].Terminal()
  }

  // ----- outcomes and records ------------------------------------------------------------

  const MAX_SUMMARY: nat := 20_000
  const MAX_CODE: nat := 256
  const MAX_MESSAGE: nat := 2_048

  datatype ChildStatus = StatusCompleted | StatusFailed | StatusCancelled

  datatype Diagnostic = Diagnostic(code: string, safeMessage: string)

  datatype Outcome = Outcome(status: ChildStatus, summary: string, usage: Usage, diagnostics: seq<Diagnostic>) {
    /** What constructing an outcome enforces: summary, codes and messages are trimmed, not empty and not
        too long. */
    ghost predicate Valid() {
      && Checked(summary, MAX_SUMMARY)
      && forall d :: d in diagnostics ==> Checked(d.code, MAX_CODE) && Checked(d.safeMessage, MAX_MESSAGE)
    }
  }

  datatype Record = Record(id: RunId, outcome: Outcome)

  function StoredState(status: ChildStatus): RowState {
    match status
    case StatusCompleted => Completed
    case StatusFailed => Failed
    case StatusCancelled => Cancelled
  }

  // ----- coordinators, cache and tasks ---------------------------------------------------

  datatype Limits = Limits(concurrent: nat, admitted: nat, queued: nat) {
    predicate Valid() { 0 < concurrent <= admitted <= queued }
  }

  const MAX_RETAINED_TERMINAL_RECORDS: nat := 32
  const MAX_TRACKED_PARENT_RUNS: nat := 32
  const MAX_DEPTH: nat := 1

  /** `completed` is history: every record ever stored, in completion order. `children` is what
      the coordinator still has in memory. */
  datatype Coordinator = Coordinator(
    parent: RunId, conversation: string, depth: nat,
    children: seq<Record>, completed: seq<Record>,
    spawnKeys: set<string>, childTasks: set<RunId>,
    admission: Semaphore<RunId>, slots: Semaphore<RunId>)

  /** One entry of the ordered cache; the least recently used entry comes first. */
  datatype CacheEntry = CacheEntry(parent: RunId, owner: nat)

  datatype Phase = Fresh | AwaitAdmission | AwaitSlot | InKernel | Done

  datatype Task = Task(owner: nat, phase: Phase, cancelled: bool)

  datatype CancelResult = CancelOk | NotActive | UnknownChild | KernelError

  /** A `cancel` call in progress, or its result. `disowned`: the kernel said it has no such run. */
  datatype CancelCall =
    | AtKernel(owner: nat, id: RunId)
    | AwaitingTask(owner: nat, id: RunId)
    | Ended(owner: nat, id: RunId, result: CancelResult, disowned: bool)

  datatype World = World(
    limits: Limits,
    store: Store,
    coordinators: seq<Coordinator>,
    cache: seq<CacheEntry>,
    tasks: map<RunId, Task>,
    supervisorClosed: bool,
    kernelLog: seq<RunId>,
    wakeups: seq<RunId>,
    calls: seq<CancelCall>)

  // ----- the ordered cache ---------------------------------------------------------------

  /** Index of the entry for `parent`, or the length of the cache when there is none. */
  function Find(cache: seq<CacheEntry>, parent: RunId): (i: nat)
    ensures i <= |cache|
    ensures i < |cache| ==> cache[i].parent == parent
    ensures forall k :: 0 <= k < i ==> cache[k].parent != parent
  {
    if cache == [] || cache[0].parent == parent then 0 else 1 + Find(cache[1..], parent)
  }

  /** Moves an entry to the most recently used end. */
  function Touch(cache: seq<CacheEntry>, parent: RunId): seq<CacheEntry> {
    var i := Find(cache, parent);
    if i == |cache| then cache else cache[..i] + cache[i + 1..] + [cache[i]]
  }

  /** Drops idle entries from the least recently used end until `excess` of them are gone. */
  function DropIdle(cache: seq<CacheEntry>, store: Store, excess: nat): seq<CacheEntry> {
    if cache == [] || excess == 0 then cache
    else if Inflight(store, cache[0].parent) != {} then [cache[0]] + DropIdle(cache[1..], store, excess)
    else DropIdle(cache[1..], store, excess - 1)
  }

  function Evict(cache: seq<CacheEntry>, store: Store): seq<CacheEntry> {
    DropIdle(cache, store, if |cache| < MAX_TRACKED_PARENT_RUNS then 0 else |cache| - MAX_TRACKED_PARENT_RUNS + 1)
  }

  // ----- retained records ----------------------------------------------------------------

  function LastOf<T>(s: seq<T>, n: nat): seq<T> {
    if |s| <= n then s else s[|s| - n..]
  }

  /** Assignment in an ordered dictionary: in place for a known key, else at the end. */
  function PutRecord(children: seq<Record>, record: Record): seq<Record> {
    if children == [] then [record]
    else if children[0].id == record.id then [record] + children[1..]
    else [children[0]] + PutRecord(children[1..], record)
  }

  ghost predicate Recorded(children: seq<Record>, id: RunId) {
    exists i :: 0 <= i < |children| && children[i].id == id
  }

  // ----- steps ---------------------------------------------------------------------------

  /** Every tool call resolves the coordinator of its run: a cached one is touched, else idle
      ones are evicted and a new one is built. */
  function Lookup(w: World, parent: RunId, conversation: string): World {
    if Find(w.cache, parent) < |w.cache| then w.(cache := Touch(w.cache, parent))
    else
      var depth := if parent in w.store then w.store[parent].depth else 0;
      var built := Coordinator(parent, conversation, depth, [], [], {}, {},
                               New(w.limits.admitted), New(w.limits.concurrent));
      w.(cache := Evict(w.cache, w.store) + [CacheEntry(parent, |w.coordinators|)],
         coordinators := w.coordinators + [built])
  }

  /** Reserve on coordinator `c`, then hand the body to the supervisor. A closed supervisor makes the
      reservation a failed row; the in-memory key is given up again. */
  function Start(w: World, c: nat, call: string): World
    requires c < |w.coordinators|
  {
    var co := w.coordinators[c];
    var id := Child(co.parent, call);
    if co.depth + 1 > MAX_DEPTH || call in co.spawnKeys
       || |Inflight(w.store, co.parent)| >= w.limits.queued || id in w.store
    then w
    else
      var row := Row(co.parent, call, co.conversation, co.depth + 1, Running, None, None, None, None, NO_USAGE);
      if w.supervisorClosed then
        w.(store := w.store[id := row.MarkedFailed("delegation_supervisor_closed", "后台任务主管已关闭，子运行未能启动。", NO_USAGE)])
      else
        w.(store := w.store[id := row],
           coordinators := w.coordinators[c := co.(spawnKeys := co.spawnKeys + {call},
                                                  childTasks := co.childTasks + {id})],
           tasks := w.tasks[id := Task(c, Fresh, false)])
  }

  function Spawn(w: World, parent: RunId, conversation: string, call: string): World {
    var found := Lookup(w, parent, conversation);
    var i := Find(found.cache, parent);
    if i < |found.cache| && found.cache[i].owner < |found.coordinators|
    then Start(found, found.cache[i].owner, call)
    else found
  }

  predicate Live(w: World, id: RunId) {
    id in w.tasks && w.tasks[id].phase != Done
  }

  /** The task has its row and its coordinator. */
  predicate Handled(w: World, id: RunId) {
    id in w.tasks && id in w.store && w.tasks[id].owner < |w.coordinators|
  }

  function OwnerOf(w: World, id: RunId): Coordinator
    requires Handled(w, id)
  {
    w.coordinators[w.tasks[id].owner]
  }

  /** The state after a step that concerns one child: its coordinator, its task and its row. */
  function Put(w: World, id: RunId, co: Coordinator, t: Task, row: Row): World
    requires Handled(w, id)
  {
    w.(coordinators := w.coordinators[w.tasks[id].owner := co], tasks := w.tasks[id := t], store := w.store[id := row])
  }

  /** A task that the event loop may run: not started yet, granted what it waits for, or cancelled. */
  predicate Runnable(w: World, id: RunId) {
    && Handled(w, id)
    && var t := w.tasks[id];
       match t.phase
       case Fresh => true
       case AwaitAdmission => t.cancelled || id in OwnerOf(w, id).admission.holders
       case AwaitSlot => t.cancelled || id in OwnerOf(w, id).slots.holders
       case InKernel => false
       case Done => false
  }

  /** At the admission gate: take a place or queue for one. */
  function QueueForAdmission(w: World, id: RunId): World
    requires Handled(w, id)
  {
    var co := OwnerOf(w, id);
    Put(w, id, co.(admission := co.admission.Acquire(id)), w.tasks[id].(phase := AwaitAdmission), w.store[id])
  }

  /** At the concurrency gate: take a slot or queue for one. */
  function QueueForSlot(w: World, id: RunId): World
    requires Handled(w, id)
  {
    var co := OwnerOf(w, id);
    Put(w, id, co.(slots := co.slots.Acquire(id)), w.tasks[id].(phase := AwaitSlot), w.store[id])
  }

  /** Past both gates: mark the row started and call the kernel. */
  function EnterKernel(w: World, id: RunId, now: nat): World
    requires Handled(w, id)
  {
    Put(w, id, OwnerOf(w, id), w.tasks[id].(phase := InKernel), w.store[id].MarkedStarted(now))
      .(kernelLog := w.kernelLog + [id])
  }

  function PassAdmission(w: World, id: RunId, now: nat): World
    requires Handled(w, id)
  {
    var w' := QueueForSlot(w, id);
    if id in OwnerOf(w', id).slots.holders then EnterKernel(w', id, now) else w'
  }

  /** Cancellation outside the kernel: give back what was granted, settle the row, drop the handle. */
  function CancelExit(w: World, id: RunId, usage: Usage): World
    requires Handled(w, id)
  {
    var co := OwnerOf(w, id);
    Put(w, id,
        co.(slots := co.slots.GiveBack(id), admission := co.admission.GiveBack(id), childTasks := co.childTasks - {id}),
        w.tasks[id].(phase := Done), w.store[id].MarkedCancelled(usage))
  }

  /** Cancelled before its first line ran: the body never sees it, the row stays as it is. */
  function NeverRan(w: World, id: RunId): World
    requires Handled(w, id)
  {
    Put(w, id, OwnerOf(w, id), w.tasks[id].(phase := Done), w.store[id])
  }

  /** The next stretch of a task outside the kernel. */
  function Resume(w: World, id: RunId, now: nat, usage: Usage): World
    requires Runnable(w, id)
  {
    var t := w.tasks[id];
    if t.phase == Fresh then
      if t.cancelled then NeverRan(w, id)
      else
        var w' := QueueForAdmission(w, id);
        if id in OwnerOf(w', id).admission.holders then PassAdmission(w', id, now) else w'
    else if t.cancelled then CancelExit(w, id, usage)
    else if t.phase == AwaitAdmission then PassAdmission(w, id, now)
    else EnterKernel(w, id, now)
  }

  /** How the kernel call and the recording of its answer can end. */
  datatype KernelAnswer =
    | Answered(outcome: Outcome)          // an answer for this run that can be projected
    | Raised(failure: Outcome)            // the kernel raised; a failed outcome is recorded instead
    | Refused(usage: Usage)               // the answer names another run or cannot be projected
    | Crashed(usage: Usage)               // any other escape after the kernel returned
    | CancelledInKernel(usage: Usage)          // cancellation propagated out of the kernel

  ghost predicate ValidAnswer(answer: KernelAnswer) {
    match answer
    case Answered(outcome) => outcome.Valid()
    case Raised(failure) => failure.Valid() && failure.status == StatusFailed
    case _ => true
  }

  /** The record an answer leaves in memory, if any. */
  function RecordOf(id: RunId, answer: KernelAnswer): Option<Record> {
    match answer
    case Answered(outcome) => Some(Record(id, outcome))
    case Raised(failure) => Some(Record(id, failure))
    case _ => None
  }

  /** What is written to the row. */
  function SettledRow(row: Row, answer: KernelAnswer): Row {
    match answer
    case Answered(o) => RecordedRow(row, o)
    case Raised(o) => RecordedRow(row, o)
    case Refused(usage) => row.MarkedFailed("delegation_contract_violation", "子运行内核返回了不匹配的 run id。", usage)
    case Crashed(usage) => row.MarkedFailed("delegation_child_crashed", "子运行内部错误，已按失败收尾。", usage)
    case CancelledInKernel(usage) => row.MarkedCancelled(usage)
  }

  function RecordedRow(row: Row, o: Outcome): Row {
    row.Settled(StoredState(o.status), Some(o.summary),
                if o.diagnostics == [] then None else Some(o.diagnostics[0].code),
                if o.diagnostics == [] then None else Some(o.diagnostics[0].safeMessage), o.usage)
  }

  /** The coordinator after recording an answer: a record is remembered and, once its write was
      accepted, memory is trimmed; a refused answer gives the in-memory spawn key up. */
  function Recording(co: Coordinator, id: RunId, row: Row, answer: KernelAnswer): Coordinator {
    match RecordOf(id, answer)
    case Some(r) =>
      var children := PutRecord(co.children, r);
      if row.Terminal() then co.(children := children)
      else co.(children := LastOf(children, MAX_RETAINED_TERMINAL_RECORDS), completed := co.completed + [r])
    case None =>
      if answer.Refused? then co.(spawnKeys := co.spawnKeys - {row.call}) else co
  }

  /** The kernel call ends: record it, schedule the wakeup of an accepted record, release both
      permits, drop the handle. */
  function KernelEnds(w: World, id: RunId, answer: KernelAnswer): World
    requires Handled(w, id)
  {
    var row := w.store[id];
    var co := Recording(OwnerOf(w, id), id, row, answer);
    Put(w, id,
        co.(slots := co.slots.Release(id), admission := co.admission.Release(id), childTasks := co.childTasks - {id}),
        w.tasks[id].(phase := Done), SettledRow(row, answer))
      .(wakeups := if RecordOf(id, answer).Some? && !row.Terminal() then w.wakeups + [id] else w.wakeups)
  }

  /** `task.cancel()`: flag the task and take it out of whatever queue it waits in. */
  function CancelTask(w: World, id: RunId): World
    requires Handled(w, id)
  {
    var co := OwnerOf(w, id);
    Put(w, id, co.(admission := co.admission.Withdraw(id), slots := co.slots.Withdraw(id)),
        w.tasks[id].(cancelled := true), w.store[id])
  }

  predicate OwnsRow(co: Coordinator, row: Row) {
    if co.conversation != "" && row.conversation != "" then row.conversation == co.conversation
    else row.parent == co.parent
  }

  // ----- asking ------------------------------------------------------------------------------

  /** What a query shows of an outcome; `Unrepresentable`: the row cannot be turned into an outcome. */
  datatype QueryAnswer =
    | Reply(status: ChildStatus, summary: string, usage: Usage, diagnostic: Option<Diagnostic>)
    | StillRunning
    | NoSuchChild
    | Unrepresentable

  function Shown(o: Outcome): QueryAnswer {
    Reply(o.status, o.summary, o.usage, if o.diagnostics == [] then None else Some(o.diagnostics[0]))
  }

  function TextOr(text: Option<string>, default: string): string {
    if text.Some? && text.value != "" then text.value else default
  }

  /** The diagnostic that a row carries, if any; its parts have defaults. */
  function RowDiagnostic(row: Row): Option<Diagnostic> {
    if TextOr(row.errorCode, "") == "" && TextOr(row.safeMessage, "") == "" then None
    else Some(Diagnostic(TextOr(row.errorCode, "delegation_child_failed"),
                         TextOr(row.safeMessage, "子运行未能完成。")))
  }

  /** A diagnostic is checked like any other text; None when that refuses it. */
  function RequireDiagnostic(d: Diagnostic): Option<Diagnostic> {
    match (RequireText(d.code, MAX_CODE), RequireText(d.safeMessage, MAX_MESSAGE))
    case (Some(code), Some(message)) => Some(Diagnostic(code, message))
    case _ => None
  }

  /** The row holds a summary, and a diagnostic if any, that pass the checks. */
  predicate Representable(row: Row) {
    && RequireText(TextOr(row.summary, ""), MAX_SUMMARY).Some?
    && (RowDiagnostic(row).Some? ==> RequireDiagnostic(RowDiagnostic(row).value).Some?)
  }

  function RowStatus(state: RowState): ChildStatus {
    match state
    case Completed => StatusCompleted
    case Cancelled => StatusCancelled
    case _ => StatusFailed
  }

  /** Rebuilds an outcome from a terminal row, checking its texts again; an interrupted row reads as failed. */
  function ShownRow(row: Row): QueryAnswer
    requires row.Terminal()
  {
    var summary := RequireText(TextOr(row.summary, ""), MAX_SUMMARY);
    var diagnostic := RowDiagnostic(row);
    if diagnostic.Some? && RequireDiagnostic(diagnostic.value) == None then Unrepresentable
    else
      match summary
      case None => Unrepresentable
      case Some(text) =>
        Reply(RowStatus(row.state), text, row.usage,
              if diagnostic == None then None else RequireDiagnostic(diagnostic.value))
  }

  /** Memory first, without an ownership check; then the row, if it is this conversation's. */
  function Query(w: World, c: nat, id: RunId): QueryAnswer
    requires c < |w.coordinators|
  {
    var co := w.coordinators[c];
    var i := FindRecord(co.children, id);
    if i < |co.children| then Shown(co.children[i].outcome)
    else if id !in w.store || !OwnsRow(co, w.store[id]) then NoSuchChild
    else if w.store[id].Terminal() then ShownRow(w.store[id])
    else StillRunning
  }

  /** Index of the record of `id`, or the length of the list when there is none. */
  function FindRecord(records: seq<Record>, id: RunId): (i: nat)
    ensures i <= |records|
    ensures i < |records| ==> records[i].id == id
    ensures forall k :: 0 <= k < i ==> records[k].id != id
  {
    if records == [] || records[0].id == id then 0 else 1 + FindRecord(records[1..], id)
  }

  // ----- cancelling --------------------------------------------------------------------------

  function CancelBegin(w: World, c: nat, id: RunId): World
    requires c < |w.coordinators|
  {
    var co := w.coordinators[c];
    var call :=
      if FindRecord(co.children, id) < |co.children| then Ended(c, id, NotActive, false)
      else if id !in w.store || !OwnsRow(co, w.store[id]) then Ended(c, id, UnknownChild, false)
      else if w.store[id].Terminal() then Ended(c, id, NotActive, false)
      else AtKernel(c, id);
    w.(calls := w.calls + [call])
  }

  datatype KernelCancel = Accepted | Disowned | OtherError

  /** The kernel answers the cancellation of call `k`. */
  function CancelAnswered(w: World, k: nat, answer: KernelCancel): World
    requires k < |w.calls| && w.calls[k].AtKernel? && w.calls[k].owner < |w.coordinators|
  {
    var c, id := w.calls[k].owner, w.calls[k].id;
    match answer
    case Accepted => w.(calls := w.calls[k := Ended(c, id, CancelOk, false)])
    case OtherError => w.(calls := w.calls[k := Ended(c, id, KernelError, false)])
    case Disowned =>
      if id in w.coordinators[c].childTasks && Live(w, id) && Handled(w, id) then
        CancelTask(w, id).(calls := w.calls[k := AwaitingTask(c, id)])
      else if id in w.store && w.store[id].Terminal() then
        w.(calls := w.calls[k := Ended(c, id, NotActive, true)])
      else w.(calls := w.calls[k := Ended(c, id, KernelError, true)])
  }

  /** The task that call `k` cancelled has ended: look at the row again. */
  function CancelResumed(w: World, k: nat, usage: Usage): World
    requires k < |w.calls| && w.calls[k].AwaitingTask?
  {
    var c, id := w.calls[k].owner, w.calls[k].id;
    if id in w.store && w.store[id].Terminal() then
      w.(calls := w.calls[k := Ended(c, id, if w.store[id].state == Cancelled then CancelOk else NotActive, true)])
    else if id in w.store then
      w.(store := w.store[id := w.store[id].MarkedCancelled(usage)],
          calls := w.calls[k := Ended(c, id, CancelOk, true)])
    else w.(calls := w.calls[k := Ended(c, id, CancelOk, true)])
  }

  /** Closing the supervisor cancels every task that is not done. */
  function CloseSupervisor(w: World): World {
    w.(supervisorClosed := true,
       tasks := map id | id in w.tasks :: if w.tasks[id].phase == Done then w.tasks[id]
           else w.tasks[id].(cancelled := true),
       coordinators := seq(|w.coordinators|, c requires 0 <= c < |w.coordinators| =>
         var co := w.coordinators[c];
         co.(admission := co.admission.(queue := []), slots := co.slots.(queue := []))))
  }

  /** The best usage known for a child, or none at all. */
  function UsageOf(usages: map<RunId, Usage>, id: RunId): Usage {
    if id in usages then usages[id] else NO_USAGE
  }

  function SettleHandle(row: Row, tracked: bool, usage: Usage): Row {
    if tracked then row.MarkedCancelled(usage) else row
  }

  /** The store after the rows of `handles` that belong to `parent` were marked cancelled. */
  function SettleHandles(store: Store, handles: set<RunId>, parent: RunId, usages: map<RunId, Usage>): Store {
    map id | id in store :: SettleHandle(store[id], id in handles && store[id].parent == parent, UsageOf(usages, id))
  }

  /** After the supervisor has drained: rows of tracked tasks that are still running become cancelled. */
  function Finalize(w: World, c: nat, usages: map<RunId, Usage>): World
    requires c < |w.coordinators|
  {
    var co := w.coordinators[c];
    w.(store := SettleHandles(w.store, co.childTasks, co.parent, usages),
       coordinators := w.coordinators[c := co.(childTasks := {})])
  }

  // ----- the transition system -----------------------------------------------------------

  datatype Event =
    | ToolCall(parent: RunId, conversation: string)
    | ToolCallRefused(parent: RunId)
    | Routed(parent: RunId)
    | SpawnCall(parent: RunId, conversation: string, call: string)
    | ResumeTask(id: RunId, now: nat, usage: Usage)
    | KernelDone(id: RunId, answer: KernelAnswer)
    | CancelCalled(owner: nat, id: RunId)
    | CancelReply(k: nat, reply: KernelCancel)
    | CancelWoken(k: nat, usage: Usage)
    | Closed
    | Finalized(owner: nat, usages: map<RunId, Usage>)

  /** When an event can happen. A child run makes tool calls only once its own row exists; a kernel
      accepts a cancellation only for a run that was handed to it. */
  ghost predicate Enabled(w: World, e: Event) {
    match e
    case ToolCall(parent, _) => parent.Child? ==> parent in w.store
    case ToolCallRefused(parent) => Find(w.cache, parent) == |w.cache|
    case Routed(_) => true
    case SpawnCall(parent, _, _) => parent.Child? ==> parent in w.store
    case ResumeTask(id, _, _) => Runnable(w, id)
    case KernelDone(id, answer) =>
      Handled(w, id) && w.tasks[id].phase == InKernel && ValidAnswer(answer)
    case CancelCalled(c, _) => c < |w.coordinators|
    case CancelReply(k, reply) =>
      && k < |w.calls| && w.calls[k].AtKernel? && w.calls[k].owner < |w.coordinators|
      && (reply == Accepted ==>
            && w.calls[k].id in w.kernelLog
            && w.calls[k].id in w.tasks && w.tasks[w.calls[k].id].owner == w.calls[k].owner)
    case CancelWoken(k, _) => k < |w.calls| && w.calls[k].AwaitingTask? && !Live(w, w.calls[k].id)
    case Closed => true
    case Finalized(c, _) => c < |w.coordinators| && w.supervisorClosed && forall id :: id in w.tasks ==> !Live(w, id)
  }

  ghost function Apply(w: World, e: Event): World
    requires Enabled(w, e)
  {
    match e
    case ToolCall(parent, conversation) => Lookup(w, parent, conversation)
    case ToolCallRefused(_) => w.(cache := Evict(w.cache, w.store))
    case Routed(parent) => w.(cache := Touch(w.cache, parent))
    case SpawnCall(parent, conversation, call) => Spawn(w, parent, conversation, call)
    case ResumeTask(id, now, usage) => Resume(w, id, now, usage)
    case KernelDone(id, answer) => KernelEnds(w, id, answer)
    case CancelCalled(c, id) => CancelBegin(w, c, id)
    case CancelReply(k, reply) => CancelAnswered(w, k, reply)
    case CancelWoken(k, usage) => CancelResumed(w, k, usage)
    case Closed => CloseSupervisor(w)
    case Finalized(c, usages) => Finalize(w, c, usages)
  }

  /** A fresh process: the start-up sweep has left no running row behind. */
  ghost predicate Init(w: World) {
    && w.limits.Valid()
    && (forall id :: id in w.store ==>
          w.store[id].Terminal() && id == Child(w.store[id].parent, w.store[id].call) && w.store[id].depth >= 1)
    && w.coordinators == [] && w.cache == [] && w.tasks == map[] && !w.supervisorClosed
    && w.kernelLog == [] && w.wakeups == [] && w.calls == []
  }

  ghost predicate Step(w: World, w': World) {
    exists e :: Enabled(w, e) && w' == Apply(w, e)
  }

  /** The states a process goes through, one step at a time. */
  ghost predicate IsRun(run: seq<World>) {
    && run != [] && Init(run[0])
    && forall i :: 0 <= i < |run| - 1 ==> Step(run[i], run[i + 1])
  }
}
