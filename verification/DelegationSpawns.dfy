/** Exactly which children are taken, when they start, and that a closed supervisor starts none. */
module DelegationSpawns {
  import opened Wrappers
  import opened Semaphores
  import opened Delegation
  import opened DelegationInvariants
  import opened DelegationSteps
  import opened DelegationRuns
  import opened DelegationTheorems
  import opened DelegationEndings

  // ----- spawn keys ----------------------------------------------------------------------

  /** A key in memory has its row, and a coordinator of a root run stands at depth zero. */
  ghost predicate KeysOf(co: Coordinator, store: Store) {
    && (forall call :: call in co.spawnKeys ==> Child(co.parent, call) in store)
    && (co.parent.Root? ==> co.depth == 0)
  }

  ghost predicate KeysOk(w: World) {
    forall c :: 0 <= c < |w.coordinators| ==> KeysOf(w.coordinators[c], w.store)
  }

  /** The coordinators that were there have gained no key. */
  ghost predicate NoNewKeys(w: World, w': World) {
    && |w'.coordinators| == |w.coordinators| && w.store.Keys <= w'.store.Keys
    && forall c :: 0 <= c < |w.coordinators| ==>
         var co, co' := w.coordinators[c], w'.coordinators[c];
         co'.parent == co.parent && co'.depth == co.depth && co'.spawnKeys <= co.spawnKeys
  }

  /** No coordinator has gained or lost a key. */
  ghost predicate SameKeys(w: World, w': World) {
    && NoNewKeys(w, w')
    && forall c :: 0 <= c < |w.coordinators| ==> w'.coordinators[c].spawnKeys == w.coordinators[c].spawnKeys
  }

  lemma KeysKept(w: World, w': World)
    requires KeysOk(w) && NoNewKeys(w, w')
    ensures KeysOk(w')
  {
    forall c | 0 <= c < |w'.coordinators| ensures KeysOf(w'.coordinators[c], w'.store) {
      assert KeysOf(w.coordinators[c], w.store);
    }
  }

  lemma LookupKeys(w: World, parent: RunId, conversation: string)
    requires KeysOk(w) && RowsOk(w.store)
    ensures KeysOk(Lookup(w, parent, conversation)) && Lookup(w, parent, conversation).store == w.store
  {
    hide Find, Evict, Touch, KeysOf;
    var w' := Lookup(w, parent, conversation);
    if |w'.coordinators| > |w.coordinators| {
      NewHasNoKeys(w, w'.coordinators[|w.coordinators|]);
    }
    forall c | 0 <= c < |w'.coordinators| ensures KeysOf(w'.coordinators[c], w'.store) {
      assert c < |w.coordinators| ==> KeysOf(w.coordinators[c], w.store);
    }
  }

  lemma NewHasNoKeys(w: World, co: Coordinator)
    requires RowsOk(w.store) && co.spawnKeys == {}
    requires co.depth == if co.parent in w.store then w.store[co.parent].depth else 0
    ensures KeysOf(co, w.store)
  {
  }

  lemma StartKeys(w: World, c: nat, call: string)
    requires KeysOk(w) && c < |w.coordinators|
    ensures KeysOk(Start(w, c, call))
  {
    hide Inflight;
    var w' := Start(w, c, call);
    forall d | 0 <= d < |w'.coordinators| ensures KeysOf(w'.coordinators[d], w'.store) {
      assert KeysOf(w.coordinators[d], w.store);
    }
  }

  lemma SpawnKeysOk(w: World, parent: RunId, conversation: string, call: string)
    requires KeysOk(w) && RowsOk(w.store)
    ensures KeysOk(Spawn(w, parent, conversation, call))
  {
    hide KeysOk, Lookup, Start, Find, RowsOk;
    LookupKeys(w, parent, conversation);
    var found := Lookup(w, parent, conversation);
    var k := Find(found.cache, parent);
    if k < |found.cache| && found.cache[k].owner < |found.coordinators| {
      StartKeys(found, found.cache[k].owner, call);
    }
  }

  lemma ResumeNoKeys(w: World, id: RunId, now: nat, usage: Usage)
    requires Runnable(w, id)
    ensures SameKeys(w, Resume(w, id, now, usage))
  {
    if w.tasks[id].phase == Fresh && !w.tasks[id].cancelled {
      QueueingNoKeys(w, id);
      PassNoKeys(QueueForAdmission(w, id), id, now);
    } else if w.tasks[id].phase == AwaitAdmission && !w.tasks[id].cancelled {
      PassNoKeys(w, id, now);
    }
    hide Semaphore.GiveBack, PassAdmission, QueueForAdmission;
  }

  lemma PassNoKeys(w: World, id: RunId, now: nat)
    requires Handled(w, id)
    ensures SameKeys(w, PassAdmission(w, id, now))
  {
    QueueingNoKeys(w, id);
    hide QueueForSlot;
  }

  lemma QueueingNoKeys(w: World, id: RunId)
    requires Handled(w, id)
    ensures Handled(QueueForAdmission(w, id), id) && SameKeys(w, QueueForAdmission(w, id))
    ensures Handled(QueueForSlot(w, id), id) && SameKeys(w, QueueForSlot(w, id))
  {
    hide Semaphore.Acquire;
  }

  /** The end of a kernel call frees one key at most: that of the child whose answer is refused. */
  lemma KernelNoKeys(w: World, id: RunId, answer: KernelAnswer)
    requires Handled(w, id)
    ensures NoNewKeys(w, KernelEnds(w, id, answer))
    ensures forall d, call :: 0 <= d < |w.coordinators| && call in w.coordinators[d].spawnKeys ==>
              (call !in KernelEnds(w, id, answer).coordinators[d].spawnKeys <==>
               answer.Refused? && w.tasks[id].owner == d && w.store[id].call == call)
  {
    hide Semaphore.Release, LastOf, PutRecord;
  }

  lemma CancelNoKeys(w: World, k: nat, reply: KernelCancel)
    requires k < |w.calls| && w.calls[k].AtKernel? && w.calls[k].owner < |w.coordinators|
    ensures SameKeys(w, CancelAnswered(w, k, reply))
  {
    hide Semaphore.Withdraw;
  }

  lemma FinalizeNoKeys(w: World, c: nat, usages: map<RunId, Usage>)
    requires c < |w.coordinators|
    ensures SameKeys(w, Finalize(w, c, usages))
  {
  }

  lemma SpawnOnlyAdds(w: World, parent: RunId, conversation: string, call: string, d: nat)
    requires d < |w.coordinators|
    ensures var w' := Spawn(w, parent, conversation, call);
            d < |w'.coordinators| && w.coordinators[d].spawnKeys <= w'.coordinators[d].spawnKeys
  {
    hide Find, Evict, Touch, Inflight;
  }

  /** A spawn key in memory is given up in one case only: the kernel has answered the coordinator's child of
      that key, and the answer is refused. */
  lemma KeyFreedExactly(w: World, e: Event, d: nat, call: string)
    requires Enabled(w, e) && d < |w.coordinators| && call in w.coordinators[d].spawnKeys
    ensures d < |Apply(w, e).coordinators|
    ensures call !in Apply(w, e).coordinators[d].spawnKeys <==>
            e.KernelDone? && e.answer.Refused? && w.tasks[e.id].owner == d && w.store[e.id].call == call
  {
    hide Evict, Touch, Find, Spawn, Resume, KernelEnds, CancelAnswered, Finalize;
    match e
    case SpawnCall(parent, conversation, key) => SpawnOnlyAdds(w, parent, conversation, key, d);
    case ResumeTask(id, now, usage) => ResumeNoKeys(w, id, now, usage);
    case KernelDone(id, answer) => KernelNoKeys(w, id, answer);
    case CancelReply(k, reply) => CancelNoKeys(w, k, reply);
    case Finalized(c, usages) => FinalizeNoKeys(w, c, usages);
    case _ =>
  }

  lemma StepKeys(w: World, e: Event)
    requires KeysOk(w) && RowsOk(w.store) && Enabled(w, e)
    ensures KeysOk(Apply(w, e))
  {
    hide KeysOk, RowsOk, Lookup, Evict, Touch, Spawn, Resume, KernelEnds, CancelAnswered, Finalize;
    match e
    case ToolCall(parent, conversation) => LookupKeys(w, parent, conversation);
    case SpawnCall(parent, conversation, call) => SpawnKeysOk(w, parent, conversation, call);
    case ResumeTask(id, now, usage) =>
      ResumeNoKeys(w, id, now, usage);
      KeysKept(w, Apply(w, e));
    case KernelDone(id, answer) =>
      KernelNoKeys(w, id, answer);
      KeysKept(w, Apply(w, e));
    case CancelReply(k, reply) =>
      CancelNoKeys(w, k, reply);
      KeysKept(w, Apply(w, e));
    case Finalized(c, usages) =>
      FinalizeNoKeys(w, c, usages);
      KeysKept(w, Apply(w, e));
    case _ => KeysKept(w, Apply(w, e));
  }

  lemma {:induction false} RunKeys(run: seq<World>, i: nat)
    requires IsRun(run) && i < |run|
    ensures KeysOk(run[i])
  {
    if i > 0 {
      RunKeys(run, i - 1);
      StepOfRun(run, i - 1);
    }
  }

  lemma StepOfRun(run: seq<World>, i: nat)
    requires IsRun(run) && i + 1 < |run| && KeysOk(run[i])
    ensures KeysOk(run[i + 1])
  {
    hide KeysOk, Enabled, Apply;
    RunRows(run, i);
    assert Step(run[i], run[i + 1]);
    var e :| Enabled(run[i], e) && run[i + 1] == Apply(run[i], e);
    StepKeys(run[i], e);
  }

  lemma RunRows(run: seq<World>, i: nat)
    requires IsRun(run) && i < |run|
    ensures RowsOk(run[i].store)
  {
    RunInv(run, i);
    hide History;
  }

  // ----- which children are taken --------------------------------------------------------

  /** The children of a parent run that are reserved and not settled. */
  function Unsettled(store: Store, parent: RunId): set<RunId> {
    set id | id in store && store[id].parent == parent && store[id].state == Running
  }

  /** Who may have a child under this key: a run that is no child run itself, with room left, and the key
      never used. */
  predicate Acceptable(w: World, parent: RunId, call: string) {
    parent.Root? && Child(parent, call) !in w.store && |Unsettled(w.store, parent)| < w.limits.queued
  }

  lemma StartExactly(w: World, c: nat, call: string)
    requires Inv(w) && KeysOk(w) && c < |w.coordinators|
    ensures var w' := Start(w, c, call); var co := w.coordinators[c]; var id := Child(co.parent, call);
            if !Acceptable(w, co.parent, call) then w' == w
            else
              && w'.store.Keys == w.store.Keys + {id} && (forall x :: x in w.store ==> w'.store[x] == w.store[x])
              && var row := w'.store[id];
              && row.parent == co.parent && row.call == call && row.conversation == co.conversation && row.depth == 1
              && row.startedAt == None && id !in w.tasks
              && if w.supervisorClosed then row.state == Failed && w'.tasks == w.tasks
                 else row.state == Running && w'.tasks == w.tasks[id := Task(c, Fresh, false)]
  {
    hide Inv, KeysOk, Inflight, Unsettled;
    StartFacts(w, c, call);
  }

  lemma StartFacts(w: World, c: nat, call: string)
    requires Inv(w) && KeysOk(w) && c < |w.coordinators|
    ensures var co := w.coordinators[c]; var id := Child(co.parent, call);
            && (co.parent.Root? <==> co.depth == 0)
            && (call in co.spawnKeys ==> id in w.store) && (id in w.tasks ==> id in w.store)
            && Inflight(w.store, co.parent) == Unsettled(w.store, co.parent)
  {
    hide History;
    assert KeysOf(w.coordinators[c], w.store) && Gate(w.coordinators[c], c, w.tasks, w.limits);
    assert TasksOk(w.coordinators, w.tasks, w.store);
  }

  /** The coordinator that a spawn call resolves to: the one in the cache if there is one, and else a new one
      of the caller's conversation. */
  lemma Resolved(w: World, parent: RunId, conversation: string) returns (c: nat)
    requires Inv(w) && (parent.Child? ==> parent in w.store)
    ensures var found := Lookup(w, parent, conversation); var k := Find(found.cache, parent);
            && k < |found.cache| && found.cache[k].owner == c < |found.coordinators|
            && found.coordinators[c].parent == parent
    ensures var j := Find(w.cache, parent);
            Lookup(w, parent, conversation).coordinators[c].conversation ==
            if j < |w.cache| && w.cache[j].owner < |w.coordinators|
            then w.coordinators[w.cache[j].owner].conversation else conversation
  {
    hide Evict, Touch;
    var found, j := Lookup(w, parent, conversation), Find(w.cache, parent);
    assert CacheOk(w.cache, w.coordinators);
    hide Inv;
    if j < |w.cache| {
      assert w.cache[j] in w.cache;
      TouchKeeps(w.cache, parent);
      UniqueEntry(Touch(w.cache, parent), w.cache[j]);
      c := w.cache[j].owner;
    } else {
      c := |w.coordinators|;
      var entry := CacheEntry(parent, c);
      EvictKeepsMembers(w);
      assert forall e :: e in w.cache ==> e.parent != parent;
      EntryAtEnd(Evict(w.cache, w.store), entry);
    }
  }

  lemma EvictKeepsMembers(w: World)
    ensures forall e :: e in Evict(w.cache, w.store) ==> e in w.cache
  {
    DropIdleKeeps(w.cache, w.store,
                  if |w.cache| < MAX_TRACKED_PARENT_RUNS then 0 else |w.cache| - MAX_TRACKED_PARENT_RUNS + 1);
  }

  lemma UniqueEntry(cache: seq<CacheEntry>, entry: CacheEntry)
    requires UniqueParents(cache) && entry in cache
    ensures Find(cache, entry.parent) < |cache| && cache[Find(cache, entry.parent)] == entry
  {
    var k :| 0 <= k < |cache| && cache[k] == entry;
  }

  lemma EntryAtEnd(cache: seq<CacheEntry>, entry: CacheEntry)
    requires forall e :: e in cache ==> e.parent != entry.parent
    ensures Find(cache + [entry], entry.parent) == |cache|
  {
    assert (cache + [entry])[|cache|] == entry;
    forall k | 0 <= k < |cache| ensures (cache + [entry])[k].parent != entry.parent {
      assert cache[k] in cache;
    }
  }

  /** For every spawn call in every run: it takes the child if and only if the parent is no child run, the key
      was never used and there is room. Then one row is added, not started and of the conversation of the
      coordinator, which is the caller's if none was in the cache; its task is added, unless the supervisor is
      closed and the row has failed at once. Nothing else in the store or among the tasks changes. */
  lemma SpawnExactly(run: seq<World>, i: nat, parent: RunId, conversation: string, call: string)
    requires IsRun(run) && i < |run| && Enabled(run[i], SpawnCall(parent, conversation, call))
    ensures var w, w' := run[i], Apply(run[i], SpawnCall(parent, conversation, call)); var id := Child(parent, call);
            if !Acceptable(w, parent, call) then w'.store == w.store && w'.tasks == w.tasks
            else
              && w'.store.Keys == w.store.Keys + {id} && (forall x :: x in w.store ==> w'.store[x] == w.store[x])
              && var row, j := w'.store[id], Find(w.cache, parent);
              && row.parent == parent && row.call == call && row.depth == 1 && row.startedAt == None
              && row.conversation == (if j < |w.cache| && w.cache[j].owner < |w.coordinators|
                                      then w.coordinators[w.cache[j].owner].conversation else conversation)
              && if w.supervisorClosed then row.state == Failed && w'.tasks == w.tasks
                 else && row.state == Running && w'.tasks.Keys == w.tasks.Keys + {id}
                      && (forall x :: x in w.tasks ==> w'.tasks[x] == w.tasks[x])
                      && w'.tasks[id].phase == Fresh && !w'.tasks[id].cancelled
                      && w'.tasks[id].owner < |w'.coordinators| && w'.coordinators[w'.tasks[id].owner].parent == parent
  {
    hide Inv, KeysOk, Lookup, Start, Find, Acceptable;
    var w := run[i];
    RunInv(run, i);
    RunKeys(run, i);
    RunRows(run, i);
    var found := Lookup(w, parent, conversation);
    var c := Resolved(w, parent, conversation);
    LookupInv(w, parent, conversation);
    LookupKeys(w, parent, conversation);
    LookupSame(w, parent, conversation);
    StartExactly(found, c, call);
    SameRoom(w, found, parent, call);
    StartKeepsCoordinators(found, c, call);
  }

  lemma LookupSame(w: World, parent: RunId, conversation: string)
    ensures var found := Lookup(w, parent, conversation);
            && found.store == w.store && found.tasks == w.tasks && found.limits == w.limits
            && found.supervisorClosed == w.supervisorClosed
  {
    hide Find, Evict, Touch;
  }

  lemma SameRoom(w: World, w': World, parent: RunId, call: string)
    requires w'.store == w.store && w'.limits == w.limits
    ensures Acceptable(w', parent, call) == Acceptable(w, parent, call)
  {
  }

  lemma StartKeepsCoordinators(w: World, c: nat, call: string)
    requires c < |w.coordinators|
    ensures var w' := Start(w, c, call);
            && |w'.coordinators| == |w.coordinators|
            && forall d :: 0 <= d < |w.coordinators| ==> w'.coordinators[d].parent == w.coordinators[d].parent
  {
    hide Inflight;
  }

  // ----- when they start -----------------------------------------------------------------

  /** The step hands the child to the kernel. */
  predicate HandsOver(w: World, w': World, id: RunId) {
    w'.kernelLog == w.kernelLog + [id]
  }

  /** At step `k` the child is handed to the kernel, at time `at`. */
  ghost predicate StartsAt(run: seq<World>, events: seq<Event>, k: nat, id: RunId, at: nat) {
    && k < |events| && k + 1 < |run|
    && events[k].ResumeTask? && events[k].id == id && events[k].now == at && HandsOver(run[k], run[k + 1], id)
  }

  /** A start mark appears when the child is handed to the kernel, with the time of that step, and at no
      other time; and nobody else is handed over in that step. */
  lemma StepStarts(w: World, e: Event, id: RunId)
    requires Inv(w) && Enabled(w, e) && id in w.store
    ensures var w' := Apply(w, e);
            && id in w'.store
            && (w'.store[id].startedAt != w.store[id].startedAt <==>
                  e.ResumeTask? && e.id == id && HandsOver(w, w', id))
            && (w'.store[id].startedAt != w.store[id].startedAt ==> w'.store[id].startedAt == Some(e.now))
  {
    hide Inv, Lookup, Evict, Touch, Spawn, Resume, KernelEnds, CancelTask, Finalize, CloseSupervisor;
    match e
    case ToolCall(parent, conversation) => LookupKeepsStore(w, parent, conversation);
    case SpawnCall(parent, conversation, call) => SpawnKeepsRows(w, parent, conversation, call, id);
    case ResumeTask(x, now, usage) => ResumeStarts(w, x, now, usage, id);
    case KernelDone(x, answer) => KernelStarts(w, x, answer, id);
    case CancelReply(k, reply) => CancelKeepsStore(w, w.calls[k].id);
    case Finalized(c, usages) => FinalizeStarts(w, c, usages, id);
    case Closed => CloseStarts(w);
    case _ =>
  }

  lemma SpawnKeepsRows(w: World, parent: RunId, conversation: string, call: string, id: RunId)
    requires id in w.store
    ensures id in Spawn(w, parent, conversation, call).store
    ensures Spawn(w, parent, conversation, call).store[id] == w.store[id]
  {
    hide Lookup, Inflight, Find;
    LookupKeepsStore(w, parent, conversation);
  }

  lemma ResumeStarts(w: World, x: RunId, now: nat, usage: Usage, id: RunId)
    requires Inv(w) && Runnable(w, x) && id in w.store
    ensures Started(w, Resume(w, x, now, usage), x, now, id)
  {
    RunnableIsRunning(w, x);
    StretchStarts(w, x, now, usage, id);
  }

  lemma StretchStarts(w: World, x: RunId, now: nat, usage: Usage, id: RunId)
    requires Runnable(w, x) && w.store[x].state == Running && w.store[x].startedAt == None && id in w.store
    ensures Started(w, Resume(w, x, now, usage), x, now, id)
  {
    hide QueueForAdmission, PassAdmission, EnterKernel, CancelExit, NeverRan, Started, OwnerOf;
    QueueingKeepsRows(w, x);
    ExitStarts(w, x, now, usage, id);
    EntryStarts(w, x, now, id);
    PassStarts(w, x, now, id);
    PassStarts(QueueForAdmission(w, x), x, now, id);
    QueueStarts(w, x, now, id);
  }

  lemma QueueStarts(w: World, x: RunId, now: nat, id: RunId)
    requires Handled(w, x) && id in w.store
    ensures Started(w, QueueForAdmission(w, x), x, now, id)
    ensures forall w' :: Started(QueueForAdmission(w, x), w', x, now, id) ==> Started(w, w', x, now, id)
  {
    hide Semaphore.Acquire;
    QueueingKeepsRows(w, x);
  }

  lemma ExitStarts(w: World, x: RunId, now: nat, usage: Usage, id: RunId)
    requires Handled(w, x) && id in w.store
    ensures Started(w, CancelExit(w, x, usage), x, now, id) && Started(w, NeverRan(w, x), x, now, id)
  {
    hide Semaphore.GiveBack;
  }

  lemma PassStarts(w: World, x: RunId, now: nat, id: RunId)
    requires Handled(w, x) && w.store[x].state == Running && w.store[x].startedAt == None && id in w.store
    ensures Started(w, PassAdmission(w, x, now), x, now, id)
  {
    hide QueueForSlot, EnterKernel;
    QueueingKeepsRows(w, x);
    EntryStarts(QueueForSlot(w, x), x, now, id);
  }

  lemma EntryStarts(w: World, x: RunId, now: nat, id: RunId)
    requires Handled(w, x) && w.store[x].state == Running && w.store[x].startedAt == None && id in w.store
    ensures Started(w, EnterKernel(w, x, now), x, now, id)
  {
  }

  /** From one state to the other the child's start mark appears if and only if the child is handed over. */
  ghost predicate Started(w: World, w': World, x: RunId, now: nat, id: RunId)
    requires id in w.store
  {
    && id in w'.store
    && (w'.store[id].startedAt != w.store[id].startedAt <==> x == id && HandsOver(w, w', id))
    && (w'.store[id].startedAt != w.store[id].startedAt ==> w'.store[id].startedAt == Some(now))
  }

  lemma RunnableIsRunning(w: World, x: RunId)
    requires Inv(w) && Runnable(w, x)
    ensures Handled(w, x) && w.store[x].state == Running && w.store[x].startedAt == None && w.tasks[x].phase != InKernel
    ensures w.tasks[x].phase == AwaitSlot || w.tasks[x].phase == AwaitAdmission || w.tasks[x].phase == Fresh
  {
    hide History;
    assert TaskOk(w.coordinators, w.tasks[x], w.store[x]);
    assert PhaseOk(OwnerOf(w, x), w.tasks[x], w.store[x], x, x in w.kernelLog);
  }

  lemma QueueingKeepsRows(w: World, id: RunId)
    requires Handled(w, id)
    ensures var a, b := QueueForAdmission(w, id), QueueForSlot(w, id);
            && a.store == w.store && b.store == w.store && a.kernelLog == w.kernelLog && b.kernelLog == w.kernelLog
            && Handled(a, id) && Handled(b, id)
  {
  }

  lemma KernelStarts(w: World, x: RunId, answer: KernelAnswer, id: RunId)
    requires Handled(w, x) && id in w.store
    ensures id in KernelEnds(w, x, answer).store
    ensures KernelEnds(w, x, answer).store[id].startedAt == w.store[id].startedAt
  {
    hide Recording;
  }

  lemma FinalizeStarts(w: World, c: nat, usages: map<RunId, Usage>, id: RunId)
    requires c < |w.coordinators| && id in w.store
    ensures id in Finalize(w, c, usages).store && Finalize(w, c, usages).store[id].startedAt == w.store[id].startedAt
  {
  }

  lemma CloseStarts(w: World)
    ensures CloseSupervisor(w).store == w.store
  {
  }

  /** For every child of this process: its row says that it started at a time if and only if it was handed to
      the kernel in a step at that time. */
  lemma {:induction false} StartedExactly(run: seq<World>, events: seq<Event>, i: nat, id: RunId, at: nat)
    requires IsTrace(run, events) && i < |run| && id in run[i].store && id !in run[0].store
    ensures run[i].store[id].startedAt == Some(at) <==> exists k: nat :: k < i && StartsAt(run, events, k, id, at)
    decreases i
  {
    hide IsTrace, Inv, Enabled, Apply, HandsOver;
    TraceParts(run, events, i);
    TraceStep(run, events, i - 1);
    TraceInv(run, events, i - 1);
    var w, e := run[i - 1], events[i - 1];
    if id in w.store {
      StartedExactly(run, events, i - 1, id, at);
      StepStarts(w, e, id);
      StartIsFirst(w, e, id);
      assert StartsAt(run, events, i - 1, id, at) <==>
             e.ResumeTask? && e.id == id && e.now == at && HandsOver(w, run[i], id);
    } else {
      NewRow(w, e, id);
      forall k: nat | k < i ensures !StartsAt(run, events, k, id, at) {
        if StartsAt(run, events, k, id, at) {
          HandedHasRow(run, events, k, i - 1, id);
        }
      }
    }
  }

  /** A child that can be resumed has no start mark yet. */
  lemma StartIsFirst(w: World, e: Event, id: RunId)
    requires Inv(w) && Enabled(w, e) && id in w.store
    ensures e.ResumeTask? && e.id == id ==> w.store[id].startedAt == None
  {
    if e.ResumeTask? {
      RunnableIsRunning(w, e.id);
    }
  }

  lemma HandedHasRow(run: seq<World>, events: seq<Event>, k: nat, j: nat, id: RunId)
    requires IsTrace(run, events) && k <= j < |run| && k < |events| && events[k].ResumeTask? && events[k].id == id
    ensures id in run[j].store
  {
    hide IsTrace, Step;
    TraceStep(run, events, k);
    TraceIsRun(run, events);
    RunKept(run, k, j);
  }

  lemma NewRow(w: World, e: Event, id: RunId)
    requires Enabled(w, e) && id !in w.store && id in Apply(w, e).store
    ensures Apply(w, e).store[id].startedAt == None
  {
    hide Lookup, Evict, Touch, Spawn, Resume, KernelEnds, CancelTask, Finalize, CloseSupervisor;
    match e
    case ToolCall(parent, conversation) => LookupKeepsStore(w, parent, conversation);
    case SpawnCall(parent, conversation, call) => SpawnedRow(w, parent, conversation, call, id);
    case ResumeTask(x, now, usage) => ResumeRows(w, x, now, usage);
    case KernelDone(x, answer) => KernelRows(w, x, answer);
    case CancelReply(k, reply) => CancelKeepsStore(w, w.calls[k].id);
    case Finalized(c, usages) => FinalizedRows(w, c, usages);
    case Closed => CloseStarts(w);
    case _ =>
  }

  lemma SpawnedRow(w: World, parent: RunId, conversation: string, call: string, id: RunId)
    requires id !in w.store && id in Spawn(w, parent, conversation, call).store
    ensures Spawn(w, parent, conversation, call).store[id].startedAt == None
  {
    hide Lookup, Inflight, Find;
    LookupKeepsStore(w, parent, conversation);
  }

  lemma ResumeRows(w: World, x: RunId, now: nat, usage: Usage)
    requires Runnable(w, x)
    ensures Resume(w, x, now, usage).store.Keys == w.store.Keys
  {
    hide QueueForAdmission, QueueForSlot;
    QueueingKeepsRows(w, x);
    if w.tasks[x].phase == Fresh {
      QueueingKeepsRows(QueueForAdmission(w, x), x);
    }
  }

  lemma KernelRows(w: World, x: RunId, answer: KernelAnswer)
    requires Handled(w, x)
    ensures KernelEnds(w, x, answer).store.Keys == w.store.Keys
  {
    hide Recording, SettledRow;
  }

  lemma FinalizedRows(w: World, c: nat, usages: map<RunId, Usage>)
    requires c < |w.coordinators|
    ensures Finalize(w, c, usages).store.Keys == w.store.Keys
  {
  }

  // ----- after the supervisor has closed -------------------------------------------------

  /** Every task that is not done is cancelled. */
  ghost predicate Shut(w: World) {
    w.supervisorClosed && forall id :: id in w.tasks && w.tasks[id].phase != Done ==> w.tasks[id].cancelled
  }

  lemma CloseShuts(w: World)
    ensures Shut(CloseSupervisor(w))
  {
  }

  lemma ResumeShut(w: World, x: RunId, now: nat, usage: Usage)
    requires Shut(w) && Runnable(w, x)
    ensures Shut(Resume(w, x, now, usage)) && Resume(w, x, now, usage).kernelLog == w.kernelLog
  {
    assert w.tasks[x].cancelled;
    hide Semaphore.GiveBack;
  }

  lemma SpawnShut(w: World, parent: RunId, conversation: string, call: string)
    requires Shut(w)
    ensures Shut(Spawn(w, parent, conversation, call)) && Spawn(w, parent, conversation, call).kernelLog == w.kernelLog
  {
    hide Find, Evict, Touch, Inflight;
  }

  lemma LookupShut(w: World, parent: RunId, conversation: string)
    requires Shut(w)
    ensures Shut(Lookup(w, parent, conversation)) && Lookup(w, parent, conversation).kernelLog == w.kernelLog
  {
    hide Find, Evict, Touch;
  }

  lemma KernelShut(w: World, x: RunId, answer: KernelAnswer)
    requires Shut(w) && Handled(w, x)
    ensures Shut(KernelEnds(w, x, answer)) && KernelEnds(w, x, answer).kernelLog == w.kernelLog
  {
    hide Recording, SettledRow;
  }

  lemma ReplyShut(w: World, k: nat, reply: KernelCancel)
    requires Shut(w) && k < |w.calls| && w.calls[k].AtKernel? && w.calls[k].owner < |w.coordinators|
    ensures Shut(CancelAnswered(w, k, reply)) && CancelAnswered(w, k, reply).kernelLog == w.kernelLog
  {
    hide Semaphore.Withdraw;
  }

  lemma StepShut(w: World, e: Event)
    requires Shut(w) && Enabled(w, e)
    ensures Shut(Apply(w, e)) && Apply(w, e).kernelLog == w.kernelLog
  {
    hide Lookup, Evict, Touch, Spawn, Resume, KernelEnds, CancelAnswered;
    match e
    case ToolCall(parent, conversation) => LookupShut(w, parent, conversation);
    case SpawnCall(parent, conversation, call) => SpawnShut(w, parent, conversation, call);
    case ResumeTask(x, now, usage) => ResumeShut(w, x, now, usage);
    case KernelDone(x, answer) => KernelShut(w, x, answer);
    case CancelReply(k, reply) => ReplyShut(w, k, reply);
    case _ =>
  }

  /** From the step that closes the supervisor on, whatever else happens, every task that is not done stays
      cancelled and no child is handed to the kernel any more. */
  lemma {:induction false} NothingStartsAfterClose(run: seq<World>, events: seq<Event>, k: nat, i: nat)
    requires IsTrace(run, events) && k < i < |run| && events[k] == Closed
    ensures Shut(run[i]) && run[i].kernelLog == run[k].kernelLog
    decreases i
  {
    hide IsTrace, Shut, Enabled, Apply;
    TraceParts(run, events, i);
    TraceStep(run, events, i - 1);
    if i - 1 == k {
      assert Apply(run[k], Closed) == CloseSupervisor(run[k]) by { ClosedIsClose(run[k]); }
      CloseShuts(run[k]);
    } else {
      NothingStartsAfterClose(run, events, k, i - 1);
      StepShut(run[i - 1], events[i - 1]);
    }
  }

  lemma ClosedIsClose(w: World)
    ensures Enabled(w, Closed) && Apply(w, Closed) == CloseSupervisor(w) && CloseSupervisor(w).kernelLog == w.kernelLog
  {
  }
}
