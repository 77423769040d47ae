/** What every step of the delegation system keeps. Each part of the invariant names exactly the
    pieces of the state it speaks about. */
module DelegationInvariants {
  import opened Wrappers
  import opened Semaphores
  import opened Delegation

  type Tasks = map<RunId, Task>

  ghost predicate RowsOk(store: Store) {
    forall id :: id in store ==> id == Child(store[id].parent, store[id].call) && store[id].depth >= 1
  }

  ghost predicate UniqueParents(cache: seq<CacheEntry>) {
    forall i, j :: 0 <= i < j < |cache| ==> cache[i].parent != cache[j].parent
  }

  /** One entry per parent run, pointing at a coordinator of that run. */
  ghost predicate CacheOk(cache: seq<CacheEntry>, cs: seq<Coordinator>) {
    && UniqueParents(cache)
    && (forall e :: e in cache ==> e.owner < |cs| && cs[e.owner].parent == e.parent)
  }

  /** A task belongs to a coordinator of its row's parent; a live task's row is still running. */
  ghost predicate TaskOk(cs: seq<Coordinator>, t: Task, row: Row) {
    && t.owner < |cs|
    && cs[t.owner].parent == row.parent && cs[t.owner].conversation == row.conversation
    && (t.phase != Done ==> row.state == Running)
  }

  ghost predicate TasksOk(cs: seq<Coordinator>, tasks: Tasks, store: Store) {
    forall id :: id in tasks ==> id in store && TaskOk(cs, tasks[id], store[id])
  }

  /** The cache never loses the coordinator of an unsettled row. */
  ghost predicate Control(cache: seq<CacheEntry>, tasks: Tasks, store: Store) {
    forall id :: id in store && !store[id].Terminal() ==>
      id in tasks && CacheEntry(store[id].parent, tasks[id].owner) in cache
  }

  /** How far a task has come. */
  function Rank(phase: Phase): nat {
    match phase
    case Fresh => 0
    case AwaitAdmission => 1
    case AwaitSlot => 2
    case InKernel => 3
    case Done => 4
  }

  /** A semaphore agrees with the phases of the tasks of coordinator `c`: who waits at the gate is at
      rank `gate` and not cancelled, who holds a permit is at that rank or past it and not done. */
  ghost predicate SemGate(s: Semaphore<RunId>, c: nat, tasks: Tasks, capacity: nat, gate: nat) {
    && s.Valid() && s.capacity == capacity
    && (forall x :: x in s.holders ==> x in tasks && tasks[x].owner == c && gate <= Rank(tasks[x].phase) <= 3)
    && (forall x :: x in s.queue ==>
          x in tasks && tasks[x].owner == c && gate == Rank(tasks[x].phase) && !tasks[x].cancelled)
  }

  ghost predicate Gate(co: Coordinator, c: nat, tasks: Tasks, limits: Limits) {
    && SemGate(co.admission, c, tasks, limits.admitted, 1)
    && SemGate(co.slots, c, tasks, limits.concurrent, 2)
    && (co.parent.Child? ==> co.depth >= 1)
    && (forall x :: x in co.childTasks ==> x in tasks && tasks[x].owner == c)
  }

  ghost predicate Gates(cs: seq<Coordinator>, tasks: Tasks, limits: Limits) {
    forall c :: 0 <= c < |cs| ==> Gate(cs[c], c, tasks, limits)
  }

  /** What the phase of a task says about semaphores, handle, row and kernel. `ran`: the kernel was
      called for it. */
  ghost predicate PhaseOk(co: Coordinator, t: Task, row: Row, id: RunId, ran: bool) {
    && (t.phase != Done || row.state == Running ==> id in co.childTasks)
    && (row.state == Running ==> (row.startedAt.Some? <==> t.phase == InKernel))
    && (t.phase == Done && row.state == Running ==> t.cancelled && !ran)
    && (row.Terminal() && row.startedAt == None ==> row.state == Cancelled)
    && (t.phase.AwaitSlot? || t.phase.InKernel? ==> id in co.admission.holders)
    && (t.phase == InKernel ==> id in co.slots.holders)
    && (t.phase == AwaitAdmission && !t.cancelled ==> id in co.admission.holders || id in co.admission.queue)
    && (t.phase == AwaitSlot && !t.cancelled ==> id in co.slots.holders || id in co.slots.queue)
    && (ran ==> (t.phase.InKernel? || t.phase.Done?) && row.startedAt.Some?)
  }

  ghost predicate PhasesOk(cs: seq<Coordinator>, tasks: Tasks, store: Store, kernelLog: seq<RunId>) {
    && (forall id :: id in tasks && id in store && tasks[id].owner < |cs| ==>
          PhaseOk(cs[tasks[id].owner], tasks[id], store[id], id, id in kernelLog))
    && Distinct(kernelLog)
    && (forall id :: id in kernelLog ==> id in tasks)
  }

  /** The row says exactly what the record says, as far as a row can. */
  ghost predicate RowMatches(row: Row, o: Outcome) {
    && row.state == StoredState(o.status)
    && row.summary == Some(o.summary)
    && row.usage == o.usage
    && row.errorCode == (if o.diagnostics == [] then None else Some(o.diagnostics[0].code))
    && row.safeMessage == (if o.diagnostics == [] then None else Some(o.diagnostics[0].safeMessage))
  }

  ghost predicate DistinctIds(s: seq<Record>) {
    forall i, j :: 0 <= i < j < |s| ==> s[i].id != s[j].id
  }

  ghost predicate RecordOk(r: Record, c: nat, tasks: Tasks, store: Store) {
    && r.outcome.Valid()
    && r.id in tasks && tasks[r.id].owner == c && tasks[r.id].phase == Done
    && r.id in store && RowMatches(store[r.id], r.outcome)
  }

  ghost predicate RecordsOf(co: Coordinator, c: nat, tasks: Tasks, store: Store) {
    && co.children == LastOf(co.completed, MAX_RETAINED_TERMINAL_RECORDS)
    && DistinctIds(co.completed)
    && forall r :: r in co.completed ==> RecordOk(r, c, tasks, store)
  }

  ghost predicate RecordsOk(cs: seq<Coordinator>, tasks: Tasks, store: Store) {
    forall c :: 0 <= c < |cs| ==> RecordsOf(cs[c], c, tasks, store)
  }

  /** A wakeup was scheduled once for every recorded child, and for no other. */
  ghost predicate WakeupsOk(cs: seq<Coordinator>, tasks: Tasks, wakeups: seq<RunId>) {
    && Distinct(wakeups)
    && (forall id :: id in wakeups ==> id in tasks)
    && (forall id :: id in tasks && tasks[id].owner < |cs| ==>
          (id in wakeups <==> Recorded(cs[tasks[id].owner].completed, id)))
  }

  /** Only a record ever leaves a summary in a row of this process. */
  ghost predicate SummariesOk(tasks: Tasks, store: Store, wakeups: seq<RunId>) {
    forall id :: id in tasks && id in store && id !in wakeups ==> store[id].summary == None
  }

  ghost predicate QueueBound(store: Store, limits: Limits) {
    forall p :: |Inflight(store, p)| <= limits.queued
  }

  /** What each cancel call knows while it waits, and what its result says for ever after. */
  ghost predicate CallOk(call: CancelCall, coordinators: nat, tasks: Tasks, store: Store) {
    match call
    case AtKernel(c, id) => c < coordinators && id in store
    case AwaitingTask(c, id) => id in tasks && tasks[id].cancelled && id in store
    case Ended(c, id, result, disowned) =>
      && (result == CancelOk && disowned ==> id in store && store[id].state == Cancelled)
      && (result == NotActive ==> id in store && store[id].Terminal())
      && (result == CancelOk && !disowned ==> id in store && (store[id].Terminal() || store[id].startedAt.Some?))
  }

  ghost predicate CallsOk(calls: seq<CancelCall>, coordinators: nat, tasks: Tasks, store: Store) {
    forall k :: 0 <= k < |calls| ==> CallOk(calls[k], coordinators, tasks, store)
  }

  ghost predicate Structure(w: World) {
    && w.limits.Valid()
    && RowsOk(w.store) && CacheOk(w.cache, w.coordinators) && TasksOk(w.coordinators, w.tasks, w.store)
    && Control(w.cache, w.tasks, w.store)
    && Gates(w.coordinators, w.tasks, w.limits)
    && PhasesOk(w.coordinators, w.tasks, w.store, w.kernelLog)
  }

  ghost predicate History(w: World) {
    && RecordsOk(w.coordinators, w.tasks, w.store)
    && WakeupsOk(w.coordinators, w.tasks, w.wakeups)
    && SummariesOk(w.tasks, w.store, w.wakeups)
    && QueueBound(w.store, w.limits)
    && CallsOk(w.calls, |w.coordinators|, w.tasks, w.store)
  }

  ghost predicate Inv(w: World) {
    Structure(w) && History(w)
  }

  lemma InitInv(w: World)
    requires Init(w)
    ensures Inv(w)
  {
    forall p ensures |Inflight(w.store, p)| <= w.limits.queued {
      assert Inflight(w.store, p) == {};
    }
  }

  // ----- the cache -----------------------------------------------------------------------

  /** Eviction keeps the order, drops nothing busy and invents nothing. */
  lemma {:induction false} DropIdleKeeps(cache: seq<CacheEntry>, store: Store, excess: nat)
    ensures var r := DropIdle(cache, store, excess);
            && (forall e :: e in r ==> e in cache)
            && (forall e :: e in cache && Inflight(store, e.parent) != {} ==> e in r)
            && (UniqueParents(cache) ==> UniqueParents(r))
  {
    if cache != [] && excess != 0 {
      DropIdleKeeps(cache[1..], store, if Inflight(store, cache[0].parent) != {} then excess else excess - 1);
      assert UniqueParents(cache) ==> forall e :: e in cache[1..] ==> e.parent != cache[0].parent;
    }
  }

  lemma TouchKeeps(cache: seq<CacheEntry>, parent: RunId)
    ensures var r := Touch(cache, parent);
            && (forall e :: e in r <==> e in cache)
            && (UniqueParents(cache) ==> UniqueParents(r))
  {
    var i := Find(cache, parent);
    if i < |cache| {
      assert cache == cache[..i] + [cache[i]] + cache[i + 1..];
      MovedToEnd(cache[..i], cache[i], cache[i + 1..]);
    }
  }

  lemma MovedToEnd(a: seq<CacheEntry>, x: CacheEntry, b: seq<CacheEntry>)
    ensures forall e :: e in a + b + [x] <==> e in a + [x] + b
    ensures UniqueParents(a + [x] + b) ==> UniqueParents(a + b + [x])
  {
    var old', new' := a + [x] + b, a + b + [x];
    assert forall i :: 0 <= i < |a| ==> new'[i] == old'[i];
    assert forall i :: |a| <= i < |a + b| ==> new'[i] == old'[i + 1];
    assert new'[|a + b|] == x == old'[|a|];
  }

  /** A cache that still has every busy entry will do. */
  lemma CacheInv(w: World, cache: seq<CacheEntry>)
    requires Inv(w) && UniqueParents(cache)
    requires forall e :: e in cache ==> e in w.cache
    requires forall e :: e in w.cache && Inflight(w.store, e.parent) != {} ==> e in cache
    ensures Inv(w.(cache := cache))
  {
    forall id | id in w.store && !w.store[id].Terminal()
      ensures id in w.tasks && CacheEntry(w.store[id].parent, w.tasks[id].owner) in cache
    {
      assert id in Inflight(w.store, w.store[id].parent);
    }
  }

  lemma TouchInv(w: World, parent: RunId)
    requires Inv(w)
    ensures Inv(w.(cache := Touch(w.cache, parent)))
  {
    TouchKeeps(w.cache, parent);
    CacheInv(w, Touch(w.cache, parent));
  }

  lemma EvictInv(w: World)
    requires Inv(w)
    ensures Inv(w.(cache := Evict(w.cache, w.store)))
    ensures forall e :: e in Evict(w.cache, w.store) ==> e in w.cache
  {
    DropIdleKeeps(w.cache, w.store,
                  if |w.cache| < MAX_TRACKED_PARENT_RUNS then 0 else |w.cache| - MAX_TRACKED_PARENT_RUNS + 1);
    CacheInv(w, Evict(w.cache, w.store));
  }

  lemma NewCoordinatorInv(w: World, w': World, co: Coordinator)
    requires Inv(w)
    requires w' == w.(cache := w.cache + [CacheEntry(co.parent, |w.coordinators|)],
                      coordinators := w.coordinators + [co])
    requires forall e :: e in w.cache ==> e.parent != co.parent
    requires co.children == [] && co.completed == [] && co.childTasks == {}
    requires co.admission == New(w.limits.admitted) && co.slots == New(w.limits.concurrent)
    requires co.parent.Child? ==> co.depth >= 1
    ensures Inv(w')
  {
    assert forall c :: 0 <= c < |w.coordinators| ==> w'.coordinators[c] == w.coordinators[c];
    NewCoordinatorStructure(w, w', co);
    hide Structure;
  }

  lemma NewCoordinatorStructure(w: World, w': World, co: Coordinator)
    requires Structure(w)
    requires w' == w.(cache := w.cache + [CacheEntry(co.parent, |w.coordinators|)],
                      coordinators := w.coordinators + [co])
    requires forall e :: e in w.cache ==> e.parent != co.parent
    requires co.childTasks == {} && co.admission == New(w.limits.admitted) && co.slots == New(w.limits.concurrent)
    requires co.parent.Child? ==> co.depth >= 1
    ensures Structure(w')
  {
    assert forall c :: 0 <= c < |w.coordinators| ==> w'.coordinators[c] == w.coordinators[c];
    assert TasksOk(w'.coordinators, w.tasks, w.store);
    assert CacheOk(w'.cache, w'.coordinators) && Control(w'.cache, w.tasks, w.store);
    assert Gate(co, |w.coordinators|, w.tasks, w.limits);
  }

  lemma LookupInv(w: World, parent: RunId, conversation: string)
    requires Inv(w)
    requires parent.Child? ==> parent in w.store
    ensures var w' := Lookup(w, parent, conversation);
            && Inv(w')
            && w'.store == w.store && w'.tasks == w.tasks && w'.limits == w.limits
            && w'.cache != [] && w'.cache[|w'.cache| - 1].parent == parent
  {
    var w' := Lookup(w, parent, conversation);
    if Find(w.cache, parent) < |w.cache| {
      TouchInv(w, parent);
    } else {
      EvictInv(w);
      NewCoordinatorInv(w.(cache := Evict(w.cache, w.store)), w', w'.coordinators[|w.coordinators|]);
    }
  }

  // ----- steps about one child -----------------------------------------------------------

  /** The frame of a step about one child whose row is running: no other row, task or coordinator
      changes, and of the row only what a store write may change. */
  ghost predicate Local(w: World, w': World, id: RunId) {
    && id in w.store && id in w.tasks && w.store[id].state == Running
    && w.tasks[id].owner < |w.coordinators|
    && w'.limits == w.limits && w'.cache == w.cache
    && w'.calls == w.calls
    && id in w'.store && w'.store == w.store[id := w'.store[id]] && RowMoves(w.store[id], w'.store[id])
    && id in w'.tasks && w'.tasks == w.tasks[id := w'.tasks[id]] && TaskMoves(w.tasks[id], w'.tasks[id])
    && |w'.coordinators| == |w.coordinators|
    && w'.coordinators == w.coordinators[w.tasks[id].owner := w'.coordinators[w.tasks[id].owner]]
    && Spares(w.coordinators[w.tasks[id].owner], w'.coordinators[w.tasks[id].owner], id)
    && (w'.kernelLog == w.kernelLog || (id !in w.kernelLog && w'.kernelLog == w.kernelLog + [id]))
  }

  /** What a store write does to a running row: identity columns stay, the start mark stays once set. */
  ghost predicate RowMoves(row: Row, row': Row) {
    && row'.parent == row.parent && row'.call == row.call
    && row'.conversation == row.conversation && row'.depth == row.depth
    && (row.startedAt.Some? ==> row'.startedAt == row.startedAt)
  }

  ghost predicate TaskMoves(t: Task, t': Task) {
    t'.owner == t.owner && (t.cancelled ==> t'.cancelled) && (t.phase == Done ==> t'.phase == Done)
  }

  /** Every other child of the coordinator keeps its permits, its place or better, and its handle. */
  ghost predicate Spares(co: Coordinator, co': Coordinator, id: RunId) {
    && co'.parent == co.parent && co'.conversation == co.conversation && co'.depth == co.depth
    && forall x :: x != id ==>
         && (x in co.admission.holders ==> x in co'.admission.holders)
         && (x in co.admission.queue ==> x in co'.admission.queue || x in co'.admission.holders)
         && (x in co.slots.holders ==> x in co'.slots.holders)
         && (x in co.slots.queue ==> x in co'.slots.queue || x in co'.slots.holders)
         && (x in co.childTasks ==> x in co'.childTasks)
  }

  ghost predicate Records(w: World, w': World, id: RunId, record: Option<Record>)
    requires Local(w, w', id)
  {
    Remembers(w.coordinators[w.tasks[id].owner], w'.coordinators[w.tasks[id].owner], w, w', id, w'.tasks[id],
        w'.store[id], record)
  }

  /** Either nothing is recorded, or one matching record, one wakeup, and the task is over. */
  ghost predicate Remembers(co: Coordinator, co': Coordinator, w: World, w': World,
                            id: RunId, t: Task, row: Row, record: Option<Record>)
  {
    match record
    case None =>
      && co'.children == co.children && co'.completed == co.completed && w'.wakeups == w.wakeups && row.summary == None
    case Some(r) =>
      && r.id == id && r.outcome.Valid() && RowMatches(row, r.outcome) && t.phase == Done
      && co'.completed == co.completed + [r]
      && co'.children == LastOf(co'.completed, MAX_RETAINED_TERMINAL_RECORDS)
      && w'.wakeups == w.wakeups + [id]
  }

  lemma LocalGates(w: World, w': World, id: RunId)
    requires Gates(w.coordinators, w.tasks, w.limits) && Local(w, w', id)
    requires Gate(w'.coordinators[w.tasks[id].owner], w.tasks[id].owner, w'.tasks, w.limits)
    ensures Gates(w'.coordinators, w'.tasks, w'.limits)
  {
    forall d | 0 <= d < |w'.coordinators| ensures Gate(w'.coordinators[d], d, w'.tasks, w'.limits) {
      assert Gate(w.coordinators[d], d, w.tasks, w.limits);
    }
  }

  lemma LocalTasks(w: World, w': World, id: RunId)
    requires RowsOk(w.store) && CacheOk(w.cache, w.coordinators) && TasksOk(w.coordinators, w.tasks, w.store)
    requires Control(w.cache, w.tasks, w.store) && Local(w, w', id)
    requires w'.tasks[id].phase != Done ==> w'.store[id].state == Running
    ensures RowsOk(w'.store) && CacheOk(w'.cache, w'.coordinators) && TasksOk(w'.coordinators, w'.tasks, w'.store)
    ensures Control(w'.cache, w'.tasks, w'.store)
  {
    LocalRows(w, w', id);
    LocalControl(w, w', id);
  }

  lemma LocalRows(w: World, w': World, id: RunId)
    requires RowsOk(w.store) && CacheOk(w.cache, w.coordinators) && TasksOk(w.coordinators, w.tasks, w.store)
    requires Local(w, w', id)
    requires w'.tasks[id].phase != Done ==> w'.store[id].state == Running
    ensures RowsOk(w'.store) && CacheOk(w'.cache, w'.coordinators) && TasksOk(w'.coordinators, w'.tasks, w'.store)
  {
  }

  lemma LocalControl(w: World, w': World, id: RunId)
    requires Control(w.cache, w.tasks, w.store) && Local(w, w', id)
    ensures Control(w'.cache, w'.tasks, w'.store)
  {
    forall x | x in w'.store && !w'.store[x].Terminal()
      ensures x in w'.tasks && CacheEntry(w'.store[x].parent, w'.tasks[x].owner) in w'.cache
    {
      assert CacheEntry(w.store[x].parent, w.tasks[x].owner) in w.cache;
    }
  }

  lemma LocalPhases(w: World, w': World, id: RunId)
    requires TasksOk(w.coordinators, w.tasks, w.store)
    requires PhasesOk(w.coordinators, w.tasks, w.store, w.kernelLog) && Local(w, w', id)
    requires PhaseOk(w'.coordinators[w.tasks[id].owner], w'.tasks[id], w'.store[id], id, id in w'.kernelLog)
    ensures PhasesOk(w'.coordinators, w'.tasks, w'.store, w'.kernelLog)
  {
    forall x | x in w'.tasks && x in w'.store && w'.tasks[x].owner < |w'.coordinators|
      ensures PhaseOk(w'.coordinators[w'.tasks[x].owner], w'.tasks[x], w'.store[x], x, x in w'.kernelLog)
    {
      assert PhaseOk(w.coordinators[w.tasks[x].owner], w.tasks[x], w.store[x], x, x in w.kernelLog);
      assert x != id ==> (x in w'.kernelLog <==> x in w.kernelLog);
    }
  }

  lemma LocalRecords(w: World, w': World, id: RunId, record: Option<Record>)
    requires RecordsOk(w.coordinators, w.tasks, w.store) && Local(w, w', id) && Records(w, w', id, record)
    ensures RecordsOk(w'.coordinators, w'.tasks, w'.store)
    ensures !Recorded(w.coordinators[w.tasks[id].owner].completed, id)
  {
    forall d | 0 <= d < |w'.coordinators| ensures RecordsOf(w'.coordinators[d], d, w'.tasks, w'.store) {
      var before, after := w.coordinators[d].completed, w'.coordinators[d].completed;
      assert RecordsOf(w.coordinators[d], d, w.tasks, w.store);
      forall r | r in before ensures r.id != id && RecordOk(r, d, w'.tasks, w'.store) {
        assert RecordOk(r, d, w.tasks, w.store);
      }
    }
    var before := w.coordinators[w.tasks[id].owner].completed;
    assert RecordsOf(w.coordinators[w.tasks[id].owner], w.tasks[id].owner, w.tasks, w.store);
    forall i | 0 <= i < |before| ensures before[i].id != id {
      assert before[i] in before;
    }
  }

  lemma LocalWakeups(w: World, w': World, id: RunId, record: Option<Record>)
    requires WakeupsOk(w.coordinators, w.tasks, w.wakeups) && Local(w, w', id) && Records(w, w', id, record)
    requires !Recorded(w.coordinators[w.tasks[id].owner].completed, id)
    ensures WakeupsOk(w'.coordinators, w'.tasks, w'.wakeups)
  {
    var c := w.tasks[id].owner;
    var before, after := w.coordinators[c].completed, w'.coordinators[c].completed;
    if record.Some? {
      assert after[|before|].id == id;
      assert forall i :: 0 <= i < |before| ==> after[i] == before[i];
    }
    forall x | x in w'.tasks && w'.tasks[x].owner < |w'.coordinators|
      ensures x in w'.wakeups <==> Recorded(w'.coordinators[w'.tasks[x].owner].completed, x)
    {
      assert x in w.wakeups <==> Recorded(w.coordinators[w.tasks[x].owner].completed, x);
      assert w.tasks[x].owner == c && x != id ==> (Recorded(before, x) <==> Recorded(after, x));
    }
  }

  lemma SubsetSize<T>(a: set<T>, b: set<T>)
    requires a <= b
    ensures |a| <= |b|
  {
    if a != {} {
      var x :| x in a;
      SubsetSize(a - {x}, b - {x});
    }
  }

  /** A write that only settles rows: none is added or reopened, and no start mark is lost. */
  ghost predicate Settles(store: Store, store': Store) {
    && (forall x :: x in store' <==> x in store)
    && (forall x :: x in store ==>
          && store'[x].parent == store[x].parent
          && (store[x].Terminal() ==> store'[x].state == store[x].state)
          && (store[x].startedAt.Some? ==> store'[x].startedAt.Some?))
  }

  lemma SettlesBounds(w: World, store: Store, tasks: Tasks)
    requires QueueBound(w.store, w.limits) && CallsOk(w.calls, |w.coordinators|, w.tasks, w.store)
    requires Settles(w.store, store)
    requires forall x :: x in w.tasks ==> x in tasks && (w.tasks[x].cancelled ==> tasks[x].cancelled)
    ensures QueueBound(store, w.limits) && CallsOk(w.calls, |w.coordinators|, tasks, store)
  {
    forall p ensures |Inflight(store, p)| <= w.limits.queued {
      SubsetSize(Inflight(store, p), Inflight(w.store, p));
    }
    forall k | 0 <= k < |w.calls| ensures CallOk(w.calls[k], |w.coordinators|, tasks, store) {
      assert CallOk(w.calls[k], |w.coordinators|, w.tasks, w.store);
    }
  }

  lemma LocalSettles(w: World, w': World, id: RunId)
    requires Local(w, w', id)
    ensures Settles(w.store, w'.store)
  {
  }

  lemma LocalStructure(w: World, w': World, id: RunId)
    requires Structure(w) && Local(w, w', id)
    requires Gate(w'.coordinators[w.tasks[id].owner], w.tasks[id].owner, w'.tasks, w.limits)
    requires w'.tasks[id].phase != Done ==> w'.store[id].state == Running
    requires PhaseOk(w'.coordinators[w.tasks[id].owner], w'.tasks[id], w'.store[id], id, id in w'.kernelLog)
    ensures Structure(w')
  {
    LocalTasks(w, w', id);
    LocalGates(w, w', id);
    LocalPhases(w, w', id);
  }

  lemma LocalHistory(w: World, w': World, id: RunId, record: Option<Record>)
    requires History(w) && Local(w, w', id) && Records(w, w', id, record)
    ensures History(w')
  {
    LocalRecords(w, w', id, record);
    LocalWakeups(w, w', id, record);
    LocalSettles(w, w', id);
    SettlesBounds(w, w'.store, w'.tasks);
  }

  /** A step about one child keeps the invariant when its coordinator, its task and its row fit
      together again, and nobody else loses anything. */
  lemma PutInv(w: World, w': World, id: RunId, co: Coordinator, t: Task, row: Row, record: Option<Record>)
    requires Inv(w) && Handled(w, id) && w.store[id].state == Running
    requires w' == Put(w, id, co, t, row).(kernelLog := w'.kernelLog, wakeups := w'.wakeups)
    requires w'.kernelLog == w.kernelLog || (id !in w.kernelLog && w'.kernelLog == w.kernelLog + [id])
    requires RowMoves(w.store[id], row) && TaskMoves(w.tasks[id], t) && Spares(OwnerOf(w, id), co, id)
    requires t.phase != Done ==> row.state == Running
    requires Gate(co, t.owner, w.tasks[id := t], w.limits)
    requires PhaseOk(co, t, row, id, id in w'.kernelLog)
    requires Remembers(OwnerOf(w, id), co, w, w', id, t, row, record)
    ensures Inv(w')
  {
    assert Local(w, w', id);
    LocalStructure(w, w', id);
    LocalHistory(w, w', id, record);
  }
}
