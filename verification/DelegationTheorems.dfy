/** The guarantees of child-run delegation, for every state of every run. */
module DelegationTheorems {
  import opened Wrappers
  import opened Texts
  import opened Semaphores
  import opened Delegation
  import opened DelegationInvariants
  import opened DelegationSteps
  import opened DelegationRuns

  // ----- limits --------------------------------------------------------------------------

  /** Children of `p` that run: started and not settled. */
  ghost function Executing(w: World, p: RunId): set<RunId> {
    set id | id in w.store && w.store[id].parent == p && !w.store[id].Terminal() && w.store[id].startedAt.Some?
  }

  /** Children of `p` past the admission gate of the coordinator that reserved them. */
  ghost function Admitted(w: World, p: RunId): set<RunId> {
    set id | id in w.store && w.store[id].parent == p && !w.store[id].Terminal()
             && Handled(w, id) && id in OwnerOf(w, id).admission.holders
  }

  /** Two unsettled children of one parent run have the same coordinator, however often the
      coordinator of that run was evicted and built again. */
  lemma OneOwner(w: World, a: RunId, b: RunId)
    requires Inv(w) && a in w.store && b in w.store && !w.store[a].Terminal() && !w.store[b].Terminal()
    requires w.store[a].parent == w.store[b].parent
    ensures Handled(w, a) && Handled(w, b) && w.tasks[a].owner == w.tasks[b].owner
  {
    hide History;
    var p := w.store[a].parent;
    assert TaskOk(w.coordinators, w.tasks[a], w.store[a]) && TaskOk(w.coordinators, w.tasks[b], w.store[b]);
    var i :| 0 <= i < |w.cache| && w.cache[i] == CacheEntry(p, w.tasks[a].owner);
    var j :| 0 <= j < |w.cache| && w.cache[j] == CacheEntry(p, w.tasks[b].owner);
  }

  /** A started and unsettled child holds a place at both gates. */
  lemma ExecutingHolds(w: World, id: RunId)
    requires Inv(w) && id in w.store && !w.store[id].Terminal() && w.store[id].startedAt.Some?
    ensures Handled(w, id) && id in OwnerOf(w, id).slots.holders && id in OwnerOf(w, id).admission.holders
  {
    hide History;
    assert TaskOk(w.coordinators, w.tasks[id], w.store[id]);
    assert PhaseOk(OwnerOf(w, id), w.tasks[id], w.store[id], id, id in w.kernelLog);
  }

  lemma PermitsConserved(run: seq<World>, i: nat, c: nat)
    requires IsRun(run) && i < |run| && c < |run[i].coordinators|
    ensures var co := run[i].coordinators[c];
            && co.admission.permits + |co.admission.holders| == run[i].limits.admitted
            && co.slots.permits + |co.slots.holders| == run[i].limits.concurrent
  {
    RunInv(run, i);
    hide History;
    assert Gate(run[i].coordinators[c], c, run[i].tasks, run[i].limits);
  }

  /** The three caps hold for each parent run, in every reachable state. */
  lemma WithinLimits(run: seq<World>, i: nat, p: RunId)
    requires IsRun(run) && i < |run|
    ensures |Executing(run[i], p)| <= run[i].limits.concurrent
    ensures |Admitted(run[i], p)| <= run[i].limits.admitted
    ensures |Inflight(run[i].store, p)| <= run[i].limits.queued
  {
    hide Inv;
    RunInv(run, i);
    var w := run[i];
    assert |Inflight(w.store, p)| <= w.limits.queued by { QueueBounded(w, p); }
    if x :| x in Executing(w, p) {
      OneOwner(w, x, x);
      forall y | y in Executing(w, p) ensures y in OwnerOf(w, x).slots.holders {
        OneOwner(w, x, y);
        ExecutingHolds(w, y);
      }
      SubsetSize(Executing(w, p), OwnerOf(w, x).slots.holders);
      PermitsConserved(run, i, w.tasks[x].owner);
    }
    if x :| x in Admitted(w, p) {
      forall y | y in Admitted(w, p) ensures y in OwnerOf(w, x).admission.holders {
        OneOwner(w, x, y);
      }
      SubsetSize(Admitted(w, p), OwnerOf(w, x).admission.holders);
      PermitsConserved(run, i, w.tasks[x].owner);
    }
  }

  lemma QueueBounded(w: World, p: RunId)
    requires Inv(w)
    ensures |Inflight(w.store, p)| <= w.limits.queued
  {
    hide Structure;
  }

  // ----- control -------------------------------------------------------------------------

  lemma UnsettledOwned(w: World, id: RunId)
    requires Inv(w) && id in w.store && !w.store[id].Terminal()
    ensures Handled(w, id) && id in OwnerOf(w, id).childTasks
    ensures CacheEntry(w.store[id].parent, w.tasks[id].owner) in w.cache && UniqueParents(w.cache)
    ensures OwnerOf(w, id).conversation == w.store[id].conversation && OwnerOf(w, id).parent == w.store[id].parent
  {
    hide History;
    assert TaskOk(w.coordinators, w.tasks[id], w.store[id]);
    assert PhaseOk(OwnerOf(w, id), w.tasks[id], w.store[id], id, id in w.kernelLog);
  }

  /** For an unsettled row the cache holds the coordinator that reserved it, with its task handle;
      that coordinator answers for the row's conversation. */
  lemma ControlNeverLost(run: seq<World>, i: nat, id: RunId)
    requires IsRun(run) && i < |run| && id in run[i].store && !run[i].store[id].Terminal()
    ensures var w := run[i];
            var k := Find(w.cache, w.store[id].parent);
            && Handled(w, id) && k < |w.cache| && w.cache[k].owner == w.tasks[id].owner
            && id in OwnerOf(w, id).childTasks
            && OwnerOf(w, id).conversation == w.store[id].conversation && OwnsRow(OwnerOf(w, id), w.store[id])
  {
    hide Inv;
    RunInv(run, i);
    UnsettledOwned(run[i], id);
    FoundEntry(run[i].cache, CacheEntry(run[i].store[id].parent, run[i].tasks[id].owner));
  }

  lemma FoundEntry(cache: seq<CacheEntry>, e: CacheEntry)
    requires UniqueParents(cache) && e in cache
    ensures var k := Find(cache, e.parent); k < |cache| && cache[k] == e
  {
    var j :| 0 <= j < |cache| && cache[j] == e;
  }

  /** The coordinator that reserved a child stays its owner for ever. */
  lemma OwnerForEver(run: seq<World>, i: nat, j: nat, id: RunId)
    requires IsRun(run) && i <= j < |run| && id in run[i].tasks
    ensures id in run[j].tasks && run[j].tasks[id].owner == run[i].tasks[id].owner
  {
    RunKept(run, i, j);
  }

  ghost predicate Idle(e: CacheEntry, store: Store) {
    Inflight(store, e.parent) == {}
  }

  /** Eviction drops idle entries only, the least recently used first, and stops as soon as enough
      are gone or everything left is busy. */
  lemma {:induction false} DropIdlePolicy(cache: seq<CacheEntry>, store: Store, excess: nat)
    requires UniqueParents(cache)
    ensures var r := DropIdle(cache, store, excess);
            && (forall e :: e in cache && e !in r ==> Idle(e, store))
            && (forall a, b :: 0 <= a < b < |cache| && cache[a] in r && Idle(cache[a], store) ==> cache[b] in r)
            && |cache| <= |r| + excess && (forall e :: e in r ==> e in cache)
            && (|cache| == |r| + excess || forall e :: e in r ==> !Idle(e, store))
  {
    if cache != [] && excess != 0 {
      var tail := cache[1..];
      assert forall e :: e in tail ==> e.parent != cache[0].parent;
      assert forall b :: 0 < b < |cache| ==> cache[b] == tail[b - 1];
      DropIdlePolicy(tail, store, if Idle(cache[0], store) then excess - 1 else excess);
    }
  }

  /** After a coordinator is built and inserted the cache is within its bound, or every other entry
      is busy. */
  lemma CacheBounded(w: World, parent: RunId, conversation: string)
    requires Inv(w) && (parent.Child? ==> parent in w.store) && Find(w.cache, parent) == |w.cache|
    ensures var w' := Lookup(w, parent, conversation);
            && (|w'.cache| <= 32 || forall e :: e in w'.cache && e.parent != parent ==> !Idle(e, w'.store))
            && (|w'.cache| == |w.cache| + 1 || |w'.cache| >= 32)
  {
    CacheUnique(w);
    EvictBounded(w.cache, w.store);
    hide Inv, Inflight, UniqueParents, Evict;
  }

  lemma EvictBounded(cache: seq<CacheEntry>, store: Store)
    requires UniqueParents(cache)
    ensures var r := Evict(cache, store);
            && (|r| < 32 || forall e :: e in r ==> !Idle(e, store))
            && (|r| >= |cache| || |r| >= 31)
  {
    hide Inflight, UniqueParents, DropIdle;
    DropIdlePolicy(cache, store, if |cache| < MAX_TRACKED_PARENT_RUNS then 0
        else |cache| - MAX_TRACKED_PARENT_RUNS + 1);
  }

  lemma CacheUnique(w: World)
    requires Inv(w)
    ensures UniqueParents(w.cache)
  {
    hide History, TasksOk, PhasesOk, Gates, Control;
  }

  // ----- settlement ----------------------------------------------------------------------

  /** A terminal row never changes again, and a start mark is written once. */
  lemma SettledForEver(run: seq<World>, i: nat, j: nat, id: RunId)
    requires IsRun(run) && i <= j < |run| && id in run[i].store
    ensures id in run[j].store
    ensures run[i].store[id].Terminal() ==> run[j].store[id] == run[i].store[id]
    ensures run[i].store[id].startedAt.Some? ==> run[j].store[id].startedAt == run[i].store[id].startedAt
  {
    RunKept(run, i, j);
  }

  /** Over a whole run the kernel is called at most once for a spawn key, and only for reserved rows. */
  lemma KernelAtMostOnce(run: seq<World>, i: nat, a: nat, b: nat)
    requires IsRun(run) && i < |run| && a < b < |run[i].kernelLog|
    ensures var x, y := run[i].kernelLog[a], run[i].kernelLog[b];
            && x in run[i].store && y in run[i].store
            && (run[i].store[x].parent, run[i].store[x].call) != (run[i].store[y].parent, run[i].store[y].call)
  {
    RunInv(run, i);
    hide History;
    var w := run[i];
    assert w.kernelLog[a] in w.kernelLog && w.kernelLog[b] in w.kernelLog;
  }

  /** A row of this process that was settled without ever starting was cancelled. */
  lemma NeverStartedMeansCancelled(run: seq<World>, i: nat, id: RunId)
    requires IsRun(run) && i < |run| && id in run[i].tasks
    requires id in run[i].store && run[i].store[id].Terminal() && run[i].store[id].startedAt == None
    ensures run[i].store[id].state == Cancelled
  {
    RunInv(run, i);
    hide History;
    var w := run[i];
    assert TaskOk(w.coordinators, w.tasks[id], w.store[id]);
    assert PhaseOk(OwnerOf(w, id), w.tasks[id], w.store[id], id, id in w.kernelLog);
  }

  /** The terminal write of a kernel answer is never refused: when the kernel ends, the row is running. */
  lemma WriteNeverRefused(run: seq<World>, i: nat, id: RunId)
    requires IsRun(run) && i < |run| && Live(run[i], id)
    ensures id in run[i].store && run[i].store[id].state == Running
  {
    RunInv(run, i);
    hide Inv;
    LiveFacts(run[i], id);
  }

  /** Whatever waits, something can move: as long as a task is not done, some task of the same coordinator
      can be resumed or is in the kernel. */
  lemma NoDeadlock(run: seq<World>, i: nat, id: RunId) returns (next: RunId)
    requires IsRun(run) && i < |run| && Live(run[i], id)
    ensures Live(run[i], next) && (Runnable(run[i], next) || run[i].tasks[next].phase == InKernel)
    ensures run[i].tasks[next].owner == run[i].tasks[id].owner
  {
    hide Inv;
    RunInv(run, i);
    next := Mover(run[i], id);
  }

  lemma Mover(w: World, id: RunId) returns (next: RunId)
    requires Inv(w) && Live(w, id)
    ensures Live(w, next) && (Runnable(w, next) || w.tasks[next].phase == InKernel)
    ensures w.tasks[next].owner == w.tasks[id].owner
  {
    hide Inv;
    next := id;
    LiveFacts(w, next);
    CapsPositive(w);
    if w.tasks[next].phase == AwaitAdmission && !Runnable(w, next) {
      next := SomeHolder(OwnerOf(w, next).admission);
      LiveFacts(w, next);
    }
    if w.tasks[next].phase == AwaitSlot && !Runnable(w, next) {
      next := SomeHolder(OwnerOf(w, next).slots);
      LiveFacts(w, next);
    }
  }

  lemma CapsPositive(w: World)
    requires Inv(w)
    ensures w.limits.Valid()
  {
    hide History;
  }

  lemma SomeHolder(s: Semaphore<RunId>) returns (x: RunId)
    requires s.Valid() && s.queue != [] && s.capacity > 0
    ensures x in s.holders
  {
    assert s.holders != {};
    x :| x in s.holders;
  }

  /** A trace: the events between the states of a run. */
  ghost predicate IsTrace(run: seq<World>, events: seq<Event>) {
    && |run| == |events| + 1 && Init(run[0])
    && forall i :: 0 <= i < |events| ==> Enabled(run[i], events[i]) && run[i + 1] == Apply(run[i], events[i])
  }

  predicate OwnStep(e: Event, id: RunId) {
    (e.ResumeTask? && e.id == id) || (e.KernelDone? && e.id == id)
  }

  function OwnSteps(events: seq<Event>, id: RunId): nat {
    if events == [] then 0
    else OwnSteps(events[..|events| - 1], id) + if OwnStep(events[|events| - 1], id) then 1 else 0
  }

  function Progress(w: World, id: RunId): nat {
    if id in w.tasks then Rank(w.tasks[id].phase) else 0
  }

  lemma ResumeAdvances(w: World, id: RunId, now: nat, usage: Usage)
    requires Runnable(w, id)
    ensures var w' := Resume(w, id, now, usage); id in w'.tasks && Rank(w.tasks[id].phase) < Rank(w'.tasks[id].phase)
  {
  }

  lemma StepProgress(w: World, e: Event, id: RunId)
    requires Inv(w) && Enabled(w, e)
    ensures Progress(w, id) + (if OwnStep(e, id) then 1 else 0) <= Progress(Apply(w, e), id)
  {
    hide Inv;
    assert Progress(w, id) <= Progress(Apply(w, e), id) by { StepKept(w, e); }
    hide Kept;
    if OwnStep(e, id) && e.ResumeTask? {
      ResumeAdvances(w, id, e.now, e.usage);
    }
  }

  /** A child takes at most four steps of its own in any run, so no child runs for ever by itself. */
  lemma {:induction false} OwnStepsBounded(run: seq<World>, events: seq<Event>, id: RunId)
    requires IsTrace(run, events)
    ensures OwnSteps(events, id) <= Progress(run[|events|], id) <= 4
    decreases |events|
  {
    hide Inv;
    if events != [] {
      var n := |events| - 1;
      OwnStepsBounded(run[..n + 1], events[..n], id);
      TraceInv(run, events, n);
      StepProgress(run[n], events[n], id);
    }
  }

  lemma {:induction false} TraceInv(run: seq<World>, events: seq<Event>, i: nat)
    requires IsTrace(run, events) && i < |run|
    ensures Inv(run[i])
  {
    if i == 0 {
      InitInv(run[0]);
    } else {
      TraceInv(run, events, i - 1);
      StepInv(run[i - 1], events[i - 1]);
    }
  }

  /** Settlement: when the task of a child is done its row is terminal - or the task was cancelled before its
      first step, and then the row still waits, unstarted, and the kernel never saw the child. */
  lemma DoneMeansSettled(run: seq<World>, i: nat, id: RunId)
    requires IsRun(run) && i < |run| && id in run[i].tasks && run[i].tasks[id].phase == Done
    ensures var w := run[i];
            && id in w.store
            && (|| w.store[id].Terminal()
                || (w.tasks[id].cancelled && id !in w.kernelLog && w.store[id].startedAt == None))
  {
    RunInv(run, i);
    hide History;
    var w := run[i];
    assert TaskOk(w.coordinators, w.tasks[id], w.store[id]);
    assert PhaseOk(OwnerOf(w, id), w.tasks[id], w.store[id], id, id in w.kernelLog);
  }

  /** Once the supervisor is closed and drained and every cached coordinator was finalized, no row is
      left running: the reserved children all ended. */
  lemma ShutdownSettles(run: seq<World>, i: nat)
    requires IsRun(run) && i < |run| && run[i].supervisorClosed
    requires forall id :: id in run[i].tasks ==> !Live(run[i], id)
    requires forall e :: e in run[i].cache && e.owner < |run[i].coordinators| ==>
             run[i].coordinators[e.owner].childTasks == {}
    ensures forall id :: id in run[i].store ==> run[i].store[id].Terminal()
  {
    if id :| id in run[i].store && !run[i].store[id].Terminal() {
      UnsettledIsTracked(run, i, id);
    }
  }

  lemma UnsettledIsTracked(run: seq<World>, i: nat, id: RunId)
    requires IsRun(run) && i < |run| && id in run[i].store && !run[i].store[id].Terminal()
    ensures exists e :: && e in run[i].cache && e.owner < |run[i].coordinators|
                        && id in run[i].coordinators[e.owner].childTasks
  {
    ControlNeverLost(run, i, id);
    var e := run[i].cache[Find(run[i].cache, run[i].store[id].parent)];
    assert e in run[i].cache;
  }

  // ----- cancelling ----------------------------------------------------------------------

  /** What a finished cancel call says is true from then on: success after the kernel disowned the
      run means CANCELLED; not-active means terminal; any success leaves no queued child behind. */
  lemma CancelTellsTruth(run: seq<World>, i: nat, j: nat, k: nat)
    requires IsRun(run) && i <= j < |run| && k < |run[i].calls| && run[i].calls[k].Ended?
    ensures var call, store := run[i].calls[k], run[j].store;
            && (call.result == CancelOk && call.disowned ==> call.id in store && store[call.id].state == Cancelled)
            && (call.result == NotActive ==> call.id in store && store[call.id].Terminal())
            && (call.result == CancelOk ==>
                  call.id in store && (store[call.id].Terminal() || store[call.id].startedAt.Some?))
  {
    RunKept(run, i, j);
    RunInv(run, j);
    hide Inv;
    CallFacts(run[j]);
    assert CallOk(run[j].calls[k], |run[j].coordinators|, run[j].tasks, run[j].store);
  }

  // ----- records and rows ----------------------------------------------------------------

  /** Memory retains the last completed records, at most 32 of them. */
  lemma RetainsLastCompleted(run: seq<World>, i: nat, c: nat)
    requires IsRun(run) && i < |run| && c < |run[i].coordinators|
    ensures var co := run[i].coordinators[c];
            co.children == if |co.completed| <= 32 then co.completed else co.completed[|co.completed| - 32..]
  {
    RunInv(run, i);
    hide Structure;
    assert RecordsOf(run[i].coordinators[c], c, run[i].tasks, run[i].store);
  }

  /** A row written from an outcome reads back as that outcome, as far as a query shows it. */
  lemma RowReadsBack(row: Row, o: Outcome)
    requires RowMatches(row, o) && o.Valid()
    ensures row.Terminal() && ShownRow(row) == Shown(o)
  {
    hide Strip;
    StripChecks(o.summary, MAX_SUMMARY);
    if o.diagnostics != [] {
      var d := o.diagnostics[0];
      assert d in o.diagnostics;
      StripChecks(d.code, MAX_CODE);
      StripChecks(d.safeMessage, MAX_MESSAGE);
    }
  }

  lemma RecordedFacts(w: World, c: nat, r: Record)
    requires Inv(w) && c < |w.coordinators| && r in w.coordinators[c].completed
    ensures r.outcome.Valid() && r.id in w.store && RowMatches(w.store[r.id], r.outcome)
    ensures OwnsRow(w.coordinators[c], w.store[r.id])
    ensures forall x :: x in w.coordinators[c].children && x.id == r.id ==> x == r
  {
    InvRecords(w, c);
    hide Inv, RowMatches;
    RecordInMemory(w.coordinators[c], c, w.tasks, w.store, r);
    assert TaskOk(w.coordinators, w.tasks[r.id], w.store[r.id]);
  }

  lemma InvRecords(w: World, c: nat)
    requires Inv(w) && c < |w.coordinators|
    ensures TasksOk(w.coordinators, w.tasks, w.store) && RecordsOf(w.coordinators[c], c, w.tasks, w.store)
  {
    hide TasksOk, RecordsOf, PhasesOk, Gates, Control, WakeupsOk, SummariesOk, CallsOk;
  }

  lemma RecordInMemory(co: Coordinator, c: nat, tasks: Tasks, store: Store, r: Record)
    requires RecordsOf(co, c, tasks, store) && r in co.completed
    ensures RecordOk(r, c, tasks, store)
    ensures forall x :: x in co.children && x.id == r.id ==> x == r
  {
    assert RecordOk(r, c, tasks, store);
    hide RecordOk;
    forall x | x in co.children && x.id == r.id ensures x == r {
      assert x in co.completed;
    }
  }

  /** A query for a recorded child shows its outcome, whether the record is still in memory or the
      answer is rebuilt from the row after reclamation. So it does through every coordinator that passes
      the ownership check, like one built for a later turn of the conversation; the coordinator that holds
      the record passes it. */
  lemma QueryShowsRecord(run: seq<World>, i: nat, c: nat, r: Record, d: nat)
    requires IsRun(run) && i < |run| && c < |run[i].coordinators| && r in run[i].coordinators[c].completed
    requires d < |run[i].coordinators|
    ensures r.id in run[i].store && OwnsRow(run[i].coordinators[c], run[i].store[r.id])
    ensures OwnsRow(run[i].coordinators[d], run[i].store[r.id]) ==> Query(run[i], d, r.id) == Shown(r.outcome)
  {
    RunInv(run, i);
    hide Inv;
    RecordedFacts(run[i], c, r);
    RowReadsBack(run[i].store[r.id], r.outcome);
    InMemoryIsIt(run[i], c, r, d);
  }

  /** A record in the memory of any coordinator under this id is this record. */
  lemma InMemoryIsIt(w: World, c: nat, r: Record, d: nat)
    requires Inv(w) && c < |w.coordinators| && r in w.coordinators[c].completed && d < |w.coordinators|
    ensures var children := w.coordinators[d].children;
            var k := FindRecord(children, r.id);
            k < |children| ==> children[k] == r
  {
    InvRecords(w, c);
    InvRecords(w, d);
    hide Inv, TasksOk;
    RecordInMemory(w.coordinators[c], c, w.tasks, w.store, r);
    var children := w.coordinators[d].children;
    var k := FindRecord(children, r.id);
    if k < |children| {
      assert children[k] in children && children[k] in w.coordinators[d].completed;
      RecordInMemory(w.coordinators[d], d, w.tasks, w.store, children[k]);
      assert c == d;
    }
  }

  /** The answer for a recorded child never changes, whichever coordinator is asked. */
  lemma QueryStable(run: seq<World>, i: nat, j: nat, c: nat, r: Record, d: nat)
    requires IsRun(run) && i <= j < |run| && c < |run[i].coordinators| && r in run[i].coordinators[c].completed
    requires d < |run[j].coordinators| && r.id in run[j].store && OwnsRow(run[j].coordinators[d], run[j].store[r.id])
    ensures Query(run[j], d, r.id) == Shown(r.outcome)
  {
    hide Inv, Kept, Query, Shown, OwnsRow;
    var r' := StillRecorded(run, i, j, c, r);
    QueryShowsRecord(run, j, c, r', d);
    RunInv(run, i);
    RunInv(run, j);
    RecordedFacts(run[i], c, r);
    RecordedFacts(run[j], c, r');
    SettledForEver(run, i, j, r.id);
    RowReadsBack(run[i].store[r.id], r.outcome);
    RowReadsBack(run[j].store[r.id], r'.outcome);
  }

  lemma StillRecorded(run: seq<World>, i: nat, j: nat, c: nat, r: Record) returns (r': Record)
    requires IsRun(run) && i <= j < |run| && c < |run[i].coordinators| && r in run[i].coordinators[c].completed
    ensures c < |run[j].coordinators| && r'.id == r.id && r' in run[j].coordinators[c].completed
  {
    RunInv(run, i);
    RunInv(run, j);
    RunKept(run, i, j);
    hide Structure, Kept;
    assert RecordOk(r, c, run[i].tasks, run[i].store) by {
      assert RecordsOf(run[i].coordinators[c], c, run[i].tasks, run[i].store);
    }
    WakeupKept(run[i], run[j], c, r);
    var completed := run[j].coordinators[c].completed;
    var k :| 0 <= k < |completed| && completed[k].id == r.id;
    r' := completed[k];
  }

  lemma WakeupKept(w: World, w': World, c: nat, r: Record)
    requires Kept(w, w') && c < |w.coordinators| && r in w.coordinators[c].completed
    requires RecordOk(r, c, w.tasks, w.store)
    requires WakeupsOk(w.coordinators, w.tasks, w.wakeups) && WakeupsOk(w'.coordinators, w'.tasks, w'.wakeups)
    ensures c < |w'.coordinators| && Recorded(w'.coordinators[c].completed, r.id)
  {
    var completed := w.coordinators[c].completed;
    var k :| 0 <= k < |completed| && completed[k] == r;
    assert Recorded(completed, r.id);
    assert r.id in w'.wakeups;
  }

  /** Asking any coordinator that passes the ownership check about a terminal row, of this process or an
      earlier one, fails to build an outcome if and only if the summary or the diagnostic of the row does not
      pass the checks; else it is a reply. */
  lemma QueryAnswersExactly(run: seq<World>, i: nat, d: nat, id: RunId)
    requires IsRun(run) && i < |run| && d < |run[i].coordinators|
    requires id in run[i].store && run[i].store[id].Terminal() && OwnsRow(run[i].coordinators[d], run[i].store[id])
    ensures Query(run[i], d, id) == Unrepresentable <==> !Representable(run[i].store[id])
    ensures Query(run[i], d, id).Reply? <==> Representable(run[i].store[id])
  {
    hide Inv, RequireText;
    RunInv(run, i);
    var w := run[i];
    var children := w.coordinators[d].children;
    var k := FindRecord(children, id);
    if k < |children| {
      var r := children[k];
      assert r in children;
      MemoryIsCompleted(w, d, r);
      RecordedFacts(w, d, r);
      RowReadsBack(w.store[id], r.outcome);
    }
  }

  lemma MemoryIsCompleted(w: World, d: nat, r: Record)
    requires Inv(w) && d < |w.coordinators| && r in w.coordinators[d].children
    ensures r in w.coordinators[d].completed
  {
    InvRecords(w, d);
  }

  /** A settled child with a task is representable if and only if a record was stored for it; without a
      record its row has no summary at all. */
  lemma RepresentableIffRecorded(run: seq<World>, i: nat, id: RunId)
    requires IsRun(run) && i < |run| && Handled(run[i], id) && run[i].store[id].Terminal()
    ensures id in run[i].wakeups <==> Representable(run[i].store[id])
    ensures id in run[i].wakeups <==> run[i].store[id].summary != None
  {
    hide Inv;
    RunInv(run, i);
    var w := run[i];
    if id in w.wakeups {
      var r := RecordFor(w, id);
      RecordedFacts(w, w.tasks[id].owner, r);
      RowReadsBack(w.store[id], r.outcome);
    } else {
      NoSummaryWithoutRecord(w, id);
    }
  }

  lemma NoSummaryWithoutRecord(w: World, id: RunId)
    requires Inv(w) && Handled(w, id) && id !in w.wakeups
    ensures w.store[id].summary == None
  {
    hide Structure;
  }

  lemma RecordFor(w: World, id: RunId) returns (r: Record)
    requires Inv(w) && Handled(w, id) && id in w.wakeups
    ensures r.id == id && r in OwnerOf(w, id).completed
  {
    hide Structure;
    var completed := OwnerOf(w, id).completed;
    var k :| 0 <= k < |completed| && completed[k].id == id;
    r := completed[k];
  }

  /** The wakeup service is told of a child once, and exactly when its record was stored. */
  lemma WakeupOncePerRecord(run: seq<World>, i: nat, id: RunId)
    requires IsRun(run) && i < |run| && Handled(run[i], id)
    ensures Distinct(run[i].wakeups)
    ensures id in run[i].wakeups <==> Recorded(OwnerOf(run[i], id).completed, id)
  {
    RunInv(run, i);
    hide Structure;
  }

  /** A row reserved in this process has a root run as its parent. A run has a depth only through its own
      row, so this says nothing of a second run in the conversation of a child. */
  lemma NoGrandchildren(run: seq<World>, i: nat, id: RunId)
    requires IsRun(run) && i < |run| && id in run[i].store && id !in run[0].store
    ensures id.Child? && id.parent.Root?
  {
    RunKept(run, 0, i);
  }
}
