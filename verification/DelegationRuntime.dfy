/** The delegation code in the form it is written: fields that methods update in place, with the
    loops that evict coordinators, trim records and finalize children. Each method does exactly the
    step of the transition system that it is named after. */
module DelegationRuntime {
  import opened Wrappers
  import opened Semaphores
  import opened Delegation
  import opened DelegationInvariants
  import opened DelegationSteps

  datatype SpawnResult =
    | Spawned(id: RunId)
    | DepthExceeded
    | DuplicateSpawn
    | LimitExceeded
    | SupervisorClosed

  class DelegationProcess {
    const limits: Limits
    var store: Store
    var coordinators: seq<Coordinator>
    var cache: seq<CacheEntry>
    var tasks: map<RunId, Task>
    var supervisorClosed: bool
    var kernelLog: seq<RunId>
    var wakeups: seq<RunId>
    var calls: seq<CancelCall>

    function State(): World
      reads this
    {
      World(limits, store, coordinators, cache, tasks, supervisorClosed, kernelLog, wakeups, calls)
    }

    constructor (limits: Limits, store: Store)
      ensures State() == World(limits, store, [], [], map[], false, [], [], [])
    {
      this.limits, this.store := limits, store;
      coordinators, cache, tasks, supervisorClosed := [], [], map[], false;
      kernelLog, wakeups, calls := [], [], [];
    }

    // ----- the coordinator cache ---------------------------------------------------------

    predicate HasInflightChildren(parent: RunId)
      reads this
    {
      Inflight(store, parent) != {}
    }

    /** Takes an entry out of the ordered cache by its key. */
    method PopEntry(parent: RunId) returns (entry: Option<CacheEntry>)
      modifies this`cache
      ensures var i := Find(old(cache), parent);
              if i == |old(cache)| then entry == None && cache == old(cache)
              else entry == Some(old(cache)[i]) && cache == old(cache)[..i] + old(cache)[i + 1..]
    {
      var i := Find(cache, parent);
      if i == |cache| { return None; }
      entry := Some(cache[i]);
      cache := cache[..i] + cache[i + 1..];
    }

    method TouchEntry(parent: RunId)
      modifies this`cache
      ensures cache == Touch(old(cache), parent)
    {
      var entry := PopEntry(parent);
      if entry.Some? {
        cache := cache + [entry.value];
      }
    }

    method EvictIdleCoordinators()
      requires UniqueParents(cache)
      modifies this`cache
      ensures cache == Evict(old(cache), store)
    {
      if |cache| < MAX_TRACKED_PARENT_RUNS { return; }
      hide Evicting, Evict, Inflight, UniqueParents, Find;
      var snapshot := cache;
      var k := 0;
      ghost var kept: seq<CacheEntry> := [];
      EvictingStarts(snapshot, store);
      while k < |snapshot|
        invariant 0 <= k <= |snapshot|
        invariant Evicting(snapshot, store, kept, snapshot[k..], cache)
      {
        if |cache| < MAX_TRACKED_PARENT_RUNS {
          EvictingEnds(snapshot, store, kept, snapshot[k..], cache);
          return;
        }
        var entry := snapshot[k];
        EvictingMoves(snapshot, store, kept, k, cache);
        if HasInflightChildren(entry.parent) {
          kept := kept + [entry];
        } else {
          var _ := PopEntry(entry.parent);
        }
        assert Evicting(snapshot, store, kept, snapshot[k + 1..], cache);
        k := k + 1;
      }
      EvictingEnds(snapshot, store, kept, snapshot[k..], cache);
    }

    method CoordinatorFor(parent: RunId, conversation: string) returns (c: nat)
      requires UniqueParents(cache)
      modifies this`cache, this`coordinators
      ensures State() == Lookup(old(State()), parent, conversation)
      ensures CacheEntry(parent, c) in cache
    {
      var i := Find(cache, parent);
      if i < |cache| {
        c := cache[i].owner;
        TouchEntry(parent);
        return;
      }
      EvictIdleCoordinators();
      var depth := if parent in store then store[parent].depth else 0;
      c := |coordinators|;
      coordinators := coordinators + [Coordinator(parent, conversation, depth, [], [], {}, {},
                                                  New(limits.admitted), New(limits.concurrent))];
      cache := cache + [CacheEntry(parent, c)];
    }

    // ----- spawning ----------------------------------------------------------------------

    /** Inserts a running row; refuses a used spawn key. */
    method ReserveChildRun(id: RunId, row: Row) returns (reserved: bool)
      modifies this`store
      ensures reserved == (id !in old(store))
      ensures store == if reserved then old(store)[id := row] else old(store)
    {
      reserved := id !in store;
      if reserved {
        store := store[id := row];
      }
    }

    method StartChild(c: nat, call: string) returns (r: SpawnResult)
      requires c < |coordinators|
      modifies this`store, this`coordinators, this`tasks
      ensures State() == Start(old(State()), c, call)
      ensures r.Spawned? <==> State() != old(State()) && !supervisorClosed
      ensures r.Spawned? ==>
                && r.id == Child(coordinators[c].parent, call) && r.id !in old(store)
                && r.id in store && store[r.id].state == Running && store[r.id].startedAt == None
      ensures r == SupervisorClosed ==> forall id :: id in store && id !in old(store) ==> store[id].Terminal()
    {
      var co := coordinators[c];
      if co.depth + 1 > MAX_DEPTH { return DepthExceeded; }
      if call in co.spawnKeys { return DuplicateSpawn; }
      if |Inflight(store, co.parent)| >= limits.queued { return LimitExceeded; }
      var id := Child(co.parent, call);
      var reserved := ReserveChildRun(
        id, Row(co.parent, call, co.conversation, co.depth + 1, Running, None, None, None, None, NO_USAGE));
      if !reserved { return DuplicateSpawn; }
      coordinators := coordinators[c := co.(spawnKeys := co.spawnKeys + {call})];
      if supervisorClosed {
        coordinators := coordinators[c := coordinators[c].(spawnKeys := coordinators[c].spawnKeys - {call})];
        store := store[id := store[id].MarkedFailed("delegation_supervisor_closed", "后台任务主管已关闭，子运行未能启动。", NO_USAGE)];
        assert coordinators == old(coordinators);
        return SupervisorClosed;
      }
      tasks := tasks[id := Task(c, Fresh, false)];
      coordinators := coordinators[c := coordinators[c].(childTasks := coordinators[c].childTasks + {id})];
      return Spawned(id);
    }

    method SpawnChild(parent: RunId, conversation: string, call: string) returns (r: SpawnResult)
      requires Inv(State())
      requires parent.Child? ==> parent in store
      modifies this
      ensures State() == Spawn(old(State()), parent, conversation, call)
      ensures Inv(State())
    {
      LookupInv(State(), parent, conversation);
      SpawnInv(State(), parent, conversation, call);
      var c := CoordinatorFor(parent, conversation);
      assert cache[Find(cache, parent)] == CacheEntry(parent, c);
      r := StartChild(c, call);
    }

    // ----- settling ----------------------------------------------------------------------

    /** Trims what memory retains: drops records from the front until at most 32 are left. */
    method ReclaimTerminalRecords(c: nat)
      requires c < |coordinators| && DistinctIds(coordinators[c].children)
      modifies this`coordinators
      ensures |coordinators| == |old(coordinators)|
      ensures coordinators == old(coordinators)[c := old(coordinators)[c].(
                children := LastOf(old(coordinators)[c].children, MAX_RETAINED_TERMINAL_RECORDS))]
    {
      var snapshot := coordinators[c].children;
      if |snapshot| <= MAX_RETAINED_TERMINAL_RECORDS { return; }
      var excess := |snapshot| - MAX_RETAINED_TERMINAL_RECORDS;
      var k := 0;
      while k < |snapshot| && excess > 0
        invariant 0 <= k <= |snapshot| && |coordinators| == |old(coordinators)|
        invariant k + excess == |snapshot| - MAX_RETAINED_TERMINAL_RECORDS && excess >= 0
        invariant coordinators == old(coordinators)[c := old(coordinators)[c].(children := snapshot[k..])]
      {
        var children := coordinators[c].children;
        assert WithoutRecord(children, snapshot[k].id) == children[1..] == snapshot[k + 1..];
        coordinators := coordinators[c := coordinators[c].(children := WithoutRecord(children, snapshot[k].id))];
        excess := excess - 1;
        k := k + 1;
      }
    }

    /** The kernel's call ended, one way or another. */
    method KernelReturned(id: RunId, answer: KernelAnswer)
      requires Inv(State()) && Handled(State(), id) && tasks[id].phase == InKernel && ValidAnswer(answer)
      modifies this
      ensures State() == KernelEnds(old(State()), id, answer)
      ensures Inv(State())
    {
      hide Inv, RecordsOf, Recording, RecordOf, SettledRow;
      KernelEndsInv(State(), id, answer);
      LiveFacts(State(), id);
      RecordAnswer(id, answer);
      ReleaseBoth(id);
    }

    /** What is remembered and written before the gates are left. */
    method RecordAnswer(id: RunId, answer: KernelAnswer)
      requires Handled(State(), id) && store[id].state == Running && tasks[id].phase == InKernel
      requires RecordsOf(coordinators[tasks[id].owner], tasks[id].owner, tasks, store)
      modifies this`store, this`wakeups, this`coordinators
      ensures |coordinators| == |old(coordinators)|
      ensures store == old(store)[id := SettledRow(old(store)[id], answer)]
      ensures wakeups == if RecordOf(id, answer).Some? then old(wakeups) + [id] else old(wakeups)
      ensures var c := tasks[id].owner;
              coordinators == old(coordinators)[c := Recording(old(coordinators)[c], id, old(store)[id], answer)]
    {
      var c := tasks[id].owner;
      var row := store[id];
      FreshRecord(coordinators[c], c, tasks, store, id);
      match answer {
        case Answered(outcome) => RememberAndStore(c, Record(id, outcome));
        case Raised(failure) => RememberAndStore(c, Record(id, failure));
        case Refused(usage) =>
          coordinators := coordinators[c := coordinators[c].(spawnKeys := coordinators[c].spawnKeys - {row.call})];
          store := store[id := row.MarkedFailed("delegation_contract_violation", "子运行内核返回了不匹配的 run id。", usage)];
        case Crashed(usage) =>
          store := store[id := row.MarkedFailed("delegation_child_crashed", "子运行内部错误，已按失败收尾。", usage)];
        case CancelledInKernel(usage) =>
          store := store[id := row.MarkedCancelled(usage)];
      }
    }

    /** Leaving both gates, innermost first, and dropping the task handle. */
    method ReleaseBoth(id: RunId)
      requires Handled(State(), id)
      modifies this`coordinators, this`tasks
      ensures |coordinators| == |old(coordinators)|
      ensures tasks == old(tasks)[id := old(tasks)[id].(phase := Done)]
      ensures var c := old(tasks)[id].owner;
              var co := old(coordinators)[c];
              coordinators == old(coordinators)[c := co.(slots := co.slots.Release(id),
                  admission := co.admission.Release(id),
                                                         childTasks := co.childTasks - {id})]
    {
      var c := tasks[id].owner;
      coordinators := coordinators[c := coordinators[c].(slots := coordinators[c].slots.Release(id))];
      coordinators := coordinators[c := coordinators[c].(admission := coordinators[c].admission.Release(id))];
      coordinators := coordinators[c := coordinators[c].(childTasks := coordinators[c].childTasks - {id})];
      tasks := tasks[id := tasks[id].(phase := Done)];
    }

    method RememberAndStore(c: nat, record: Record)
      requires c < |coordinators| && record.id in store && store[record.id].state == Running
      requires DistinctIds(coordinators[c].children) && forall r :: r in coordinators[c].children ==> r.id != record.id
      modifies this`store, this`wakeups, this`coordinators
      ensures |coordinators| == |old(coordinators)|
      ensures store == old(store)[record.id := RecordedRow(old(store)[record.id], record.outcome)]
      ensures wakeups == old(wakeups) + [record.id]
      ensures coordinators == old(coordinators)[c := Recording(old(coordinators)[c], record.id, old(store)[record.id],
              Answered(record.outcome))]
    {
      PutAppends(coordinators[c].children, record);
      coordinators := coordinators[c := coordinators[c].(children := PutRecord(coordinators[c].children, record))];
      store := store[record.id := RecordedRow(store[record.id], record.outcome)];
      wakeups := wakeups + [record.id];
      ReclaimTerminalRecords(c);
      coordinators := coordinators[c := coordinators[c].(completed := coordinators[c].completed + [record])];
    }

    // ----- shutting down -----------------------------------------------------------------

    /** The supervisor closes: it takes no more tasks and cancels those that are not done. */
    method CloseSupervisorTasks()
      modifies this`supervisorClosed, this`tasks, this`coordinators
      ensures State() == CloseSupervisor(old(State()))
    {
      supervisorClosed := true;
      var rest := tasks.Keys;
      while rest != {}
        invariant supervisorClosed && coordinators == old(coordinators)
        invariant rest <= old(tasks).Keys == tasks.Keys
        invariant forall id :: id in tasks ==>
                    tasks[id] == if id !in rest && old(tasks)[id].phase != Done
                                 then old(tasks)[id].(cancelled := true) else old(tasks)[id]
        decreases rest
      {
        var id :| id in rest;
        if tasks[id].phase != Done {
          tasks := tasks[id := tasks[id].(cancelled := true)];
        }
        rest := rest - {id};
      }
      EmptyQueues();
      assert tasks == CloseSupervisor(old(State())).tasks;
      assert coordinators == CloseSupervisor(old(State())).coordinators;
    }

    /** A cancelled waiter leaves its queue, and every waiter is one of the cancelled tasks. */
    method EmptyQueues()
      modifies this`coordinators
      ensures |coordinators| == |old(coordinators)|
      ensures forall c :: 0 <= c < |coordinators| ==> coordinators[c] == QueuesEmptied(old(coordinators)[c])
    {
      var c := 0;
      while c < |coordinators|
        invariant 0 <= c <= |coordinators| == |old(coordinators)|
        invariant forall k :: 0 <= k < c ==> coordinators[k] == QueuesEmptied(old(coordinators)[k])
        invariant forall k :: c <= k < |coordinators| ==> coordinators[k] == old(coordinators)[k]
      {
        coordinators := coordinators[c := QueuesEmptied(coordinators[c])];
        c := c + 1;
      }
    }

    /** Marks the rows of all tracked tasks that never settled, and forgets the handles. */
    method FinalizeCancelledChildren(c: nat, usages: map<RunId, Usage>)
      requires c < |coordinators|
      modifies this`store, this`coordinators
      ensures State() == Finalize(old(State()), c, usages)
    {
      var tracked := coordinators[c].childTasks;
      var parent := coordinators[c].parent;
      coordinators := coordinators[c := coordinators[c].(childTasks := {})];
      MarkTracked(tracked, parent, usages);
    }

    method MarkTracked(tracked: set<RunId>, parent: RunId, usages: map<RunId, Usage>)
      modifies this`store
      ensures store == SettleHandles(old(store), tracked, parent, usages)
    {
      var rest := tracked;
      while rest != {}
        invariant rest <= tracked
        invariant forall id :: id in store <==> id in old(store)
        invariant forall id :: id in store ==>
          store[id] == SettleHandle(old(store)[id], id in tracked && id !in rest && old(store)[id].parent == parent,
                                    UsageOf(usages, id))
        decreases rest
      {
        var id :| id in rest;
        if id in store && store[id].parent == parent && !store[id].Terminal() {
          store := store[id := store[id].MarkedCancelled(UsageOf(usages, id))];
        }
        rest := rest - {id};
      }
    }

    // ----- running -----------------------------------------------------------------------

    /** The next stretch of a task outside the kernel: past the gates as far as permits allow. */
    method RunReserved(id: RunId, now: nat, usage: Usage)
      requires Inv(State()) && Runnable(State(), id)
      modifies this
      ensures State() == Resume(old(State()), id, now, usage)
      ensures Inv(State())
    {
      hide Inv;
      ResumeInv(State(), id, now, usage);
      var c := tasks[id].owner;
      var co := coordinators[c];
      var t := tasks[id];
      if t.cancelled {
        if t.phase != Fresh {
          store := store[id := store[id].MarkedCancelled(usage)];
          coordinators := coordinators[c := co.(slots := co.slots.GiveBack(id), admission := co.admission.GiveBack(id),
                                                childTasks := co.childTasks - {id})];
        } else {
          assert coordinators == coordinators[c := co] && store == store[id := store[id]];
        }
        tasks := tasks[id := t.(phase := Done)];
        return;
      }
      if t.phase == Fresh {
        JoinAdmission(id);
        if id !in coordinators[c].admission.holders { return; }
        t := tasks[id];
      }
      if t.phase == AwaitAdmission {
        JoinSlots(id);
        if id !in coordinators[c].slots.holders { return; }
      }
      CallKernel(id, now);
    }

    method JoinAdmission(id: RunId)
      requires Handled(State(), id)
      modifies this`coordinators, this`tasks
      ensures State() == QueueForAdmission(old(State()), id)
    {
      var co := coordinators[tasks[id].owner];
      coordinators := coordinators[tasks[id].owner := co.(admission := co.admission.Acquire(id))];
      tasks := tasks[id := tasks[id].(phase := AwaitAdmission)];
      assert store == store[id := store[id]];
    }

    method JoinSlots(id: RunId)
      requires Handled(State(), id)
      modifies this`coordinators, this`tasks
      ensures State() == QueueForSlot(old(State()), id)
    {
      var co := coordinators[tasks[id].owner];
      coordinators := coordinators[tasks[id].owner := co.(slots := co.slots.Acquire(id))];
      tasks := tasks[id := tasks[id].(phase := AwaitSlot)];
      assert store == store[id := store[id]];
    }

    method CallKernel(id: RunId, now: nat)
      requires Handled(State(), id)
      modifies this`store, this`tasks, this`kernelLog
      ensures State() == EnterKernel(old(State()), id, now)
    {
      store := store[id := store[id].MarkedStarted(now)];
      kernelLog := kernelLog + [id];
      tasks := tasks[id := tasks[id].(phase := InKernel)];
      assert coordinators == coordinators[tasks[id].owner := coordinators[tasks[id].owner]];
    }

    // ----- cancelling --------------------------------------------------------------------

    /** Up to the await on the kernel: known and unsettled, or an immediate refusal. */
    method Cancel(c: nat, id: RunId) returns (k: nat)
      requires c < |coordinators|
      modifies this`calls
      ensures State() == CancelBegin(old(State()), c, id)
      ensures k == |calls| - 1 && (calls[k].AtKernel? ==> id in store && !store[id].Terminal())
    {
      k := |calls|;
      var co := coordinators[c];
      if FindRecord(co.children, id) < |co.children| {
        calls := calls + [Ended(c, id, NotActive, false)];
      } else if id !in store || !OwnsRow(co, store[id]) {
        calls := calls + [Ended(c, id, UnknownChild, false)];
      } else if store[id].Terminal() {
        calls := calls + [Ended(c, id, NotActive, false)];
      } else {
        calls := calls + [AtKernel(c, id)];
      }
    }

    /** The kernel's answer to a cancellation. When it has no such run, a task still waiting is cancelled
        and waited for; without one the row decides. */
    method CancelAnsweredByKernel(k: nat, reply: KernelCancel)
      requires k < |calls| && calls[k].AtKernel? && calls[k].owner < |coordinators|
      modifies this`calls, this`tasks, this`coordinators, this`store
      ensures State() == CancelAnswered(old(State()), k, reply)
      ensures calls[k].AwaitingTask? ==> reply == Disowned && Live(State(), calls[k].id) && tasks[calls[k].id].cancelled
    {
      var c, id := calls[k].owner, calls[k].id;
      if reply == Accepted {
        calls := calls[k := Ended(c, id, CancelOk, false)];
        return;
      }
      if reply == OtherError {
        calls := calls[k := Ended(c, id, KernelError, false)];
        return;
      }
      if id in coordinators[c].childTasks && Live(State(), id) && Handled(State(), id) {
        var owner := tasks[id].owner;
        var co := coordinators[owner];
        coordinators := coordinators[owner := co.(admission := co.admission.Withdraw(id),
            slots := co.slots.Withdraw(id))];
        tasks := tasks[id := tasks[id].(cancelled := true)];
        calls := calls[k := AwaitingTask(c, id)];
        assert store == store[id := store[id]];
      } else if id in store && store[id].Terminal() {
        calls := calls[k := Ended(c, id, NotActive, true)];
      } else {
        calls := calls[k := Ended(c, id, KernelError, true)];
      }
    }

    /** The task the call waited for is done: the row decides what the call reports. */
    method CancelledTaskEnded(k: nat, usage: Usage)
      requires Inv(State()) && Enabled(State(), CancelWoken(k, usage))
      modifies this`store, this`calls
      ensures State() == CancelResumed(old(State()), k, usage)
      ensures calls[k].Ended? && calls[k].disowned
      ensures calls[k].result == CancelOk ==> calls[k].id in store && store[calls[k].id].state == Cancelled
    {
      hide Inv;
      CallFacts(State());
      assert CallOk(calls[k], |coordinators|, tasks, store);
      var c, id := calls[k].owner, calls[k].id;
      if store[id].Terminal() {
        if store[id].state == Cancelled {
          calls := calls[k := Ended(c, id, CancelOk, true)];
        } else {
          calls := calls[k := Ended(c, id, NotActive, true)];
        }
      } else {
        store := store[id := store[id].MarkedCancelled(usage)];
        calls := calls[k := Ended(c, id, CancelOk, true)];
      }
    }
  }

  /** The loop has kept `kept` of the entries it has seen, and `left` are to come. */
  ghost predicate Evicting(snapshot: seq<CacheEntry>, store: Store, kept: seq<CacheEntry>, left: seq<CacheEntry>,
      cache: seq<CacheEntry>) {
    && cache == kept + left && UniqueParents(cache) && |cache| >= MAX_TRACKED_PARENT_RUNS - 1
    && Evict(snapshot, store) == kept + DropIdle(left, store, |cache| - MAX_TRACKED_PARENT_RUNS + 1)
  }

  lemma EvictingStarts(cache: seq<CacheEntry>, store: Store)
    requires UniqueParents(cache) && |cache| >= MAX_TRACKED_PARENT_RUNS
    ensures Evicting(cache, store, [], cache[0..], cache)
  {
    hide DropIdle, UniqueParents;
    assert cache[0..] == cache && [] + cache == cache;
  }

  lemma EvictingEnds(snapshot: seq<CacheEntry>, store: Store, kept: seq<CacheEntry>, left: seq<CacheEntry>,
      cache: seq<CacheEntry>)
    requires Evicting(snapshot, store, kept, left, cache) && (left == [] || |cache| < MAX_TRACKED_PARENT_RUNS)
    ensures cache == Evict(snapshot, store)
  {
    hide UniqueParents, Inflight, Evict;
  }

  lemma DropIdleStep(entry: CacheEntry, rest: seq<CacheEntry>, store: Store, excess: nat)
    requires excess > 0
    ensures DropIdle([entry] + rest, store, excess) ==
            if Inflight(store, entry.parent) != {} then [entry] + DropIdle(rest, store, excess)
            else DropIdle(rest, store, excess - 1)
  {
    hide Inflight;
    assert ([entry] + rest)[1..] == rest;
  }

  lemma EvictingMoves(snapshot: seq<CacheEntry>, store: Store, kept: seq<CacheEntry>, k: nat, cache: seq<CacheEntry>)
    requires k < |snapshot| && Evicting(snapshot, store, kept, snapshot[k..], cache)
    requires |cache| >= MAX_TRACKED_PARENT_RUNS
    ensures if Inflight(store, snapshot[k].parent) != {}
            then Evicting(snapshot, store, kept + [snapshot[k]], snapshot[k + 1..], cache)
            else
              var i := Find(cache, snapshot[k].parent);
              i < |cache| && Evicting(snapshot, store, kept, snapshot[k + 1..], cache[..i] + cache[i + 1..])
  {
    hide Evicting, UniqueParents, Inflight, Find;
    var entry, rest := snapshot[k], snapshot[k + 1..];
    assert snapshot[k..] == [entry] + rest;
    if Inflight(store, entry.parent) != {} {
      EvictingKeeps(snapshot, store, kept, entry, rest, cache);
    } else {
      EvictingDrops(snapshot, store, kept, entry, rest, cache);
    }
  }

  lemma EvictingKeeps(snapshot: seq<CacheEntry>, store: Store, kept: seq<CacheEntry>, entry: CacheEntry,
                      rest: seq<CacheEntry>, cache: seq<CacheEntry>)
    requires Evicting(snapshot, store, kept, [entry] + rest, cache) && |cache| >= MAX_TRACKED_PARENT_RUNS
    requires Inflight(store, entry.parent) != {}
    ensures Evicting(snapshot, store, kept + [entry], rest, cache)
  {
    hide UniqueParents, Inflight, Evict, DropIdle;
    var excess := |cache| - MAX_TRACKED_PARENT_RUNS + 1;
    DropIdleStep(entry, rest, store, excess);
    assert kept + ([entry] + DropIdle(rest, store, excess)) == (kept + [entry]) + DropIdle(rest, store, excess);
    assert kept + ([entry] + rest) == (kept + [entry]) + rest;
  }

  lemma EvictingDrops(snapshot: seq<CacheEntry>, store: Store, kept: seq<CacheEntry>, entry: CacheEntry,
                      rest: seq<CacheEntry>, cache: seq<CacheEntry>)
    requires Evicting(snapshot, store, kept, [entry] + rest, cache) && |cache| >= MAX_TRACKED_PARENT_RUNS
    requires Inflight(store, entry.parent) == {}
    ensures var i := Find(cache, entry.parent);
            i < |cache| && Evicting(snapshot, store, kept, rest, cache[..i] + cache[i + 1..])
  {
    hide UniqueParents, Inflight, Evict, DropIdle, Find;
    DropIdleStep(entry, rest, store, |cache| - MAX_TRACKED_PARENT_RUNS + 1);
    assert cache == kept + [entry] + rest;
    PopsBetween(kept, entry, rest);
  }

  lemma PopsBetween(kept: seq<CacheEntry>, entry: CacheEntry, rest: seq<CacheEntry>)
    requires UniqueParents(kept + [entry] + rest)
    ensures var cache := kept + [entry] + rest;
            Find(cache, entry.parent) == |kept| && cache[..|kept|] + cache[|kept| + 1..] == kept + rest
    ensures UniqueParents(kept + rest)
  {
    var cache := kept + [entry] + rest;
    assert cache[|kept|] == entry;
    assert cache[..|kept|] == kept && cache[|kept| + 1..] == rest;
  }

  function QueuesEmptied(co: Coordinator): Coordinator {
    co.(admission := co.admission.(queue := []), slots := co.slots.(queue := []))
  }

  /** A child in the kernel has no record yet. */
  lemma FreshRecord(co: Coordinator, c: nat, tasks: Tasks, store: Store, id: RunId)
    requires RecordsOf(co, c, tasks, store) && id in tasks && tasks[id].phase == InKernel
    ensures DistinctIds(co.children) && forall r :: r in co.children ==> r.id != id
  {
    forall r | r in co.children ensures r.id != id {
      assert r in co.completed;
      assert RecordOk(r, c, tasks, store);
    }
  }

  /** Removing a key from an ordered dictionary of records. */
  function WithoutRecord(records: seq<Record>, id: RunId): seq<Record> {
    var i := FindRecord(records, id);
    if i == |records| then records else records[..i] + records[i + 1..]
  }
}
