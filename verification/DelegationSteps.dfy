/** Every step keeps the invariant, so every state of every run satisfies it. */
module DelegationSteps {
  import opened Wrappers
  import opened Semaphores
  import opened Delegation
  import opened DelegationInvariants

  // ----- spawning ------------------------------------------------------------------------

  lemma InflightGrows(store: Store, id: RunId, row: Row, p: RunId)
    requires id !in store && !row.Terminal()
    ensures Inflight(store[id := row], p) == Inflight(store, p) + (if row.parent == p then {id} else {})
  {
  }

  /** `w'` has one more row, task and handle, all of child `id` of coordinator `c`. */
  ghost predicate Added(w: World, w': World, c: nat, id: RunId) {
    && c < |w.coordinators| && id.Child? && id.parent == w.coordinators[c].parent && id.parent.Root?
    && id !in w.store && id !in w.tasks
    && |Inflight(w.store, id.parent)| < w.limits.queued
    && w' == w.(store := w'.store, coordinators := w'.coordinators, tasks := w'.tasks)
    && w'.store == w.store[id := Row(id.parent, id.call, w.coordinators[c].conversation, 1, Running, None, None, None,
       None, NO_USAGE)]
    && w'.tasks == w.tasks[id := Task(c, Fresh, false)]
    && |w'.coordinators| == |w.coordinators| && w'.coordinators == w.coordinators[c := w'.coordinators[c]]
    && w'.coordinators[c] == w.coordinators[c].(spawnKeys := w'.coordinators[c].spawnKeys,
                                                childTasks := w.coordinators[c].childTasks + {id})
  }

  lemma AddedTasks(w: World, w': World, c: nat, id: RunId)
    requires Added(w, w', c, id)
    requires RowsOk(w.store) && CacheOk(w.cache, w.coordinators) && TasksOk(w.coordinators, w.tasks, w.store)
    requires Control(w.cache, w.tasks, w.store) && CacheEntry(id.parent, c) in w.cache
    ensures RowsOk(w'.store) && CacheOk(w'.cache, w'.coordinators) && TasksOk(w'.coordinators, w'.tasks, w'.store)
    ensures Control(w'.cache, w'.tasks, w'.store)
  {
    AddedControl(w, w', c, id);
    hide Control, Inflight, CacheOk;
    assert CacheOk(w'.cache, w'.coordinators) by { AddedCache(w, w', c, id); }
    forall x | x in w'.tasks ensures x in w'.store && TaskOk(w'.coordinators, w'.tasks[x], w'.store[x]) {
      assert x != id ==> TaskOk(w.coordinators, w.tasks[x], w.store[x]);
    }
  }

  lemma AddedCache(w: World, w': World, c: nat, id: RunId)
    requires Added(w, w', c, id) && CacheOk(w.cache, w.coordinators)
    ensures CacheOk(w'.cache, w'.coordinators)
  {
    hide Inflight;
  }

  lemma AddedControl(w: World, w': World, c: nat, id: RunId)
    requires Added(w, w', c, id) && Control(w.cache, w.tasks, w.store) && CacheEntry(id.parent, c) in w.cache
    requires TasksOk(w.coordinators, w.tasks, w.store)
    ensures Control(w'.cache, w'.tasks, w'.store)
  {
    hide TasksOk;
    forall x | x in w'.store && !w'.store[x].Terminal()
      ensures x in w'.tasks && CacheEntry(w'.store[x].parent, w'.tasks[x].owner) in w'.cache
    {
      assert x != id ==> CacheEntry(w.store[x].parent, w.tasks[x].owner) in w.cache;
    }
  }

  lemma AddedGates(w: World, w': World, c: nat, id: RunId)
    requires Added(w, w', c, id) && Gates(w.coordinators, w.tasks, w.limits)
    ensures Gates(w'.coordinators, w'.tasks, w'.limits)
  {
    forall d | 0 <= d < |w'.coordinators| ensures Gate(w'.coordinators[d], d, w'.tasks, w'.limits) {
      assert Gate(w.coordinators[d], d, w.tasks, w.limits);
    }
  }

  lemma AddedPhases(w: World, w': World, c: nat, id: RunId)
    requires Added(w, w', c, id) && TasksOk(w.coordinators, w.tasks, w.store)
    requires PhasesOk(w.coordinators, w.tasks, w.store, w.kernelLog)
    ensures PhasesOk(w'.coordinators, w'.tasks, w'.store, w'.kernelLog)
  {
    forall x | x in w'.tasks && x in w'.store && w'.tasks[x].owner < |w'.coordinators|
      ensures PhaseOk(w'.coordinators[w'.tasks[x].owner], w'.tasks[x], w'.store[x], x, x in w'.kernelLog)
    {
      assert x != id ==> PhaseOk(w.coordinators[w.tasks[x].owner], w.tasks[x], w.store[x], x, x in w.kernelLog);
    }
  }

  lemma AddedRecords(w: World, w': World, c: nat, id: RunId)
    requires Added(w, w', c, id)
    requires RecordsOk(w.coordinators, w.tasks, w.store) && WakeupsOk(w.coordinators, w.tasks, w.wakeups)
    requires SummariesOk(w.tasks, w.store, w.wakeups)
    ensures RecordsOk(w'.coordinators, w'.tasks, w'.store) && WakeupsOk(w'.coordinators, w'.tasks, w'.wakeups)
    ensures SummariesOk(w'.tasks, w'.store, w'.wakeups)
  {
    forall d | 0 <= d < |w'.coordinators| ensures RecordsOf(w'.coordinators[d], d, w'.tasks, w'.store) {
      assert RecordsOf(w.coordinators[d], d, w.tasks, w.store);
      assert forall r :: r in w.coordinators[d].completed ==> RecordOk(r, d, w.tasks, w.store);
    }
    var before := w.coordinators[c].completed;
    assert RecordsOf(w.coordinators[c], c, w.tasks, w.store);
    forall i | 0 <= i < |before| ensures before[i].id != id {
      assert RecordOk(before[i], c, w.tasks, w.store);
    }
    forall x | x in w'.tasks && w'.tasks[x].owner < |w'.coordinators|
      ensures x in w'.wakeups <==> Recorded(w'.coordinators[w'.tasks[x].owner].completed, x)
    {
      assert x != id ==> (x in w.wakeups <==> Recorded(w.coordinators[w.tasks[x].owner].completed, x));
    }
  }

  lemma AddedBounds(w: World, w': World, c: nat, id: RunId)
    requires Added(w, w', c, id)
    requires QueueBound(w.store, w.limits) && CallsOk(w.calls, |w.coordinators|, w.tasks, w.store)
    ensures QueueBound(w'.store, w'.limits) && CallsOk(w'.calls, |w'.coordinators|, w'.tasks, w'.store)
  {
    forall p ensures |Inflight(w'.store, p)| <= w.limits.queued {
      InflightGrows(w.store, id, w'.store[id], p);
    }
    forall k | 0 <= k < |w'.calls| ensures CallOk(w'.calls[k], |w'.coordinators|, w'.tasks, w'.store) {
      assert CallOk(w.calls[k], |w.coordinators|, w.tasks, w.store);
    }
  }

  lemma AddedInv(w: World, w': World, c: nat, id: RunId)
    requires Inv(w) && Added(w, w', c, id) && CacheEntry(id.parent, c) in w.cache
    ensures Inv(w')
  {
    assert Structure(w') by {
      hide History;
      AddedTasks(w, w', c, id);
      AddedGates(w, w', c, id);
      AddedPhases(w, w', c, id);
    }
    assert History(w') by {
      hide Structure;
      AddedRecords(w, w', c, id);
      AddedBounds(w, w', c, id);
    }
  }

  /** With the supervisor closed the row is written and settled at once; no task exists for it. */
  lemma AddedSettledInv(w: World, id: RunId, row: Row)
    requires Inv(w) && id !in w.store && row.Terminal() && id == Child(row.parent, row.call) && row.depth >= 1
    ensures Inv(w.(store := w.store[id := row]))
  {
    assert id !in w.tasks;
    assert Structure(w.(store := w.store[id := row])) by {
      hide History;
      AddedSettledStructure(w, id, row);
    }
    assert History(w.(store := w.store[id := row])) by {
      hide Structure;
      AddedSettledHistory(w, id, row);
    }
  }

  lemma AddedSettledStructure(w: World, id: RunId, row: Row)
    requires Structure(w) && id !in w.store && row.Terminal() && id == Child(row.parent, row.call) && row.depth >= 1
    ensures Structure(w.(store := w.store[id := row]))
  {
    var store := w.store[id := row];
    assert PhasesOk(w.coordinators, w.tasks, store, w.kernelLog);
    assert TasksOk(w.coordinators, w.tasks, store) && Control(w.cache, w.tasks, store);
  }

  lemma AddedSettledHistory(w: World, id: RunId, row: Row)
    requires History(w) && id !in w.store && id !in w.tasks && row.Terminal()
    ensures History(w.(store := w.store[id := row]))
  {
    var store := w.store[id := row];
    forall p ensures |Inflight(store, p)| <= w.limits.queued {
      assert Inflight(store, p) == Inflight(w.store, p);
    }
    forall d | 0 <= d < |w.coordinators| ensures RecordsOf(w.coordinators[d], d, w.tasks, store) {
      assert RecordsOf(w.coordinators[d], d, w.tasks, w.store);
      assert forall r :: r in w.coordinators[d].completed ==> RecordOk(r, d, w.tasks, w.store);
    }
    forall k | 0 <= k < |w.calls| ensures CallOk(w.calls[k], |w.coordinators|, w.tasks, store) {
      assert CallOk(w.calls[k], |w.coordinators|, w.tasks, w.store);
    }
  }

  lemma StartInv(w: World, c: nat, call: string)
    requires Inv(w) && c < |w.coordinators|
    requires CacheEntry(w.coordinators[c].parent, c) in w.cache
    ensures Inv(Start(w, c, call))
  {
    hide Inv, Start, Added;
    var w', id := Start(w, c, call), Child(w.coordinators[c].parent, call);
    StartAdds(w, c, call);
    if w' != w {
      if w.supervisorClosed {
        AddedSettledInv(w, id, w'.store[id]);
      } else {
        AddedInv(w, w', c, id);
      }
    }
  }

  /** What a start that is not refused adds: a settled row once the supervisor is closed, else a child. */
  lemma StartAdds(w: World, c: nat, call: string)
    requires Inv(w) && c < |w.coordinators|
    ensures var w', id := Start(w, c, call), Child(w.coordinators[c].parent, call);
            w' != w ==>
              if w.supervisorClosed then
                && id !in w.store && id in w'.store && w' == w.(store := w.store[id := w'.store[id]])
                && var row := w'.store[id]; row.Terminal() && id == Child(row.parent, row.call) && row.depth >= 1
              else Added(w, w', c, id)
  {
    var co := w.coordinators[c];
    assert Gate(co, c, w.tasks, w.limits) && TasksOk(w.coordinators, w.tasks, w.store);
    hide Inv, Inflight, SemGate;
    if Start(w, c, call) != w {
      assert Child(co.parent, call) !in w.tasks;
    }
  }

  lemma SpawnInv(w: World, parent: RunId, conversation: string, call: string)
    requires Inv(w)
    requires parent.Child? ==> parent in w.store
    ensures Inv(Spawn(w, parent, conversation, call))
  {
    LookupInv(w, parent, conversation);
    var found := Lookup(w, parent, conversation);
    var i := Find(found.cache, parent);
    if i < |found.cache| && found.cache[i].owner < |found.coordinators| {
      assert found.cache[i] in found.cache;
      StartInv(found, found.cache[i].owner, call);
    }
  }

  // ----- running -------------------------------------------------------------------------

  /** What the invariant says about one task that is not done. */
  lemma LiveFacts(w: World, id: RunId)
    requires Inv(w) && Live(w, id)
    ensures Handled(w, id) && w.store[id].state == Running && id == Child(w.store[id].parent, w.store[id].call)
    ensures Gate(OwnerOf(w, id), w.tasks[id].owner, w.tasks, w.limits)
    ensures PhaseOk(OwnerOf(w, id), w.tasks[id], w.store[id], id, id in w.kernelLog)
    ensures RecordsOf(OwnerOf(w, id), w.tasks[id].owner, w.tasks, w.store)
    ensures w.store[id].summary == None
  {
    assert TaskOk(w.coordinators, w.tasks[id], w.store[id]);
    NoSummary(w, id);
  }

  lemma NoSummary(w: World, id: RunId)
    requires Inv(w) && Handled(w, id) && w.store[id].state == Running
    ensures w.store[id].summary == None
  {
    hide Structure;
    var c := w.tasks[id].owner;
    assert RecordsOf(w.coordinators[c], c, w.tasks, w.store);
    var completed := w.coordinators[c].completed;
    forall i | 0 <= i < |completed| ensures completed[i].id != id {
      assert completed[i] in completed;
    }
    assert !Recorded(completed, id);
  }

  /** A task that does not wait at the gate moves on, holding its permit if it has one. */
  lemma GateMoved(s: Semaphore<RunId>, c: nat, tasks: Tasks, capacity: nat, gate: nat, id: RunId, t: Task)
    requires SemGate(s, c, tasks, capacity, gate) && t.owner == c && id !in s.queue
    requires id in s.holders ==> gate <= Rank(t.phase) <= 3
    ensures SemGate(s, c, tasks[id := t], capacity, gate)
  {
  }

  lemma GateEntered(s: Semaphore<RunId>, c: nat, tasks: Tasks, capacity: nat, gate: nat, id: RunId, t: Task)
    requires SemGate(s, c, tasks, capacity, gate) && id in tasks && Rank(tasks[id].phase) < gate <= 3
    requires t.owner == c && Rank(t.phase) == gate && !t.cancelled
    ensures SemGate(s.Acquire(id), c, tasks[id := t], capacity, gate)
  {
    SemaphoreKept(s, id);
  }

  lemma GateLeft(s: Semaphore<RunId>, c: nat, tasks: Tasks, capacity: nat, gate: nat, id: RunId, t: Task)
    requires SemGate(s, c, tasks, capacity, gate) && t.owner == c && id !in s.queue && gate <= 3
    ensures SemGate(s.GiveBack(id), c, tasks[id := t], capacity, gate)
  {
    GivenBack(s, id);
    hide Semaphore.GiveBack, Semaphore.Valid;
  }

  lemma GateWithdrawn(s: Semaphore<RunId>, c: nat, tasks: Tasks, capacity: nat, gate: nat, id: RunId)
    requires SemGate(s, c, tasks, capacity, gate) && id in tasks && tasks[id].owner == c
    ensures SemGate(s.Withdraw(id), c, tasks[id := tasks[id].(cancelled := true)], capacity, gate)
  {
    SemaphoreKept(s, id);
  }

  lemma AdmissionInv(w: World, id: RunId)
    requires Inv(w) && Live(w, id) && w.tasks[id].phase == Fresh && !w.tasks[id].cancelled
    ensures Handled(w, id) && Inv(QueueForAdmission(w, id))
  {
    hide Inv;
    LiveFacts(w, id);
    var co := OwnerOf(w, id);
    var t := w.tasks[id].(phase := AwaitAdmission);
    GateEntered(co.admission, t.owner, w.tasks, w.limits.admitted, 1, id, t);
    GateMoved(co.slots, t.owner, w.tasks, w.limits.concurrent, 2, id, t);
    PutInv(w, QueueForAdmission(w, id), id, co.(admission := co.admission.Acquire(id)),
           w.tasks[id].(phase := AwaitAdmission), w.store[id], None);
  }

  lemma SlotInv(w: World, id: RunId)
    requires Inv(w) && Live(w, id) && w.tasks[id].phase == AwaitAdmission && !w.tasks[id].cancelled
    requires Handled(w, id) && id in OwnerOf(w, id).admission.holders
    ensures Inv(QueueForSlot(w, id))
  {
    hide Inv;
    LiveFacts(w, id);
    var co := OwnerOf(w, id);
    var t := w.tasks[id].(phase := AwaitSlot);
    GateMoved(co.admission, t.owner, w.tasks, w.limits.admitted, 1, id, t);
    GateEntered(co.slots, t.owner, w.tasks, w.limits.concurrent, 2, id, t);
    PutInv(w, QueueForSlot(w, id), id, co.(slots := co.slots.Acquire(id)),
           w.tasks[id].(phase := AwaitSlot), w.store[id], None);
  }

  lemma EnterKernelInv(w: World, id: RunId, now: nat)
    requires Inv(w) && Live(w, id) && w.tasks[id].phase == AwaitSlot
    requires Handled(w, id) && id in OwnerOf(w, id).slots.holders
    ensures Inv(EnterKernel(w, id, now))
  {
    hide Inv;
    LiveFacts(w, id);
    PutInv(w, EnterKernel(w, id, now), id, OwnerOf(w, id),
           w.tasks[id].(phase := InKernel), w.store[id].MarkedStarted(now), None);
  }

  lemma PassAdmissionInv(w: World, id: RunId, now: nat)
    requires Inv(w) && Live(w, id) && w.tasks[id].phase == AwaitAdmission && !w.tasks[id].cancelled
    requires Handled(w, id) && id in OwnerOf(w, id).admission.holders
    ensures Inv(PassAdmission(w, id, now))
  {
    SlotInv(w, id);
    var w' := QueueForSlot(w, id);
    if id in OwnerOf(w', id).slots.holders {
      EnterKernelInv(w', id, now);
    }
  }

  lemma LeaveInv(w: World, id: RunId, usage: Usage)
    requires Inv(w) && Live(w, id) && (w.tasks[id].phase == AwaitAdmission || w.tasks[id].phase == AwaitSlot)
    requires w.tasks[id].cancelled
    ensures Handled(w, id) && Inv(CancelExit(w, id, usage))
  {
    hide Inv;
    LiveFacts(w, id);
    var co := OwnerOf(w, id);
    var t := w.tasks[id].(phase := Done);
    GateLeft(co.admission, t.owner, w.tasks, w.limits.admitted, 1, id, t);
    GateLeft(co.slots, t.owner, w.tasks, w.limits.concurrent, 2, id, t);
    PutInv(w, CancelExit(w, id, usage), id,
           co.(slots := co.slots.GiveBack(id), admission := co.admission.GiveBack(id),
               childTasks := co.childTasks - {id}),
           w.tasks[id].(phase := Done), w.store[id].MarkedCancelled(usage), None);
  }

  lemma NeverRanInv(w: World, id: RunId)
    requires Inv(w) && Live(w, id) && w.tasks[id].phase == Fresh && w.tasks[id].cancelled
    ensures Handled(w, id) && Inv(NeverRan(w, id))
  {
    hide Inv;
    LiveFacts(w, id);
    PutInv(w, NeverRan(w, id), id, OwnerOf(w, id), w.tasks[id].(phase := Done), w.store[id], None);
  }

  lemma ResumeInv(w: World, id: RunId, now: nat, usage: Usage)
    requires Inv(w) && Runnable(w, id)
    ensures Inv(Resume(w, id, now, usage))
  {
    var t := w.tasks[id];
    if t.phase == Fresh && t.cancelled {
      NeverRanInv(w, id);
    } else if t.phase == Fresh {
      AdmissionInv(w, id);
      var w' := QueueForAdmission(w, id);
      if id in OwnerOf(w', id).admission.holders {
        PassAdmissionInv(w', id, now);
      }
    } else if t.cancelled {
      LeaveInv(w, id, usage);
    } else if t.phase == AwaitAdmission {
      PassAdmissionInv(w, id, now);
    } else {
      EnterKernelInv(w, id, now);
    }
  }

  // ----- settling ------------------------------------------------------------------------

  lemma {:induction false} PutAppends(children: seq<Record>, record: Record)
    requires forall r :: r in children ==> r.id != record.id
    ensures PutRecord(children, record) == children + [record]
  {
    if children != [] {
      PutAppends(children[1..], record);
      assert children == [children[0]] + children[1..];
    }
  }

  /** Appending to what was retained and trimming again retains the last of everything. */
  lemma RetainedLast<T>(s: seq<T>, x: T, n: nat)
    requires n > 0
    ensures LastOf(LastOf(s, n) + [x], n) == LastOf(s + [x], n)
  {
  }

  /** What an in-kernel child's coordinator remembers once it is recorded. */
  lemma RecordingRemembers(co: Coordinator, c: nat, tasks: Tasks, store: Store, id: RunId, answer: KernelAnswer)
    requires RecordsOf(co, c, tasks, store) && id in tasks && tasks[id].phase == InKernel
    requires id in store && store[id].state == Running
    ensures var co' := Recording(co, id, store[id], answer);
            && co' == co.(children := co'.children, completed := co'.completed, spawnKeys := co'.spawnKeys)
            && match RecordOf(id, answer)
               case None => co'.children == co.children && co'.completed == co.completed
               case Some(r) =>
                 && co'.completed == co.completed + [r]
                 && co'.children == LastOf(co'.completed, MAX_RETAINED_TERMINAL_RECORDS)
  {
    if RecordOf(id, answer).Some? {
      var r := RecordOf(id, answer).value;
      forall x | x in co.children ensures x.id != id {
        assert x in co.completed;
        assert RecordOk(x, c, tasks, store);
      }
      PutAppends(co.children, r);
      RetainedLast(co.completed, r, MAX_RETAINED_TERMINAL_RECORDS);
    }
  }

  lemma SettledMatches(row: Row, id: RunId, answer: KernelAnswer)
    requires row.state == Running
    ensures SettledRow(row, answer).Terminal() && RowMoves(row, SettledRow(row, answer))
    ensures RecordOf(id, answer).Some? ==> RowMatches(SettledRow(row, answer), RecordOf(id, answer).value.outcome)
    ensures RecordOf(id, answer).None? ==> SettledRow(row, answer).summary == None
    ensures RecordOf(id, answer).Some? && ValidAnswer(answer) ==>
              RecordOf(id, answer).value.id == id && RecordOf(id, answer).value.outcome.Valid()
  {
  }

  lemma KernelEndsInv(w: World, id: RunId, answer: KernelAnswer)
    requires Inv(w) && Live(w, id) && w.tasks[id].phase == InKernel && ValidAnswer(answer)
    ensures Handled(w, id) && Inv(KernelEnds(w, id, answer))
  {
    hide Inv, Recording, RecordOf, SettledRow, ValidAnswer;
    LiveFacts(w, id);
    var c := w.tasks[id].owner;
    RecordingRemembers(OwnerOf(w, id), c, w.tasks, w.store, id, answer);
    SettledMatches(w.store[id], id, answer);
    var co := Recording(OwnerOf(w, id), id, w.store[id], answer);
    var t := w.tasks[id].(phase := Done);
    GateLeft(co.admission, c, w.tasks, w.limits.admitted, 1, id, t);
    GateLeft(co.slots, c, w.tasks, w.limits.concurrent, 2, id, t);
    PutInv(w, KernelEnds(w, id, answer), id,
           co.(slots := co.slots.Release(id), admission := co.admission.Release(id),
               childTasks := co.childTasks - {id}),
           w.tasks[id].(phase := Done), SettledRow(w.store[id], answer), RecordOf(id, answer));
  }

  // ----- cancelling ----------------------------------------------------------------------

  lemma CallsInv(w: World, calls: seq<CancelCall>)
    requires Inv(w) && CallsOk(calls, |w.coordinators|, w.tasks, w.store)
    ensures Inv(w.(calls := calls))
  {
  }

  lemma CallFacts(w: World)
    requires Inv(w)
    ensures CallsOk(w.calls, |w.coordinators|, w.tasks, w.store)
    ensures History(w)
  {
  }

  lemma CancelTaskInv(w: World, id: RunId)
    requires Inv(w) && Live(w, id)
    ensures Handled(w, id) && Inv(CancelTask(w, id))
  {
    hide Inv;
    LiveFacts(w, id);
    var co := OwnerOf(w, id);
    GateWithdrawn(co.admission, w.tasks[id].owner, w.tasks, w.limits.admitted, 1, id);
    GateWithdrawn(co.slots, w.tasks[id].owner, w.tasks, w.limits.concurrent, 2, id);
    PutInv(w, CancelTask(w, id), id, co.(admission := co.admission.Withdraw(id), slots := co.slots.Withdraw(id)),
           w.tasks[id].(cancelled := true), w.store[id], None);
  }

  /** A remembered record means a settled row. */
  lemma RememberedSettled(w: World, c: nat, id: RunId)
    requires History(w) && c < |w.coordinators| && Recorded(w.coordinators[c].children, id)
    ensures id in w.store && w.store[id].Terminal()
  {
    var co := w.coordinators[c];
    assert RecordsOf(co, c, w.tasks, w.store);
    var i :| 0 <= i < |co.children| && co.children[i].id == id;
    assert co.children[i] in co.completed;
    assert RecordOk(co.children[i], c, w.tasks, w.store);
  }

  lemma CancelBeginInv(w: World, c: nat, id: RunId)
    requires Inv(w) && c < |w.coordinators|
    ensures Inv(CancelBegin(w, c, id))
  {
    hide Inv, History;
    CallFacts(w);
    if Recorded(w.coordinators[c].children, id) {
      RememberedSettled(w, c, id);
    }
    CallsInv(w, CancelBegin(w, c, id).calls);
  }

  lemma CancelAnsweredInv(w: World, k: nat, reply: KernelCancel)
    requires Inv(w) && Enabled(w, CancelReply(k, reply))
    ensures Inv(CancelAnswered(w, k, reply))
  {
    hide Inv;
    CallFacts(w);
    var w' := CancelAnswered(w, k, reply);
    var c, id := w.calls[k].owner, w.calls[k].id;
    assert CallOk(w.calls[k], |w.coordinators|, w.tasks, w.store);
    if reply == Disowned && id in w.coordinators[c].childTasks && Live(w, id) && Handled(w, id) {
      CancelTaskInv(w, id);
      CallFacts(CancelTask(w, id));
      CallsInv(CancelTask(w, id), w'.calls);
    } else {
      if reply == Accepted { CalledStarted(w, id); }
      CallsInv(w, w'.calls);
    }
  }

  lemma CalledStarted(w: World, id: RunId)
    requires Inv(w) && id in w.kernelLog
    ensures id in w.store && w.store[id].startedAt.Some?
  {
    assert TaskOk(w.coordinators, w.tasks[id], w.store[id]);
    assert PhaseOk(OwnerOf(w, id), w.tasks[id], w.store[id], id, true);
  }

  /** A task that ended without settling its row was cancelled before it began. */
  lemma UnsettledDone(w: World, id: RunId)
    requires Inv(w) && id in w.store && w.store[id].state == Running && !Live(w, id)
    ensures Handled(w, id) && w.tasks[id].phase == Done
    ensures w.store[id].startedAt == None && id !in w.kernelLog && id in OwnerOf(w, id).childTasks
    ensures Gate(OwnerOf(w, id), w.tasks[id].owner, w.tasks, w.limits)
    ensures PhaseOk(OwnerOf(w, id), w.tasks[id], w.store[id], id, id in w.kernelLog)
  {
    assert TaskOk(w.coordinators, w.tasks[id], w.store[id]);
    assert PhaseOk(OwnerOf(w, id), w.tasks[id], w.store[id], id, id in w.kernelLog);
  }

  lemma SettleUnsettledInv(w: World, id: RunId, usage: Usage)
    requires Inv(w) && id in w.store && w.store[id].state == Running && !Live(w, id)
    ensures Inv(w.(store := w.store[id := w.store[id].MarkedCancelled(usage)]))
  {
    hide Inv;
    UnsettledDone(w, id);
    var w' := w.(store := w.store[id := w.store[id].MarkedCancelled(usage)]);
    assert w.tasks == w.tasks[id := w.tasks[id]];
    PutInv(w, w', id, OwnerOf(w, id), w.tasks[id], w.store[id].MarkedCancelled(usage), None);
  }

  lemma CancelResumedInv(w: World, k: nat, usage: Usage)
    requires Inv(w) && Enabled(w, CancelWoken(k, usage))
    ensures Inv(CancelResumed(w, k, usage))
  {
    hide Inv;
    CallFacts(w);
    var w' := CancelResumed(w, k, usage);
    var id := w.calls[k].id;
    assert CallOk(w.calls[k], |w.coordinators|, w.tasks, w.store);
    if w.store[id].Terminal() {
      CallsInv(w, w'.calls);
    } else {
      SettleUnsettledInv(w, id, usage);
      CallFacts(w.(store := w'.store));
      CallsInv(w.(store := w'.store), w'.calls);
    }
  }

  // ----- shutting down -------------------------------------------------------------------

  lemma CloseTasks(w: World)
    requires TasksOk(w.coordinators, w.tasks, w.store) && PhasesOk(w.coordinators, w.tasks, w.store, w.kernelLog)
    ensures var w' := CloseSupervisor(w);
            && TasksOk(w'.coordinators, w'.tasks, w'.store)
            && PhasesOk(w'.coordinators, w'.tasks, w'.store, w'.kernelLog)
  {
    hide CloseSupervisor, TaskOk, PhaseOk;
    var w' := CloseSupervisor(w);
    CloseKeepsTasks(w);
    forall id | id in w'.tasks ensures id in w'.store && TaskOk(w'.coordinators, w'.tasks[id], w'.store[id]) {
      CloseTask(w, id);
    }
    forall id | id in w'.tasks && id in w'.store && w'.tasks[id].owner < |w'.coordinators|
      ensures PhaseOk(w'.coordinators[w'.tasks[id].owner], w'.tasks[id], w'.store[id], id, id in w'.kernelLog)
    {
      CloseTask(w, id);
    }
  }

  lemma CloseKeepsTasks(w: World)
    ensures CloseSupervisor(w).kernelLog == w.kernelLog && CloseSupervisor(w).tasks.Keys == w.tasks.Keys
  {
  }

  lemma CloseTask(w: World, id: RunId)
    requires TasksOk(w.coordinators, w.tasks, w.store) && PhasesOk(w.coordinators, w.tasks, w.store, w.kernelLog)
    requires id in CloseSupervisor(w).tasks
    ensures var w' := CloseSupervisor(w);
            && id in w'.store && TaskOk(w'.coordinators, w'.tasks[id], w'.store[id])
            && w'.tasks[id].owner < |w'.coordinators|
            && PhaseOk(w'.coordinators[w'.tasks[id].owner], w'.tasks[id], w'.store[id], id, id in w'.kernelLog)
  {
    assert TaskOk(w.coordinators, w.tasks[id], w.store[id]);
    assert PhaseOk(w.coordinators[w.tasks[id].owner], w.tasks[id], w.store[id], id, id in w.kernelLog);
  }

  lemma CloseGates(w: World)
    requires Gates(w.coordinators, w.tasks, w.limits)
    ensures var w' := CloseSupervisor(w); Gates(w'.coordinators, w'.tasks, w'.limits)
  {
    var w' := CloseSupervisor(w);
    forall c | 0 <= c < |w'.coordinators| ensures Gate(w'.coordinators[c], c, w'.tasks, w'.limits) {
      assert Gate(w.coordinators[c], c, w.tasks, w.limits);
    }
  }

  lemma CloseHistory(w: World)
    requires History(w)
    ensures History(CloseSupervisor(w))
  {
    var w' := CloseSupervisor(w);
    forall c | 0 <= c < |w'.coordinators| ensures RecordsOf(w'.coordinators[c], c, w'.tasks, w'.store) {
      assert RecordsOf(w.coordinators[c], c, w.tasks, w.store);
      assert forall r :: r in w.coordinators[c].completed ==> RecordOk(r, c, w.tasks, w.store);
    }
    forall k | 0 <= k < |w'.calls| ensures CallOk(w'.calls[k], |w'.coordinators|, w'.tasks, w'.store) {
      assert CallOk(w.calls[k], |w.coordinators|, w.tasks, w.store);
    }
  }

  lemma CloseInv(w: World)
    requires Inv(w)
    ensures Inv(CloseSupervisor(w))
  {
    hide Structure, History;
    CloseStructure(w);
    CloseHistory(w);
  }

  lemma CloseStructure(w: World)
    requires Structure(w)
    ensures Structure(CloseSupervisor(w))
  {
    hide TasksOk, PhasesOk, Gate;
    CloseTasks(w);
    CloseGates(w);
  }

  /** Finalizing only settles rows of the coordinator's own handles. */
  ghost predicate OnlySettles(store: Store, store': Store, handles: set<RunId>) {
    && (forall id :: id in store' <==> id in store)
    && (forall id :: id in store && (store[id].Terminal() || id !in handles) ==> store'[id] == store[id])
    && (forall id :: id in store && id in handles ==>
          store'[id].Terminal() && (!store[id].Terminal() ==> store'[id].state == Cancelled)
              && RowMoves(store[id], store'[id]))
    && (forall id :: id in store ==> store'[id].summary == store[id].summary || store'[id].summary == None)
  }

  lemma HandlesOwned(w: World, c: nat)
    requires c < |w.coordinators| && TasksOk(w.coordinators, w.tasks, w.store)
    requires Gate(w.coordinators[c], c, w.tasks, w.limits)
    ensures forall id :: id in w.coordinators[c].childTasks ==>
              id in w.store && w.store[id].parent == w.coordinators[c].parent
  {
    forall id | id in w.coordinators[c].childTasks
      ensures id in w.store && w.store[id].parent == w.coordinators[c].parent
    {
      assert TaskOk(w.coordinators, w.tasks[id], w.store[id]);
    }
  }

  lemma SettlesHandles(store: Store, handles: set<RunId>, parent: RunId, usages: map<RunId, Usage>)
    requires forall id :: id in handles ==> id in store && store[id].parent == parent
    ensures OnlySettles(store, SettleHandles(store, handles, parent, usages), handles)
  {
    var store' := SettleHandles(store, handles, parent, usages);
    forall id | id in store && id in handles
      ensures store'[id].Terminal() && (!store[id].Terminal() ==> store'[id].state == Cancelled)
      ensures RowMoves(store[id], store'[id])
    {
      assert store'[id] == store[id].MarkedCancelled(UsageOf(usages, id));
    }
  }

  lemma FinalizeRows(w: World, c: nat, usages: map<RunId, Usage>)
    requires c < |w.coordinators| && TasksOk(w.coordinators, w.tasks, w.store)
    requires Gate(w.coordinators[c], c, w.tasks, w.limits)
    ensures OnlySettles(w.store, Finalize(w, c, usages).store, w.coordinators[c].childTasks)
  {
    hide Gate, TasksOk, OnlySettles;
    HandlesOwned(w, c);
    SettlesHandles(w.store, w.coordinators[c].childTasks, w.coordinators[c].parent, usages);
  }

  lemma FinalizeTasks(w: World, w': World, c: nat)
    requires c < |w.coordinators| && TasksOk(w.coordinators, w.tasks, w.store)
    requires PhasesOk(w.coordinators, w.tasks, w.store, w.kernelLog)
    requires forall id :: id in w.tasks ==> w.tasks[id].phase == Done
    requires OnlySettles(w.store, w'.store, w.coordinators[c].childTasks)
    requires w' == w.(store := w'.store, coordinators := w.coordinators[c := w.coordinators[c].(childTasks := {})])
    ensures TasksOk(w'.coordinators, w'.tasks, w'.store)
    ensures PhasesOk(w'.coordinators, w'.tasks, w'.store, w'.kernelLog)
  {
    forall id | id in w'.tasks
      ensures id in w'.store && TaskOk(w'.coordinators, w'.tasks[id], w'.store[id])
      ensures PhaseOk(w'.coordinators[w'.tasks[id].owner], w'.tasks[id], w'.store[id], id, id in w'.kernelLog)
    {
      assert TaskOk(w.coordinators, w.tasks[id], w.store[id]);
      assert PhaseOk(w.coordinators[w.tasks[id].owner], w.tasks[id], w.store[id], id, id in w.kernelLog);
    }
  }

  lemma FinalizeGates(w: World, c: nat)
    requires c < |w.coordinators| && Gates(w.coordinators, w.tasks, w.limits)
    ensures Gates(w.coordinators[c := w.coordinators[c].(childTasks := {})], w.tasks, w.limits)
  {
    var cs := w.coordinators[c := w.coordinators[c].(childTasks := {})];
    forall d | 0 <= d < |cs| ensures Gate(cs[d], d, w.tasks, w.limits) {
      assert Gate(w.coordinators[d], d, w.tasks, w.limits);
    }
  }

  lemma FinalizeCache(w: World, w': World, c: nat)
    requires c < |w.coordinators| && RowsOk(w.store) && CacheOk(w.cache, w.coordinators)
    requires Control(w.cache, w.tasks, w.store)
    requires OnlySettles(w.store, w'.store, w.coordinators[c].childTasks)
    requires w' == w.(store := w'.store, coordinators := w.coordinators[c := w.coordinators[c].(childTasks := {})])
    ensures RowsOk(w'.store) && CacheOk(w'.cache, w'.coordinators) && Control(w'.cache, w'.tasks, w'.store)
  {
  }

  lemma FinalizeStructure(w: World, c: nat, usages: map<RunId, Usage>)
    requires Structure(w) && c < |w.coordinators|
    requires forall id :: id in w.tasks ==> w.tasks[id].phase == Done
    ensures Structure(Finalize(w, c, usages))
  {
    hide RowsOk, CacheOk, Control, TasksOk, PhasesOk, OnlySettles;
    var w' := Finalize(w, c, usages);
    assert Gate(w.coordinators[c], c, w.tasks, w.limits);
    hide Gates, Gate;
    FinalizeRows(w, c, usages);
    FinalizeTasks(w, w', c);
    FinalizeGates(w, c);
    FinalizeCache(w, w', c);
  }

  lemma FinalizeHistory(w: World, w': World, c: nat)
    requires History(w) && c < |w.coordinators|
    requires OnlySettles(w.store, w'.store, w.coordinators[c].childTasks)
    requires w' == w.(store := w'.store, coordinators := w.coordinators[c := w.coordinators[c].(childTasks := {})])
    ensures History(w')
  {
    forall d | 0 <= d < |w'.coordinators| ensures RecordsOf(w'.coordinators[d], d, w'.tasks, w'.store) {
      assert RecordsOf(w.coordinators[d], d, w.tasks, w.store);
      assert forall r :: r in w.coordinators[d].completed ==> RecordOk(r, d, w.tasks, w.store);
    }
    SettlesBounds(w, w'.store, w'.tasks);
  }

  lemma FinalizeInv(w: World, c: nat, usages: map<RunId, Usage>)
    requires Inv(w) && c < |w.coordinators|
    requires forall id :: id in w.tasks ==> w.tasks[id].phase == Done
    ensures Inv(Finalize(w, c, usages))
  {
    var w' := Finalize(w, c, usages);
    assert Structure(w') by {
      hide Structure, History;
      FinalizeStructure(w, c, usages);
    }
    assert History(w') by {
      hide History;
      assert Gate(w.coordinators[c], c, w.tasks, w.limits);
      FinalizeRows(w, c, usages);
      FinalizeHistory(w, w', c);
    }
  }

  // ----- all steps -----------------------------------------------------------------------

  lemma StepInv(w: World, e: Event)
    requires Inv(w) && Enabled(w, e)
    ensures Inv(Apply(w, e))
  {
    hide Inv;
    match e
    case ToolCall(parent, conversation) => LookupInv(w, parent, conversation);
    case ToolCallRefused(_) => EvictInv(w);
    case Routed(parent) => TouchInv(w, parent);
    case SpawnCall(parent, conversation, call) => SpawnInv(w, parent, conversation, call);
    case ResumeTask(id, now, usage) => ResumeInv(w, id, now, usage);
    case KernelDone(id, answer) => KernelEndsInv(w, id, answer);
    case CancelCalled(c, id) => CancelBeginInv(w, c, id);
    case CancelReply(k, reply) => CancelAnsweredInv(w, k, reply);
    case CancelWoken(k, usage) => CancelResumedInv(w, k, usage);
    case Closed => CloseInv(w);
    case Finalized(c, usages) =>
      FinalizeInv(w, c, usages);
  }

  /** Every state of every run satisfies the invariant. */
  lemma {:induction false} RunInv(run: seq<World>, i: nat)
    requires IsRun(run) && i < |run|
    ensures Inv(run[i])
  {
    if i == 0 {
      InitInv(run[0]);
    } else {
      RunInv(run, i - 1);
      assert Step(run[i - 1], run[i - 1 + 1]);
      var e :| Enabled(run[i - 1], e) && run[i] == Apply(run[i - 1], e);
      StepInv(run[i - 1], e);
    }
  }
}
