/** What no step of the delegation system ever takes back. */
module DelegationRuns {
  import opened Delegation
  import opened DelegationInvariants
  import opened DelegationSteps

  ghost predicate RowKept(row: Row, row': Row) {
    && RowMoves(row, row')
    && (row.Terminal() ==> row' == row)
  }

  ghost predicate TaskKept(t: Task, t': Task) {
    t'.owner == t.owner && (t.cancelled ==> t'.cancelled) && Rank(t.phase) <= Rank(t'.phase)
  }

  ghost predicate Prefix<T>(a: seq<T>, b: seq<T>) {
    |a| <= |b| && b[..|a|] == a
  }

  ghost predicate Kept(w: World, w': World) {
    && w'.limits == w.limits
    && (forall id :: id in w.store ==> id in w'.store && RowKept(w.store[id], w'.store[id]))
    && (forall id :: id in w.tasks ==> id in w'.tasks && TaskKept(w.tasks[id], w'.tasks[id]))
    && (forall id :: id in w'.store && id !in w.store ==> id.Child? && id.parent.Root?)
    && |w.coordinators| <= |w'.coordinators|
    && (forall c :: 0 <= c < |w.coordinators| ==> w'.coordinators[c].parent == w.coordinators[c].parent)
    && Prefix(w.kernelLog, w'.kernelLog) && Prefix(w.wakeups, w'.wakeups)
    && |w.calls| <= |w'.calls|
    && (forall k :: 0 <= k < |w.calls| && w.calls[k].Ended? ==> w'.calls[k] == w.calls[k])
  }

  lemma KeptSame(w: World)
    ensures Kept(w, w)
  {
  }

  lemma KeptTrans(a: World, b: World, c: World)
    requires Kept(a, b) && Kept(b, c)
    ensures Kept(a, c)
  {
  }

  /** A step about one child whose row was running. */
  lemma PutKept(w: World, w': World, id: RunId, co: Coordinator, t: Task, row: Row)
    requires Handled(w, id) && w.store[id].state == Running
    requires w' == Put(w, id, co, t, row).(kernelLog := w'.kernelLog, wakeups := w'.wakeups)
    requires Prefix(w.kernelLog, w'.kernelLog) && Prefix(w.wakeups, w'.wakeups)
    requires RowMoves(w.store[id], row) && TaskKept(w.tasks[id], t)
    requires co.parent == OwnerOf(w, id).parent
    ensures Kept(w, w')
  {
  }

  lemma QueuedKept(w: World, id: RunId)
    requires Inv(w) && Live(w, id) && Handled(w, id)
    ensures w.tasks[id].phase == Fresh ==> Kept(w, QueueForAdmission(w, id))
    ensures w.tasks[id].phase == AwaitAdmission ==> Kept(w, QueueForSlot(w, id))
  {
    hide Inv;
    LiveFacts(w, id);
    var co := OwnerOf(w, id);
    if w.tasks[id].phase == Fresh {
      PutKept(w, QueueForAdmission(w, id), id, co.(admission := co.admission.Acquire(id)),
              w.tasks[id].(phase := AwaitAdmission), w.store[id]);
    } else if w.tasks[id].phase == AwaitAdmission {
      PutKept(w, QueueForSlot(w, id), id, co.(slots := co.slots.Acquire(id)), w.tasks[id].(phase := AwaitSlot),
          w.store[id]);
    }
  }

  lemma EnterKernelKept(w: World, id: RunId, now: nat)
    requires Inv(w) && Live(w, id) && Handled(w, id) && w.tasks[id].phase == AwaitSlot
    ensures Kept(w, EnterKernel(w, id, now))
  {
    hide Inv;
    LiveFacts(w, id);
    PutKept(w, EnterKernel(w, id, now), id, OwnerOf(w, id), w.tasks[id].(phase := InKernel),
        w.store[id].MarkedStarted(now));
  }

  lemma PassAdmissionKept(w: World, id: RunId, now: nat)
    requires Inv(w) && Live(w, id) && w.tasks[id].phase == AwaitAdmission && !w.tasks[id].cancelled
    requires Handled(w, id) && id in OwnerOf(w, id).admission.holders
    ensures Kept(w, PassAdmission(w, id, now))
  {
    hide Inv, Kept;
    QueuedKept(w, id);
    SlotInv(w, id);
    var w' := QueueForSlot(w, id);
    if id in OwnerOf(w', id).slots.holders {
      EnterKernelKept(w', id, now);
      KeptTrans(w, w', PassAdmission(w, id, now));
    }
  }

  lemma CancelledKept(w: World, id: RunId, usage: Usage)
    requires Inv(w) && Live(w, id) && Handled(w, id)
    ensures Kept(w, NeverRan(w, id)) && Kept(w, CancelExit(w, id, usage))
  {
    hide Inv;
    LiveFacts(w, id);
    var exit := CancelExit(w, id, usage);
    PutKept(w, NeverRan(w, id), id, OwnerOf(w, id), w.tasks[id].(phase := Done), w.store[id]);
    PutKept(w, exit, id, OwnerOf(exit, id), exit.tasks[id], exit.store[id]);
  }

  lemma ResumeKept(w: World, id: RunId, now: nat, usage: Usage)
    requires Inv(w) && Runnable(w, id)
    ensures Kept(w, Resume(w, id, now, usage))
  {
    hide Inv, Kept;
    var t := w.tasks[id];
    if t.cancelled {
      CancelledKept(w, id, usage);
    } else if t.phase == Fresh {
      QueuedKept(w, id);
      AdmissionInv(w, id);
      var w' := QueueForAdmission(w, id);
      if id in OwnerOf(w', id).admission.holders {
        PassAdmissionKept(w', id, now);
        KeptTrans(w, w', Resume(w, id, now, usage));
      }
    } else if t.phase == AwaitAdmission {
      PassAdmissionKept(w, id, now);
    } else {
      EnterKernelKept(w, id, now);
    }
  }

  lemma KernelEndsKept(w: World, id: RunId, answer: KernelAnswer)
    requires Inv(w) && Handled(w, id) && w.tasks[id].phase == InKernel
    ensures Kept(w, KernelEnds(w, id, answer))
  {
    hide Inv;
    LiveFacts(w, id);
    var w' := KernelEnds(w, id, answer);
    SettledMatches(w.store[id], id, answer);
    PutKept(w, w', id, OwnerOf(w', id), w'.tasks[id], w'.store[id]);
  }

  /** Steps that change only the cache, the calls, or add a coordinator. */
  lemma OthersKept(w: World, w': World)
    requires w' == w.(cache := w'.cache, calls := w'.calls, coordinators := w'.coordinators)
    requires Prefix(w.coordinators, w'.coordinators)
    requires |w.calls| <= |w'.calls|
    requires forall k :: 0 <= k < |w.calls| && w.calls[k].Ended? ==> w'.calls[k] == w.calls[k]
    ensures Kept(w, w')
  {
    assert forall c :: 0 <= c < |w.coordinators| ==> w'.coordinators[c] == w'.coordinators[..|w.coordinators|][c];
  }

  lemma StartKept(w: World, c: nat, call: string)
    requires RowsOk(w.store) && TasksOk(w.coordinators, w.tasks, w.store) && c < |w.coordinators|
    requires Gate(w.coordinators[c], c, w.tasks, w.limits)
    ensures Kept(w, Start(w, c, call))
  {
    var w' := Start(w, c, call);
    var id := Child(w.coordinators[c].parent, call);
    hide Kept;
    if w' == w {
      SameKept(w);
    } else {
      assert id !in w.store && id !in w.tasks && w.coordinators[c].parent.Root?;
      hide Gate, TasksOk, RowsOk;
      AddedKept(w, w', id);
    }
  }

  lemma SameKept(w: World)
    ensures Kept(w, w)
  {
  }

  /** A new row, perhaps with its task, takes nothing away. */
  lemma AddedKept(w: World, w': World, id: RunId)
    requires id !in w.store && id !in w.tasks && id.Child? && id.parent.Root?
    requires id in w'.store && w'.store == w.store[id := w'.store[id]]
    requires w'.tasks == w.tasks || (id in w'.tasks && w'.tasks == w.tasks[id := w'.tasks[id]])
    requires |w'.coordinators| == |w.coordinators|
    requires forall c :: 0 <= c < |w.coordinators| ==> w'.coordinators[c].parent == w.coordinators[c].parent
    requires w' == w.(store := w'.store, tasks := w'.tasks, coordinators := w'.coordinators)
    ensures Kept(w, w')
  {
  }

  lemma StartParts(w: World, c: nat)
    requires Inv(w) && c < |w.coordinators|
    ensures RowsOk(w.store) && TasksOk(w.coordinators, w.tasks, w.store)
    ensures Gate(w.coordinators[c], c, w.tasks, w.limits)
  {
    hide History;
  }

  lemma SpawnKept(w: World, parent: RunId, conversation: string, call: string)
    requires Inv(w) && (parent.Child? ==> parent in w.store)
    ensures Kept(w, Spawn(w, parent, conversation, call))
  {
    hide Inv, Kept;
    LookupInv(w, parent, conversation);
    var found := Lookup(w, parent, conversation);
    OthersKept(w, found);
    var i := Find(found.cache, parent);
    if i < |found.cache| && found.cache[i].owner < |found.coordinators| {
      StartParts(found, found.cache[i].owner);
      StartKept(found, found.cache[i].owner, call);
      KeptTrans(w, found, Spawn(w, parent, conversation, call));
    }
  }

  lemma CancelTaskKept(w: World, id: RunId)
    requires Inv(w) && Live(w, id) && Handled(w, id)
    ensures Kept(w, CancelTask(w, id))
  {
    hide Inv;
    LiveFacts(w, id);
    var w' := CancelTask(w, id);
    PutKept(w, w', id, OwnerOf(w', id), w'.tasks[id], w'.store[id]);
  }

  lemma CancelAnsweredKept(w: World, k: nat, reply: KernelCancel)
    requires Inv(w) && Enabled(w, CancelReply(k, reply))
    ensures Kept(w, CancelAnswered(w, k, reply))
  {
    hide Inv, Kept;
    var w' := CancelAnswered(w, k, reply);
    var id := w.calls[k].id;
    if Live(w, id) && Handled(w, id) {
      CancelTaskKept(w, id);
      OthersKept(CancelTask(w, id), CancelTask(w, id).(calls := w'.calls));
      KeptTrans(w, CancelTask(w, id), CancelTask(w, id).(calls := w'.calls));
    }
    OthersKept(w, w.(calls := w'.calls));
  }

  lemma CancelResumedKept(w: World, k: nat, usage: Usage)
    requires Enabled(w, CancelWoken(k, usage))
    ensures Kept(w, CancelResumed(w, k, usage))
  {
  }

  lemma CloseKept(w: World)
    ensures Kept(w, CloseSupervisor(w))
  {
  }

  lemma FinalizeKept(w: World, c: nat, usages: map<RunId, Usage>)
    requires c < |w.coordinators| && TasksOk(w.coordinators, w.tasks, w.store)
    requires Gate(w.coordinators[c], c, w.tasks, w.limits)
    ensures Kept(w, Finalize(w, c, usages))
  {
    FinalizeRows(w, c, usages);
  }

  lemma StepKept(w: World, e: Event)
    requires Inv(w) && Enabled(w, e)
    ensures Kept(w, Apply(w, e))
  {
    hide Inv, Kept;
    match e
    case ToolCall(parent, conversation) => OthersKept(w, Apply(w, e));
    case ToolCallRefused(_) => OthersKept(w, Apply(w, e));
    case Routed(_) => OthersKept(w, Apply(w, e));
    case SpawnCall(parent, conversation, call) => SpawnKept(w, parent, conversation, call);
    case ResumeTask(id, now, usage) => ResumeKept(w, id, now, usage);
    case KernelDone(id, answer) => KernelEndsKept(w, id, answer);
    case CancelCalled(c, id) => OthersKept(w, Apply(w, e));
    case CancelReply(k, reply) => CancelAnsweredKept(w, k, reply);
    case CancelWoken(k, usage) => CancelResumedKept(w, k, usage);
    case Closed => CloseKept(w);
    case Finalized(c, usages) =>
      StartParts(w, c);
      FinalizeKept(w, c, usages);
  }

  lemma NextKept(run: seq<World>, i: nat)
    requires IsRun(run) && i + 1 < |run|
    ensures Kept(run[i], run[i + 1])
  {
    RunInv(run, i);
    hide Inv, Kept, Enabled, Apply;
    assert Step(run[i], run[i + 1]);
    var e :| Enabled(run[i], e) && run[i + 1] == Apply(run[i], e);
    StepKept(run[i], e);
  }

  lemma {:induction false} RunKept(run: seq<World>, i: nat, j: nat)
    requires IsRun(run) && i <= j < |run|
    ensures Kept(run[i], run[j])
    decreases j
  {
    hide IsRun, Kept;
    if i == j {
      KeptSame(run[i]);
    } else {
      RunKept(run, i, j - 1);
      NextKept(run, j - 1);
      KeptTrans(run[i], run[j - 1], run[j]);
    }
  }
}
