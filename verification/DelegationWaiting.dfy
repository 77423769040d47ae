/** Waiting at the two gates: children are let in in the order they queued, and nobody waits for more than
    those ahead. */
module DelegationWaiting {
  import opened Semaphores
  import opened Delegation
  import opened DelegationInvariants
  import opened DelegationSteps

  /** The gate in front of a place among the admitted children, and the one in front of a slot to run. */
  datatype GateKind = AdmissionGate | SlotGate

  function AtGate(co: Coordinator, gate: GateKind): Semaphore<RunId> {
    match gate case AdmissionGate => co.admission case SlotGate => co.slots
  }

  /** The gate moves by one operation at most. */
  ghost predicate GateMoves(w: World, w': World, c: nat, gate: GateKind) {
    && c < |w.coordinators| && c < |w'.coordinators|
    && Moves(AtGate(w.coordinators[c], gate), AtGate(w'.coordinators[c], gate))
  }

  lemma SameGate(w: World, w': World, c: nat, gate: GateKind)
    requires c < |w.coordinators| && c < |w'.coordinators|
    requires AtGate(w'.coordinators[c], gate) == AtGate(w.coordinators[c], gate)
    ensures GateMoves(w, w', c, gate)
  {
  }

  lemma LookupGates(w: World, parent: RunId, conversation: string, c: nat, gate: GateKind)
    requires c < |w.coordinators|
    ensures GateMoves(w, Lookup(w, parent, conversation), c, gate)
  {
    hide Find, Evict, Touch, Moves;
    SameGate(w, Lookup(w, parent, conversation), c, gate);
  }

  lemma SpawnGates(w: World, parent: RunId, conversation: string, call: string, c: nat, gate: GateKind)
    requires c < |w.coordinators|
    ensures GateMoves(w, Spawn(w, parent, conversation, call), c, gate)
  {
    hide Find, Evict, Touch, Moves, Inflight;
    SameGate(w, Spawn(w, parent, conversation, call), c, gate);
  }

  lemma ResumeGates(w: World, id: RunId, now: nat, usage: Usage, c: nat, gate: GateKind)
    requires Runnable(w, id) && c < |w.coordinators|
    ensures GateMoves(w, Resume(w, id, now, usage), c, gate)
  {
    hide Semaphore.Acquire, Semaphore.Release;
  }

  lemma KernelGates(w: World, id: RunId, answer: KernelAnswer, c: nat, gate: GateKind)
    requires Handled(w, id) && c < |w.coordinators|
    ensures GateMoves(w, KernelEnds(w, id, answer), c, gate)
  {
    hide Semaphore.Release;
    RecordingKeepsGates(OwnerOf(w, id), id, w.store[id], answer);
    hide Recording;
  }

  lemma RecordingKeepsGates(co: Coordinator, id: RunId, row: Row, answer: KernelAnswer)
    ensures var co' := Recording(co, id, row, answer); co'.admission == co.admission && co'.slots == co.slots
  {
  }

  lemma CancelGates(w: World, id: RunId, c: nat, gate: GateKind)
    requires Handled(w, id) && c < |w.coordinators|
    ensures GateMoves(w, CancelTask(w, id), c, gate)
  {
    hide Semaphore.Withdraw;
  }

  lemma StepGates(w: World, e: Event, c: nat, gate: GateKind)
    requires Enabled(w, e) && c < |w.coordinators|
    ensures GateMoves(w, Apply(w, e), c, gate)
  {
    hide Lookup, Evict, Touch, Spawn, Resume, KernelEnds, CancelTask, Moves;
    match e
    case ToolCall(parent, conversation) => LookupGates(w, parent, conversation, c, gate);
    case SpawnCall(parent, conversation, call) => SpawnGates(w, parent, conversation, call, c, gate);
    case ResumeTask(id, now, usage) => ResumeGates(w, id, now, usage, c, gate);
    case KernelDone(id, answer) => KernelGates(w, id, answer, c, gate);
    case CancelReply(k, reply) => ReplyGates(w, k, reply, c, gate);
    case Closed => ClosedGates(w, c, gate);
    case _ => SameGate(w, Apply(w, e), c, gate);
  }

  lemma ReplyGates(w: World, k: nat, reply: KernelCancel, c: nat, gate: GateKind)
    requires k < |w.calls| && w.calls[k].AtKernel? && w.calls[k].owner < |w.coordinators| && c < |w.coordinators|
    ensures GateMoves(w, CancelAnswered(w, k, reply), c, gate)
  {
    hide CancelTask, Moves;
    var id := w.calls[k].id;
    if Handled(w, id) {
      CancelGates(w, id, c, gate);
    }
    SameGate(w, w, c, gate);
  }

  lemma ClosedGates(w: World, c: nat, gate: GateKind)
    requires c < |w.coordinators|
    ensures GateMoves(w, CloseSupervisor(w), c, gate)
  {
  }

  // ----- over any run --------------------------------------------------------------------

  /** The child waits at the gate of coordinator `c`. */
  predicate WaitsAt(w: World, c: nat, gate: GateKind, id: RunId) {
    c < |w.coordinators| && id in AtGate(w.coordinators[c], gate).queue
  }

  /** The step hands a permit of the gate to somebody. */
  predicate LetsIn(w: World, w': World, c: nat, gate: GateKind) {
    && c < |w.coordinators| && c < |w'.coordinators|
    && !(AtGate(w'.coordinators[c], gate).holders <= AtGate(w.coordinators[c], gate).holders)
  }

  /** How often a permit of the gate changed hands between two states. */
  function Entries(run: seq<World>, i: nat, j: nat, c: nat, gate: GateKind): nat
    requires i <= j < |run|
    decreases j
  {
    if i == j then 0 else Entries(run, i, j - 1, c, gate) + if LetsIn(run[j - 1], run[j], c, gate) then 1 else 0
  }

  lemma GateValid(run: seq<World>, i: nat, c: nat, gate: GateKind)
    requires IsRun(run) && i < |run| && c < |run[i].coordinators|
    ensures AtGate(run[i].coordinators[c], gate).Valid()
  {
    RunInv(run, i);
    hide IsRun, History;
    assert Gate(run[i].coordinators[c], c, run[i].tasks, run[i].limits);
  }

  lemma NextGate(run: seq<World>, i: nat, c: nat, gate: GateKind)
    requires IsRun(run) && i + 1 < |run| && c < |run[i].coordinators|
    ensures GateMoves(run[i], run[i + 1], c, gate)
  {
    hide Enabled, Apply, GateMoves;
    assert Step(run[i], run[i + 1]);
    var e :| Enabled(run[i], e) && run[i + 1] == Apply(run[i], e);
    StepGates(run[i], e, c, gate);
  }

  lemma WaitOneStep(w: World, w': World, c: nat, gate: GateKind, id: RunId)
    requires GateMoves(w, w', c, gate) && WaitsAt(w, c, gate, id) && WaitsAt(w', c, gate, id)
    requires AtGate(w.coordinators[c], gate).Valid()
    ensures var s, s' := AtGate(w.coordinators[c], gate), AtGate(w'.coordinators[c], gate);
            && (forall y :: y in Ahead(s'.queue, id) ==> y in Ahead(s.queue, id))
            && (forall y :: y in s'.holders ==> y in s.holders || y in Ahead(s.queue, id))
            && (if LetsIn(w, w', c, gate) then 1 else 0) + |Ahead(s'.queue, id)| <= |Ahead(s.queue, id)|
  {
    hide Moves, Semaphore.Valid, Ahead;
    WaitStep(AtGate(w.coordinators[c], gate), AtGate(w'.coordinators[c], gate), id);
  }

  /** Nobody passes a waiting child: as long as it waits at a gate, the children ahead of it were ahead from
      the start, and whoever has been let in meanwhile was ahead as well - no child that queued later; and
      permits change hands at most as often as children are no longer ahead. */
  lemma {:induction false} NobodyPasses(run: seq<World>, i: nat, j: nat, c: nat, gate: GateKind, id: RunId)
    requires IsRun(run) && i <= j < |run| && forall k :: i <= k <= j ==> WaitsAt(run[k], c, gate, id)
    ensures WaitsAt(run[i], c, gate, id) && WaitsAt(run[j], c, gate, id)
    ensures var s, s' := AtGate(run[i].coordinators[c], gate), AtGate(run[j].coordinators[c], gate);
            && (forall y :: y in Ahead(s'.queue, id) ==> y in Ahead(s.queue, id))
            && (forall y :: y in s'.holders ==> y in s.holders || y in Ahead(s.queue, id))
            && Entries(run, i, j, c, gate) + |Ahead(s'.queue, id)| <= |Ahead(s.queue, id)|
    decreases j
  {
    hide IsRun, AtGate, Ahead, GateMoves, LetsIn, Semaphore.Valid;
    if i < j {
      NobodyPasses(run, i, j - 1, c, gate, id);
      GateValid(run, j - 1, c, gate);
      NextGate(run, j - 1, c, gate);
      WaitOneStep(run[j - 1], run[j], c, gate, id);
    }
  }

  function WaitPhase(gate: GateKind): Phase {
    match gate case AdmissionGate => AwaitAdmission case SlotGate => AwaitSlot
  }

  /** A child that is not cancelled waits at a gate if and only if its task sleeps there without a permit. */
  lemma WaitsExactly(run: seq<World>, i: nat, gate: GateKind, id: RunId)
    requires IsRun(run) && i < |run| && Handled(run[i], id) && !run[i].tasks[id].cancelled
    ensures var w, c := run[i], run[i].tasks[id].owner;
            WaitsAt(w, c, gate, id) <==>
            w.tasks[id].phase == WaitPhase(gate) && id !in AtGate(w.coordinators[c], gate).holders
  {
    hide IsRun, Inv;
    RunInv(run, i);
    var w := run[i];
    OwnParts(w, id);
    GateValid(run, i, w.tasks[id].owner, gate);
  }

  lemma OwnParts(w: World, id: RunId)
    requires Inv(w) && Handled(w, id)
    ensures Gate(OwnerOf(w, id), w.tasks[id].owner, w.tasks, w.limits)
    ensures PhaseOk(OwnerOf(w, id), w.tasks[id], w.store[id], id, id in w.kernelLog)
  {
    hide History;
  }
}
