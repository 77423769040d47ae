/** The wakeup service: settled children are collected per conversation for a merge window, read
    back from the store in one batch and delivered; a per-conversation throttle only postpones.
    As for delegation, a step is a stretch of code between two suspension points. */
module ChildWakeup {

  /** A settled child in the store; rows are kept in the order the store lists them. */
  datatype Row = Row(id: string, conversation: string, reported: bool)

  datatype Pending = Pending(conversation: string, children: set<string>)

  /** Where a window task stands: asleep in the merge window or at the throttle boundary, waiting
      for its delivery, finished but not yet noticed, or gone. */
  datatype Phase = Merging(due: real) | Throttled(due: real) | Sending(batch: seq<string>) | Finished | Gone

  datatype Window = Window(conversation: string, phase: Phase)

  /** A successful send; `failed` are the children whose stamp could not be written. */
  datatype Delivery = Delivery(conversation: string, batch: seq<string>, at: real, failed: set<string>)

  datatype LogEntry = Scheduled(conversation: string, child: string) | Queried(conversation: string)

  datatype Service = Service(
    enabled: bool, closed: bool, supervisorOpen: bool,
    cap: nat, mergeWindow: real, throttle: real,
    now: real,
    rows: seq<Row>,
    pending: seq<Pending>,
    inflight: map<string, nat>,
    windows: seq<Window>,
    lastDelivery: map<string, real>,
    deliveries: seq<Delivery>,
    log: seq<LogEntry>)
  {
    /** Enabled, not shut down, and its task supervisor still accepts tasks. */
    predicate Open() { enabled && !closed && supervisorOpen }
  }

  // ----- the ordered pending dictionary --------------------------------------------------

  function FindPending(pending: seq<Pending>, conversation: string): (i: nat)
    ensures i <= |pending|
    ensures i < |pending| ==> pending[i].conversation == conversation
    ensures forall k :: 0 <= k < i ==> pending[k].conversation != conversation
  {
    if pending == [] || pending[0].conversation == conversation then 0 else 1 + FindPending(pending[1..], conversation)
  }

  predicate IsPending(pending: seq<Pending>, conversation: string) {
    FindPending(pending, conversation) < |pending|
  }

  /** A known conversation keeps its place; a new one goes to the end. */
  function AddPending(pending: seq<Pending>, conversation: string, child: string): seq<Pending> {
    var i := FindPending(pending, conversation);
    if i == |pending| then pending + [Pending(conversation, {child})]
    else pending[i := Pending(conversation, pending[i].children + {child})]
  }

  function PopPending(pending: seq<Pending>, conversation: string): seq<Pending> {
    var i := FindPending(pending, conversation);
    if i == |pending| then pending else pending[..i] + pending[i + 1..]
  }

  // ----- the store -----------------------------------------------------------------------

  /** The queue of a conversation: its settled children that were not handed back yet. */
  function Unreported(rows: seq<Row>, conversation: string): seq<string> {
    if rows == [] then []
    else if rows[0].conversation == conversation && !rows[0].reported
    then [rows[0].id] + Unreported(rows[1..], conversation)
    else Unreported(rows[1..], conversation)
  }

  function Stamp(rows: seq<Row>, ids: set<string>): (r: seq<Row>)
    ensures |r| == |rows|
    ensures forall i :: 0 <= i < |rows| ==>
              r[i] == (if rows[i].id in ids then rows[i].(reported := true) else rows[i])
  {
    if rows == [] then []
    else [if rows[0].id in ids then rows[0].(reported := true) else rows[0]] + Stamp(rows[1..], ids)
  }

  function ToSet(s: seq<string>): set<string> {
    set x | x in s
  }

  // ----- steps ---------------------------------------------------------------------------

  /** Starts a window task for a conversation, unless the supervisor refuses. */
  function StartWindow(s: Service, conversation: string): Service {
    if !s.supervisorOpen then s
    else s.(windows := s.windows + [Window(conversation, Merging(s.now + s.mergeWindow))],
            inflight := s.inflight[conversation := |s.windows|])
  }

  function EnsureWindow(s: Service, conversation: string): Service {
    if s.closed || conversation in s.inflight || |s.inflight| >= s.cap then s
    else StartWindow(s, conversation)
  }

  function Schedule(s: Service, child: string, conversation: string): Service {
    if !s.enabled || s.closed || conversation == "" || child == "" then s
    else
      EnsureWindow(s.(pending := AddPending(s.pending, conversation, child),
                      log := s.log + [Scheduled(conversation, child)]), conversation)
  }

  /** Gives a window to every listed conversation that can have one, in order. */
  function EnsureAll(s: Service, conversations: seq<Pending>): Service
    decreases |conversations|
  {
    if conversations == [] then s
    else EnsureAll(EnsureWindow(s, conversations[0].conversation), conversations[1..])
  }

  function SetPhase(s: Service, t: nat, phase: Phase): Service
    requires t < |s.windows|
  {
    s.(windows := s.windows[t := s.windows[t].(phase := phase)])
  }

  /** What the service learns between taking its batch and sending it. */
  datatype Lookup = ReadFailed | ConversationMissing | Archived | Deliverable

  /** Takes the pending entry, reads the queue of the conversation once, and decides whether to send. */
  function TakeBatch(s: Service, t: nat, lookup: Lookup): Service
    requires t < |s.windows|
  {
    var conversation := s.windows[t].conversation;
    var batch := Unreported(s.rows, conversation);
    var taken := s.(pending := PopPending(s.pending, conversation), log := s.log + [Queried(conversation)]);
    if lookup == Deliverable && batch != [] then SetPhase(taken, t, Sending(batch)) else SetPhase(taken, t, Finished)
  }

  /** The merge window is over: wait for the throttle boundary first, if there is one ahead. */
  function MergeOver(s: Service, t: nat, lookup: Lookup): Service
    requires t < |s.windows|
  {
    var conversation := s.windows[t].conversation;
    if s.throttle > 0.0 && conversation in s.lastDelivery && s.throttle - (s.now - s.lastDelivery[conversation]) > 0.0
    then SetPhase(s, t, Throttled(s.now + (s.throttle - (s.now - s.lastDelivery[conversation]))))
    else TakeBatch(s, t, lookup)
  }

  datatype SendResult = Delivered(failed: set<string>) | NotDelivered

  /** The send returned. Only a success is a delivery: it sets the throttle mark and stamps the batch. */
  function SendEnds(s: Service, t: nat, result: SendResult): Service
    requires t < |s.windows| && s.windows[t].phase.Sending?
  {
    var conversation, batch := s.windows[t].conversation, s.windows[t].phase.batch;
    match result
    case NotDelivered => SetPhase(s, t, Finished)
    case Delivered(failed) =>
      SetPhase(s.(lastDelivery := s.lastDelivery[conversation := s.now],
                  rows := Stamp(s.rows, ToSet(batch) - failed),
                  deliveries := s.deliveries + [Delivery(conversation, batch, s.now, failed)]), t, Finished)
  }

  /** The done callback: give the slot back, then pick up what became pending meanwhile. */
  function WindowDone(s: Service, t: nat): Service
    requires t < |s.windows|
  {
    var freed := SetPhase(s.(inflight := s.inflight - {s.windows[t].conversation}), t, Gone);
    if freed.closed then freed else EnsureAll(freed, freed.pending)
  }

  /** The start-up pass over all unreported rows. */
  function Rearm(s: Service, rows: seq<Row>): Service
    decreases |rows|
  {
    if rows == [] then s
    else Rearm(if rows[0].reported then s else Schedule(s, rows[0].id, rows[0].conversation), rows[1..])
  }

  // ----- the transition system -----------------------------------------------------------

  datatype Event =
    | ChildSettled(row: Row)
    | ScheduleCalled(child: string, conversation: string)
    | RearmCalled
    | TimePasses(seconds: real)
    | MergeElapsed(t: nat, lookup: Lookup)
    | ThrottleElapsed(t: nat, lookup: Lookup)
    | SendReturned(t: nat, result: SendResult)
    | CallbackRuns(t: nat)
    | SupervisorCloses
    | ShutdownBegins
    | WindowCancelled(t: nat)
    | ShutdownEnds

  ghost predicate Asleep(s: Service, t: nat) {
    t < |s.windows| && (s.windows[t].phase.Merging? || s.windows[t].phase.Throttled?) && s.windows[t].phase.due <= s.now
  }

  predicate Active(w: Window) {
    w.phase.Merging? || w.phase.Throttled? || w.phase.Sending?
  }

  ghost predicate Enabled(s: Service, e: Event) {
    match e
    case ChildSettled(row) => !row.reported && forall r :: r in s.rows ==> r.id != row.id
    case ScheduleCalled(_, _) => true
    case RearmCalled => true
    case TimePasses(seconds) => seconds >= 0.0
    case MergeElapsed(t, _) => Asleep(s, t) && s.windows[t].phase.Merging?
    case ThrottleElapsed(t, _) => Asleep(s, t) && s.windows[t].phase.Throttled?
    case SendReturned(t, _) => t < |s.windows| && s.windows[t].phase.Sending?
    case CallbackRuns(t) => t < |s.windows| && s.windows[t].phase.Finished?
    case SupervisorCloses => true
    case ShutdownBegins => true
    case WindowCancelled(t) => (s.closed || !s.supervisorOpen) && t < |s.windows| && Active(s.windows[t])
    case ShutdownEnds => s.closed && forall w :: w in s.windows ==> !Active(w)
  }

  ghost function Apply(s: Service, e: Event): Service
    requires Enabled(s, e)
  {
    match e
    case ChildSettled(row) => s.(rows := s.rows + [row])
    case ScheduleCalled(child, conversation) => Schedule(s, child, conversation)
    case RearmCalled => Rearm(s, s.rows)
    case TimePasses(seconds) => s.(now := s.now + seconds)
    case MergeElapsed(t, lookup) => MergeOver(s, t, lookup)
    case ThrottleElapsed(t, lookup) => TakeBatch(s, t, lookup)
    case SendReturned(t, result) => SendEnds(s, t, result)
    case CallbackRuns(t) => WindowDone(s, t)
    case SupervisorCloses => s.(supervisorOpen := false)
    case ShutdownBegins => s.(closed := true)
    case WindowCancelled(t) => SetPhase(s, t, Finished)
    case ShutdownEnds => s.(inflight := map[], pending := [])
  }

  ghost predicate DistinctRows(rows: seq<Row>) {
    forall i, j :: 0 <= i < j < |rows| ==> rows[i].id != rows[j].id
  }

  /** A new service over a store that may hold rows of earlier processes. */
  ghost predicate Init(s: Service) {
    && !s.closed && s.cap > 0 && s.mergeWindow > 0.0 && s.throttle >= 0.0
    && DistinctRows(s.rows)
    && s.pending == [] && s.inflight == map[] && s.windows == []
    && s.lastDelivery == map[] && s.deliveries == [] && s.log == []
  }

  ghost predicate Step(s: Service, s': Service) {
    exists e :: Enabled(s, e) && s' == Apply(s, e)
  }

  ghost predicate IsRun(run: seq<Service>) {
    && run != [] && Init(run[0])
    && forall i :: 0 <= i < |run| - 1 ==> Step(run[i], run[i + 1])
  }
}
