/** Windows and waiting: at most one window per conversation, never more than the cap, nobody
    forgotten, and a waiting conversation moves up with every window that ends. */
module ChildWakeupSlots {
  import opened ChildWakeup

  ghost predicate DistinctPending(pending: seq<Pending>) {
    forall i, j :: 0 <= i < j < |pending| ==> pending[i].conversation != pending[j].conversation
  }

  /** Every window not gone is the registered window of its conversation. (Shutting down empties the
      registry while finished windows may still await their callback.) */
  ghost predicate WindowsOk(s: Service) {
    && (forall t :: 0 <= t < |s.windows| && (Active(s.windows[t]) || (!s.closed && !s.windows[t].phase.Gone?)) ==>
          s.windows[t].conversation in s.inflight)
    && (forall t :: 0 <= t < |s.windows| && !s.windows[t].phase.Gone? && s.windows[t].conversation in s.inflight ==>
          s.inflight[s.windows[t].conversation] == t)
    && (forall c :: c in s.inflight ==>
          s.inflight[c] < |s.windows| && s.windows[s.inflight[c]].conversation == c
              && !s.windows[s.inflight[c]].phase.Gone?)
    && |s.inflight| <= s.cap
  }

  /** While the service is open a pending conversation has a window, or every slot is taken. */
  ghost predicate Served(s: Service) {
    s.Open() ==> forall p :: p in s.pending ==> p.conversation in s.inflight || |s.inflight| >= s.cap
  }

  ghost predicate SlotsOk(s: Service) {
    DistinctPending(s.pending) && WindowsOk(s) && Served(s)
  }

  /** Everything but windows, registrations and slots. */
  ghost predicate OnlyStarts(s: Service, s': Service) {
    && s' == s.(windows := s'.windows, inflight := s'.inflight)
    && |s.windows| <= |s'.windows| && s'.windows[..|s.windows|] == s.windows
    && (forall t :: |s.windows| <= t < |s'.windows| ==> s'.windows[t].phase == Merging(s.now + s.mergeWindow))
    && (forall c :: c in s.inflight ==> c in s'.inflight && s'.inflight[c] == s.inflight[c])
  }

  lemma EnsureWindowOk(s: Service, conversation: string)
    requires WindowsOk(s)
    ensures var s' := EnsureWindow(s, conversation);
            && WindowsOk(s') && OnlyStarts(s, s')
            && (s.Open() ==> conversation in s'.inflight || |s'.inflight| >= s'.cap)
            && |s.inflight| <= |s'.inflight|
            && (forall c :: c in s'.inflight ==> c in s.inflight || c == conversation)
            && var starts := !s.closed && conversation !in s.inflight && |s.inflight| < s.cap && s.supervisorOpen;
               |s'.inflight| == |s.inflight| + (if starts then 1 else 0)
  {
    hide WindowsOk, OnlyStarts;
    OnlyStartsSame(s);
    if EnsureWindow(s, conversation) != s {
      StartWindowOk(s, conversation);
      StartWindowOnly(s, conversation);
    }
  }

  lemma OneMoreKey(m: map<string, nat>, c: string, v: nat)
    requires c !in m
    ensures |m[c := v]| == |m| + 1
  {
    assert m[c := v].Keys == m.Keys + {c};
  }

  lemma StartWindowOk(s: Service, conversation: string)
    requires WindowsOk(s) && conversation !in s.inflight && |s.inflight| < s.cap && s.supervisorOpen && !s.closed
    ensures WindowsOk(StartWindow(s, conversation)) && |StartWindow(s, conversation).inflight| == |s.inflight| + 1
  {
    var s' := StartWindow(s, conversation);
    OneMoreKey(s.inflight, conversation, |s.windows|);
    forall t | 0 <= t < |s'.windows| && !s'.windows[t].phase.Gone?
      ensures s'.windows[t].conversation in s'.inflight && s'.inflight[s'.windows[t].conversation] == t
    {
      if t < |s.windows| {
        assert s'.windows[t] == s.windows[t];
      }
    }
  }

  lemma StartWindowOnly(s: Service, conversation: string)
    requires conversation !in s.inflight
    ensures OnlyStarts(s, StartWindow(s, conversation))
  {
  }

  lemma OnlyStartsSame(s: Service)
    ensures OnlyStarts(s, s)
  {
  }

  lemma OnlyStartsTrans(a: Service, b: Service, c: Service)
    requires OnlyStarts(a, b) && OnlyStarts(b, c)
    ensures OnlyStarts(a, c)
  {
    assert c.windows[..|a.windows|] == c.windows[..|b.windows|][..|a.windows|];
  }

  lemma {:induction false} EnsureAllOk(s: Service, conversations: seq<Pending>)
    requires WindowsOk(s)
    ensures var s' := EnsureAll(s, conversations);
            && WindowsOk(s') && OnlyStarts(s, s') && |s.inflight| <= |s'.inflight|
            && (s.Open() ==>
                  forall p :: p in conversations ==> p.conversation in s'.inflight || |s'.inflight| >= s'.cap)
    decreases |conversations|
  {
    hide WindowsOk, OnlyStarts;
    if conversations == [] {
      OnlyStartsSame(s);
    } else {
      EnsureWindowOk(s, conversations[0].conversation);
      var next := EnsureWindow(s, conversations[0].conversation);
      EnsureAllOk(next, conversations[1..]);
      OnlyStartsTrans(s, next, EnsureAll(s, conversations));
      StartedStays(next, EnsureAll(s, conversations), conversations[0].conversation);
    }
  }

  lemma StartedStays(s: Service, s': Service, c: string)
    requires OnlyStarts(s, s')
    ensures c in s.inflight ==> c in s'.inflight
    ensures s'.Open() == s.Open() && s'.cap == s.cap && s'.pending == s.pending
  {
  }

  lemma AddPendingOk(pending: seq<Pending>, conversation: string, child: string)
    requires DistinctPending(pending)
    ensures var p' := AddPending(pending, conversation, child);
            && DistinctPending(p')
            && (forall p :: p in pending ==>
                  exists q :: q in p' && q.conversation == p.conversation && p.children <= q.children)
            && (forall q :: q in p' ==> q.conversation == conversation || q in pending)
            && (exists q :: q in p' && q.conversation == conversation && child in q.children)
  {
    var i := FindPending(pending, conversation);
    var p' := AddPending(pending, conversation, child);
    assert p'[i] in p';
    forall p | p in pending
      ensures exists q :: q in p' && q.conversation == p.conversation && p.children <= q.children
    {
      var k :| 0 <= k < |pending| && pending[k] == p;
      assert p'[k] in p';
    }
  }

  lemma PopPendingOk(pending: seq<Pending>, conversation: string)
    requires DistinctPending(pending)
    ensures var p' := PopPending(pending, conversation);
            && DistinctPending(p')
            && (forall p :: p in p' <==> p in pending && p.conversation != conversation)
  {
    var i := FindPending(pending, conversation);
    if i < |pending| {
      assert pending == pending[..i] + [pending[i]] + pending[i + 1..];
      PoppedBetween(pending[..i], pending[i], pending[i + 1..]);
    }
  }

  lemma PoppedBetween(a: seq<Pending>, x: Pending, b: seq<Pending>)
    requires DistinctPending(a + [x] + b)
    ensures DistinctPending(a + b)
    ensures forall p :: p in a + b <==> p in a + [x] + b && p.conversation != x.conversation
  {
    var all := a + [x] + b;
    assert all[|a|] == x;
    assert forall i :: 0 <= i < |a| ==> all[i] == a[i] && all[i].conversation != x.conversation;
    assert forall i :: 0 <= i < |b| ==> all[|a| + 1 + i] == b[i] && all[|a| + 1 + i].conversation != x.conversation;
  }

  lemma ScheduleSlots(s: Service, child: string, conversation: string)
    requires SlotsOk(s)
    ensures SlotsOk(Schedule(s, child, conversation))
  {
    if Schedule(s, child, conversation) != s {
      AddPendingOk(s.pending, conversation, child);
      var added := s.(pending := AddPending(s.pending, conversation, child),
                      log := s.log + [Scheduled(conversation, child)]);
      EnsureWindowOk(added, conversation);
    }
  }

  lemma {:induction false} RearmSlots(s: Service, rows: seq<Row>)
    requires SlotsOk(s)
    ensures SlotsOk(Rearm(s, rows))
    decreases |rows|
  {
    if rows != [] {
      ScheduleSlots(s, rows[0].id, rows[0].conversation);
      RearmSlots(if rows[0].reported then s else Schedule(s, rows[0].id, rows[0].conversation), rows[1..]);
    }
  }

  /** A step of one window that keeps it registered, and never opens the queue. */
  lemma WindowMoved(s: Service, s': Service, t: nat)
    requires SlotsOk(s) && t < |s.windows| && Active(s.windows[t])
    requires s' == s.(windows := s'.windows, pending := s'.pending, rows := s'.rows, log := s'.log,
                      lastDelivery := s'.lastDelivery, deliveries := s'.deliveries)
    requires |s'.windows| == |s.windows| && s'.windows == s.windows[t := s'.windows[t]]
    requires s'.windows[t].conversation == s.windows[t].conversation && !s'.windows[t].phase.Gone?
    requires DistinctPending(s'.pending) && forall p :: p in s'.pending ==> p in s.pending
    ensures SlotsOk(s')
  {
  }

  lemma TakeBatchSlots(s: Service, t: nat, lookup: Lookup)
    requires SlotsOk(s) && t < |s.windows| && Active(s.windows[t])
    ensures SlotsOk(TakeBatch(s, t, lookup))
  {
    PopPendingOk(s.pending, s.windows[t].conversation);
    WindowMoved(s, TakeBatch(s, t, lookup), t);
  }

  /** The state between freeing a slot and refilling it. */
  function Freed(s: Service, t: nat): Service
    requires t < |s.windows|
  {
    SetPhase(s.(inflight := s.inflight - {s.windows[t].conversation}), t, Gone)
  }

  lemma FreedOk(s: Service, t: nat)
    requires WindowsOk(s) && t < |s.windows| && s.windows[t].phase.Finished?
    ensures WindowsOk(Freed(s, t))
    ensures !s.closed ==> |Freed(s, t).inflight| == |s.inflight| - 1
  {
    var c := s.windows[t].conversation;
    var f := Freed(s, t);
    assert f.inflight.Keys == s.inflight.Keys - {c};
    assert c in s.inflight.Keys ==> |f.inflight.Keys| == |s.inflight.Keys| - 1;
    forall x | x in f.inflight
      ensures f.inflight[x] < |f.windows| && f.windows[f.inflight[x]].conversation == x
      ensures !f.windows[f.inflight[x]].phase.Gone?
    {
      assert f.inflight[x] == s.inflight[x] != t;
    }
  }

  lemma CallbackSlots(s: Service, t: nat)
    requires SlotsOk(s) && t < |s.windows| && s.windows[t].phase.Finished?
    ensures SlotsOk(WindowDone(s, t))
  {
    FreedOk(s, t);
    EnsureAllOk(Freed(s, t), s.pending);
  }

  lemma MergeOverSlots(s: Service, t: nat, lookup: Lookup)
    requires SlotsOk(s) && t < |s.windows| && Active(s.windows[t])
    ensures SlotsOk(MergeOver(s, t, lookup))
  {
    if MergeOver(s, t, lookup) == TakeBatch(s, t, lookup) {
      TakeBatchSlots(s, t, lookup);
    } else {
      WindowMoved(s, MergeOver(s, t, lookup), t);
    }
  }

  lemma StepSlots(s: Service, e: Event)
    requires SlotsOk(s) && Enabled(s, e)
    ensures SlotsOk(Apply(s, e))
  {
    hide Schedule, Rearm, WindowDone, MergeOver, TakeBatch, SendEnds, DistinctPending, WindowsOk, Served;
    match e
    case ChildSettled(_) => SameSlots(s, Apply(s, e));
    case ScheduleCalled(child, conversation) => ScheduleSlots(s, child, conversation);
    case RearmCalled => RearmSlots(s, s.rows);
    case TimePasses(_) => SameSlots(s, Apply(s, e));
    case MergeElapsed(t, lookup) => MergeOverSlots(s, t, lookup);
    case ThrottleElapsed(t, lookup) => TakeBatchSlots(s, t, lookup);
    case SendReturned(t, result) => SendEndsSlots(s, t, result);
    case CallbackRuns(t) => CallbackSlots(s, t);
    case SupervisorCloses => SameSlots(s, Apply(s, e));
    case ShutdownBegins => SameSlots(s, Apply(s, e));
    case WindowCancelled(t) => CancelledSlots(s, t);
    case ShutdownEnds => ShutdownSlots(s);
  }

  lemma SameSlots(s: Service, s': Service)
    requires SlotsOk(s) && s'.pending == s.pending && s'.inflight == s.inflight && s'.windows == s.windows
    requires s'.cap == s.cap
    requires s.closed ==> s'.closed
    requires s'.Open() ==> s.Open()
    ensures SlotsOk(s')
  {
    hide DistinctPending;
  }

  lemma SendEndsSlots(s: Service, t: nat, result: SendResult)
    requires SlotsOk(s) && t < |s.windows| && s.windows[t].phase.Sending?
    ensures SlotsOk(SendEnds(s, t, result))
  {
    hide DistinctPending, WindowsOk, Served;
    WindowMoved(s, SendEnds(s, t, result), t);
  }

  lemma CancelledSlots(s: Service, t: nat)
    requires SlotsOk(s) && t < |s.windows| && Active(s.windows[t])
    ensures SlotsOk(SetPhase(s, t, Finished))
  {
    hide DistinctPending, WindowsOk, Served;
    WindowMoved(s, SetPhase(s, t, Finished), t);
  }

  lemma ShutdownSlots(s: Service)
    requires SlotsOk(s) && s.closed && forall w :: w in s.windows ==> !Active(w)
    ensures SlotsOk(s.(inflight := map[], pending := []))
  {
    assert forall t :: 0 <= t < |s.windows| ==> s.windows[t] in s.windows;
  }

  lemma InitSlots(s: Service)
    requires Init(s)
    ensures SlotsOk(s)
  {
  }

  lemma {:induction false} RunSlots(run: seq<Service>, i: nat)
    requires IsRun(run) && i < |run|
    ensures SlotsOk(run[i])
  {
    if i == 0 {
      InitSlots(run[0]);
    } else {
      RunSlots(run, i - 1);
      assert Step(run[i - 1], run[i - 1 + 1]);
      var e :| Enabled(run[i - 1], e) && run[i] == Apply(run[i - 1], e);
      StepSlots(run[i - 1], e);
    }
  }

  // ----- what it means -------------------------------------------------------------------

  /** In every reachable state: no conversation has two live windows, there are at most `cap`
      registered windows, and while the service is open every pending conversation has a window or
      all slots are taken. */
  lemma OneWindowPerConversation(run: seq<Service>, i: nat, a: nat, b: nat)
    requires IsRun(run) && i < |run| && a < |run[i].windows| && b < |run[i].windows|
    requires Active(run[i].windows[a]) && Active(run[i].windows[b])
    requires run[i].windows[a].conversation == run[i].windows[b].conversation
    ensures a == b
  {
    RunSlots(run, i);
  }

  lemma SlotsNeverExceeded(run: seq<Service>, i: nat)
    requires IsRun(run) && i < |run|
    ensures |run[i].inflight| <= run[i].cap
    ensures |LiveWindows(run[i])| <= run[i].cap
    ensures run[i].Open() ==>
              forall p :: p in run[i].pending ==> p.conversation in run[i].inflight || |run[i].inflight| == run[i].cap
  {
    RunSlots(run, i);
    LiveWindowsBounded(run[i]);
  }

  ghost function LiveWindows(s: Service): set<nat> {
    set t | 0 <= t < |s.windows| && Active(s.windows[t])
  }

  lemma LiveWindowsBounded(s: Service)
    requires WindowsOk(s)
    ensures |LiveWindows(s)| <= |s.inflight|
  {
    InjectionSize(LiveWindows(s), s.inflight.Keys, t requires 0 <= t < |s.windows| => s.windows[t].conversation);
  }

  lemma {:induction false} InjectionSize(a: set<nat>, b: set<string>, f: nat --> string)
    requires forall x :: x in a ==> f.requires(x) && f(x) in b
    requires forall x, y :: x in a && y in a && x != y ==> f(x) != f(y)
    ensures |a| <= |b|
  {
    if a != {} {
      var x :| x in a;
      InjectionSize(a - {x}, b - {f(x)}, f);
    }
  }

  // ----- bounded waiting -----------------------------------------------------------------

  /** Pending, and without a window. */
  predicate Waiting(s: Service, c: string) {
    IsPending(s.pending, c) && c !in s.inflight
  }

  /** How many of the listed conversations have no window. */
  function Windowless(pending: seq<Pending>, inflight: map<string, nat>): nat {
    if pending == [] then 0
    else (if pending[0].conversation in inflight then 0 else 1) + Windowless(pending[1..], inflight)
  }

  /** Conversations ahead of `c` that have no window. */
  function Ahead(s: Service, c: string): nat {
    Windowless(s.pending[..FindPending(s.pending, c)], s.inflight)
  }

  /** How many of the listed conversations have a window that took its batch before they came back. */
  function Rearmed(pending: seq<Pending>, s: Service): nat {
    if pending == [] then 0
    else (if TookBatch(s, pending[0].conversation) then 1 else 0) + Rearmed(pending[1..], s)
  }

  predicate TookBatch(s: Service, c: string) {
    c in s.inflight && s.inflight[c] < |s.windows|
    && (s.windows[s.inflight[c]].phase.Sending? || s.windows[s.inflight[c]].phase.Finished?)
  }

  /** What `c` still has to wait for: everybody ahead without a window, and everybody ahead whose
      current window cannot serve them any more. */
  function Distance(s: Service, c: string): nat {
    Ahead(s, c) + Rearmed(s.pending[..FindPending(s.pending, c)], s)
  }

  lemma {:induction false} EnsureAllFull(s: Service, list: seq<Pending>)
    requires |s.inflight| >= s.cap
    ensures EnsureAll(s, list) == s
    decreases |list|
  {
    if list != [] {
      EnsureAllFull(s, list[1..]);
    }
  }

  lemma StartsLast(s: Service, c: string)
    requires s.Open() && |s.inflight| == s.cap - 1 && c !in s.inflight
    ensures EnsureWindow(s, c) == StartWindow(s, c) && StartWindow(s, c).cap == s.cap == |StartWindow(s, c).inflight|
  {
    OneMoreKey(s.inflight, c, |s.windows|);
  }

  /** Index of the first listed conversation without a window. */
  function FirstWindowless(list: seq<Pending>, inflight: map<string, nat>): (k: nat)
    ensures k <= |list|
    ensures k < |list| ==> list[k].conversation !in inflight
    ensures forall i :: 0 <= i < k ==> list[i].conversation in inflight
  {
    if list == [] || list[0].conversation !in inflight then 0 else 1 + FirstWindowless(list[1..], inflight)
  }

  /** With one free slot, exactly the first conversation without a window gets one. */
  lemma {:induction false} EnsureAllOne(s: Service, list: seq<Pending>)
    requires s.Open() && |s.inflight| == s.cap - 1
    ensures var k := FirstWindowless(list, s.inflight);
            EnsureAll(s, list) == if k < |list| then StartWindow(s, list[k].conversation) else s
    decreases |list|
  {
    if list != [] {
      var c := list[0].conversation;
      if c in s.inflight {
        assert EnsureWindow(s, c) == s;
        EnsureAllOne(s, list[1..]);
      } else {
        StartsLast(s, c);
        hide StartWindow, EnsureWindow;
        EnsureAllFull(StartWindow(s, c), list[1..]);
      }
    }
  }

  predicate Names(list: seq<Pending>, c: string) {
    exists i :: 0 <= i < |list| && list[i].conversation == c
  }

  /** The count changes by one for one conversation whose registration changes. */
  lemma {:induction false} WindowlessChange(list: seq<Pending>, a: map<string, nat>, b: map<string, nat>, c: string)
    requires DistinctPending(list) && c in a && c !in b
    requires forall x :: x != c ==> (x in a <==> x in b)
    ensures Windowless(list, b) == Windowless(list, a) + (if Names(list, c) then 1 else 0)
  {
    if list != [] {
      WindowlessChange(list[1..], a, b, c);
      assert Names(list, c) <==> list[0].conversation == c || Names(list[1..], c) by { NamesCons(list, c); }
      assert list[0].conversation == c ==> !Names(list[1..], c);
    }
  }

  lemma NamesCons(list: seq<Pending>, c: string)
    requires list != []
    ensures Names(list, c) <==> list[0].conversation == c || Names(list[1..], c)
  {
    if Names(list[1..], c) {
      var i :| 0 <= i < |list| - 1 && list[1..][i].conversation == c;
      assert list[i + 1].conversation == c;
    }
  }

  lemma {:induction false} RearmedChange(list: seq<Pending>, s: Service, s': Service, c: string)
    requires DistinctPending(list) && TookBatch(s, c) && !TookBatch(s', c)
    requires forall x :: x != c ==> (TookBatch(s, x) <==> TookBatch(s', x))
    ensures Rearmed(list, s) == Rearmed(list, s') + (if Names(list, c) then 1 else 0)
  {
    if list != [] {
      RearmedChange(list[1..], s, s', c);
      assert Names(list, c) <==> list[0].conversation == c || Names(list[1..], c) by { NamesCons(list, c); }
      assert list[0].conversation == c ==> !Names(list[1..], c);
    }
  }

  /** When a window ends while `q` keeps waiting, exactly one conversation ahead of `q` gets the slot:
      the distance of `q` falls by one. The plain count of window-less conversations ahead falls if and
      only if the conversation whose window ended is not itself pending ahead of `q`. */
  lemma CompletionAdvances(s: Service, t: nat, q: string)
    requires SlotsOk(s) && s.Open() && t < |s.windows| && s.windows[t].phase.Finished?
    requires Waiting(s, q) && Waiting(WindowDone(s, t), q)
    ensures var s' := WindowDone(s, t);
            var ahead := s.pending[..FindPending(s.pending, q)];
            && Distance(s', q) == Distance(s, q) - 1
            && (Ahead(s', q) < Ahead(s, q) <==> !Names(ahead, s.windows[t].conversation))
  {
    var x := s.windows[t].conversation;
    var ahead := s.pending[..FindPending(s.pending, q)];
    var f := Freed(s, t);
    var y := Promoted(s, t, q);
    var s' := WindowDone(s, t);
    hide WindowsOk, WindowDone;
    WindowlessChange(ahead, s.inflight, f.inflight, x);
    WindowlessChange(ahead, s'.inflight, f.inflight, y);
    RearmedChange(ahead, s, s', x);
  }

  /** The conversation that gets the freed slot is ahead of every conversation that goes on waiting. */
  lemma Promoted(s: Service, t: nat, q: string) returns (y: string)
    requires SlotsOk(s) && s.Open() && t < |s.windows| && s.windows[t].phase.Finished?
    requires Waiting(s, q) && Waiting(WindowDone(s, t), q)
    ensures WindowDone(s, t) == StartWindow(Freed(s, t), y)
    ensures Names(s.pending[..FindPending(s.pending, q)], y)
    ensures y !in Freed(s, t).inflight && s.windows[t].conversation in s.inflight
    ensures TookBatch(s, s.windows[t].conversation)
    ensures forall c :: c != s.windows[t].conversation ==> (TookBatch(s, c) <==> TookBatch(WindowDone(s, t), c))
  {
    var at := FindPending(s.pending, q);
    var f := Freed(s, t);
    assert s.pending[at] in s.pending;
    FreedOk(s, t);
    EnsureAllOne(f, s.pending);
    var k := FirstWindowless(s.pending, f.inflight);
    y := s.pending[k].conversation;
    assert s.pending[..at][k].conversation == y;
    StartedOthers(s, t, y);
    hide EnsureAll, StartWindow, TookBatch;
  }

  lemma StartedOthers(s: Service, t: nat, y: string)
    requires WindowsOk(s) && s.Open() && t < |s.windows| && s.windows[t].phase.Finished? && y !in Freed(s, t).inflight
    ensures var s' := StartWindow(Freed(s, t), y);
            forall c :: c != s.windows[t].conversation ==> (TookBatch(s, c) <==> TookBatch(s', c))
  {
    var s' := StartWindow(Freed(s, t), y);
    forall c | c != s.windows[t].conversation ensures TookBatch(s, c) <==> TookBatch(s', c) {
      if c in s.inflight {
        assert s.inflight[c] != t;
      }
    }
  }

  lemma {:induction false} CountsAdd(a: seq<Pending>, b: seq<Pending>, s: Service)
    ensures Windowless(a + b, s.inflight) == Windowless(a, s.inflight) + Windowless(b, s.inflight)
    ensures Rearmed(a + b, s) == Rearmed(a, s) + Rearmed(b, s)
  {
    if a == [] {
      assert a + b == b;
    } else {
      CountsAdd(a[1..], b, s);
      assert (a + b)[1..] == a[1..] + b;
    }
  }

  /** The counts depend on the listed names, on who has a window, and on who took a batch. */
  lemma {:induction false} CountsSame(a: seq<Pending>, b: seq<Pending>, s: Service, s': Service)
    requires |a| == |b| && forall i :: 0 <= i < |a| ==> a[i].conversation == b[i].conversation
    requires forall i :: 0 <= i < |a| ==>
               && (a[i].conversation in s.inflight <==> a[i].conversation in s'.inflight)
               && (TookBatch(s, a[i].conversation) <==> TookBatch(s', a[i].conversation))
    ensures Windowless(a, s.inflight) == Windowless(b, s'.inflight) && Rearmed(a, s) == Rearmed(b, s')
  {
    if a != [] {
      CountsSame(a[1..], b[1..], s, s');
    }
  }

  /** Scheduling keeps every pending conversation at its place. */
  lemma ScheduleKeepsPlace(s: Service, child: string, conversation: string, q: string)
    requires SlotsOk(s) && s.Open() && Waiting(s, q)
    ensures var s' := Schedule(s, child, conversation);
            && Waiting(s', q) && s'.Open() && Distance(s', q) == Distance(s, q)
  {
    hide WindowsOk, Windowless, Rearmed;
    var s' := Schedule(s, child, conversation);
    var at := FindPending(s.pending, q);
    AllSlotsTaken(s, q);
    assert s'.inflight == s.inflight && s'.windows == s.windows;
    assert s' != s ==> FindPending(s'.pending, q) == at by {
      assert forall k :: 0 <= k < |s.pending| ==> s'.pending[k].conversation == s.pending[k].conversation;
    }
    CountsSame(s.pending[..at], s'.pending[..at], s, s');
  }

  lemma AllSlotsTaken(s: Service, q: string)
    requires SlotsOk(s) && s.Open() && Waiting(s, q)
    ensures |s.inflight| >= s.cap
  {
    assert s.pending[FindPending(s.pending, q)] in s.pending;
  }

  lemma {:induction false} RearmKeepsPlace(s: Service, rows: seq<Row>, q: string)
    requires SlotsOk(s) && s.Open() && Waiting(s, q)
    ensures var s' := Rearm(s, rows); Waiting(s', q) && Distance(s', q) == Distance(s, q)
    decreases |rows|
  {
    if rows != [] {
      ScheduleKeepsPlace(s, rows[0].id, rows[0].conversation, q);
      ScheduleSlots(s, rows[0].id, rows[0].conversation);
      RearmKeepsPlace(if rows[0].reported then s else Schedule(s, rows[0].id, rows[0].conversation), rows[1..], q);
    }
  }

  /** Dropping an entry whose window is about to take its batch changes neither count. */
  lemma CountsPopped(list: seq<Pending>, i: nat, s: Service, s': Service)
    requires i < |list| && DistinctPending(list) && s'.inflight == s.inflight
    requires list[i].conversation in s.inflight && !TookBatch(s, list[i].conversation)
    requires forall c :: c != list[i].conversation ==> (TookBatch(s, c) <==> TookBatch(s', c))
    ensures Windowless(list[..i] + list[i + 1..], s'.inflight) == Windowless(list, s.inflight)
    ensures Rearmed(list[..i] + list[i + 1..], s') == Rearmed(list, s)
  {
    var a, x, b := list[..i], [list[i]], list[i + 1..];
    assert list == a + x + b;
    CountsAdd(a + x, b, s);
    CountsAdd(a, x, s);
    CountsAdd(a, b, s);
    CountsSame(a + b, a + b, s, s');
  }

  /** Where a conversation stands once another entry is popped. */
  lemma Popped(pending: seq<Pending>, x: string, q: string)
    requires x != q && IsPending(pending, q)
    ensures var i, at, popped := FindPending(pending, x), FindPending(pending, q), PopPending(pending, x);
            if i < at then
              FindPending(popped, q) == at - 1 && popped[..at - 1] == pending[..at][..i] + pending[..at][i + 1..]
            else
              FindPending(popped, q) == at && popped[..at] == pending[..at]
  {
    var i, at := FindPending(pending, x), FindPending(pending, q);
    if i < at {
      PoppedAhead(pending, i, at, q);
    } else if i < |pending| {
      PoppedBehind(pending, i, at, q);
    }
  }

  lemma PoppedAhead(pending: seq<Pending>, i: nat, at: nat, q: string)
    requires i < at < |pending| && pending[at].conversation == q
    requires forall k :: 0 <= k < at ==> pending[k].conversation != q
    ensures var popped := pending[..i] + pending[i + 1..];
            FindPending(popped, q) == at - 1 && popped[..at - 1] == pending[..at][..i] + pending[..at][i + 1..]
  {
    hide FindPending;
    var popped := pending[..i] + pending[i + 1..];
    assert forall k :: 0 <= k < at ==> popped[k] == pending[if k < i then k else k + 1];
    FoundAt(popped, at - 1, q);
  }

  lemma PoppedBehind(pending: seq<Pending>, i: nat, at: nat, q: string)
    requires at < i < |pending| && pending[at].conversation == q
    requires forall k :: 0 <= k < at ==> pending[k].conversation != q
    ensures var popped := pending[..i] + pending[i + 1..];
            FindPending(popped, q) == at && popped[..at] == pending[..at]
  {
    hide FindPending;
    var popped := pending[..i] + pending[i + 1..];
    assert forall k :: 0 <= k <= at ==> popped[k] == pending[k];
    FoundAt(popped, at, q);
  }

  lemma DistinctPrefix(pending: seq<Pending>, n: nat)
    requires DistinctPending(pending) && n <= |pending|
    ensures DistinctPending(pending[..n])
  {
  }

  lemma PoppedCounts(s: Service, s': Service, x: string, q: string)
    requires DistinctPending(s.pending) && x != q && IsPending(s.pending, q)
    requires s'.pending == PopPending(s.pending, x) && s'.inflight == s.inflight
    requires x in s.inflight && !TookBatch(s, x)
    requires forall c :: c != x ==> (TookBatch(s, c) <==> TookBatch(s', c))
    ensures Distance(s', q) == Distance(s, q)
  {
    hide TookBatch, PopPending, Windowless, Rearmed, DistinctPending;
    var i, at := FindPending(s.pending, x), FindPending(s.pending, q);
    var ahead := s.pending[..at];
    Popped(s.pending, x, q);
    DistinctPrefix(s.pending, at);
    if i < at {
      CountsPopped(ahead, i, s, s');
    } else {
      CountsSame(ahead, ahead, s, s');
    }
  }

  lemma TakeBatchKeepsPlace(s: Service, t: nat, lookup: Lookup, q: string)
    requires SlotsOk(s) && t < |s.windows| && (s.windows[t].phase.Merging? || s.windows[t].phase.Throttled?)
    requires Waiting(s, q) && Waiting(TakeBatch(s, t, lookup), q)
    ensures Distance(TakeBatch(s, t, lookup), q) == Distance(s, q)
  {
    TakeBatchFrame(s, t, lookup);
    PoppedCounts(s, TakeBatch(s, t, lookup), s.windows[t].conversation, q);
  }

  lemma TakeBatchFrame(s: Service, t: nat, lookup: Lookup)
    requires WindowsOk(s) && t < |s.windows| && (s.windows[t].phase.Merging? || s.windows[t].phase.Throttled?)
    ensures var s' := TakeBatch(s, t, lookup);
            && s'.pending == PopPending(s.pending, s.windows[t].conversation) && s'.inflight == s.inflight
            && (forall c :: c != s.windows[t].conversation ==> (TookBatch(s, c) <==> TookBatch(s', c)))
    ensures !TookBatch(s, s.windows[t].conversation)
    ensures s.windows[t].conversation in s.inflight
  {
    hide PopPending, Unreported;
    var conversation := s.windows[t].conversation;
    var s' := TakeBatch(s, t, lookup);
    assert Active(s.windows[t]) && conversation in s.inflight && s.inflight[conversation] == t;
    forall c | c != conversation ensures TookBatch(s, c) <==> TookBatch(s', c) {
      if c in s.inflight {
        assert s.inflight[c] != t;
      }
    }
  }

  lemma FoundAt(pending: seq<Pending>, at: nat, q: string)
    requires at < |pending| && pending[at].conversation == q
    requires forall k :: 0 <= k < at ==> pending[k].conversation != q
    ensures FindPending(pending, q) == at
  {
  }

  /** No step makes a waiting conversation wait longer, and every window that ends brings it closer. */
  lemma WaitingNeverSlips(s: Service, e: Event, q: string)
    requires SlotsOk(s) && Enabled(s, e) && s.Open() && Apply(s, e).Open()
    requires Waiting(s, q) && Waiting(Apply(s, e), q)
    ensures Distance(Apply(s, e), q) == Distance(s, q) - (if e.CallbackRuns? then 1 else 0)
  {
    var s' := Apply(s, e);
    hide SlotsOk, Distance, WindowDone, Schedule, Rearm, TakeBatch;
    match e
    case ScheduleCalled(child, conversation) => ScheduleKeepsPlace(s, child, conversation, q);
    case RearmCalled => RearmKeepsPlace(s, s.rows, q);
    case CallbackRuns(t) => CompletionAdvances(s, t, q);
    case ThrottleElapsed(t, lookup) => TakeBatchKeepsPlace(s, t, lookup, q);
    case MergeElapsed(t, lookup) =>
      if s' == TakeBatch(s, t, lookup) {
        TakeBatchKeepsPlace(s, t, lookup, q);
      } else {
        PhaseKeepsPlace(s, s', t, q);
      }
    case SendReturned(t, result) => PhaseKeepsPlace(s, s', t, q);
    case _ => QuietKeepsPlace(s, s', q);
  }

  lemma QuietKeepsPlace(s: Service, s': Service, q: string)
    requires s'.pending == s.pending && s'.inflight == s.inflight && s'.windows == s.windows
    ensures Distance(s', q) == Distance(s, q)
  {
    var ahead := s.pending[..FindPending(s.pending, q)];
    hide FindPending;
    CountsSame(ahead, ahead, s, s');
  }

  /** A window that changes its phase without taking a batch. */
  lemma PhaseKeepsPlace(s: Service, s': Service, t: nat, q: string)
    requires s'.pending == s.pending && s'.inflight == s.inflight && t < |s.windows| == |s'.windows|
    requires s'.windows == s.windows[t := s.windows[t].(phase := s'.windows[t].phase)]
    requires (s.windows[t].phase.Sending? && s'.windows[t].phase.Finished?)
             || (s.windows[t].phase.Merging? && s'.windows[t].phase.Throttled?)
    ensures Distance(s', q) == Distance(s, q)
  {
    var ahead := s.pending[..FindPending(s.pending, q)];
    assert forall c :: TookBatch(s, c) <==> TookBatch(s', c);
    hide FindPending, TookBatch;
    CountsSame(ahead, ahead, s, s');
  }

  /** Nobody waits for more window completions than there were conversations pending ahead. */
  lemma {:induction false} DistanceAtMostPlace(list: seq<Pending>, s: Service)
    ensures Windowless(list, s.inflight) + Rearmed(list, s) <= |list|
  {
    if list != [] {
      DistanceAtMostPlace(list[1..], s);
    }
  }

  /** The events between the states of a run. */
  ghost predicate IsTrace(run: seq<Service>, events: seq<Event>) {
    && |run| == |events| + 1
    && forall i :: 0 <= i < |events| ==> Enabled(run[i], events[i]) && run[i + 1] == Apply(run[i], events[i])
  }

  function Completions(events: seq<Event>): nat {
    if events == [] then 0 else Completions(events[1..]) + if events[0].CallbackRuns? then 1 else 0
  }

  /** Bounded waiting: over any stretch in which `q` keeps waiting, fewer windows end than there were
      conversations pending ahead of `q` at its start, plus one. */
  lemma {:induction false} WaitIsBounded(run: seq<Service>, events: seq<Event>, q: string)
    requires IsTrace(run, events) && SlotsOk(run[0])
    requires forall i :: 0 <= i < |run| ==> run[i].Open() && Waiting(run[i], q)
    ensures Completions(events) <= Distance(run[0], q) <= FindPending(run[0].pending, q)
    decreases |events|
  {
    DistanceAtMostPlace(run[0].pending[..FindPending(run[0].pending, q)], run[0]);
    if events != [] {
      hide SlotsOk;
      assert Enabled(run[0], events[0]) && run[0 + 1] == Apply(run[0], events[0]);
      WaitingNeverSlips(run[0], events[0], q);
      StepSlots(run[0], events[0]);
      forall i | 0 <= i < |events| - 1
        ensures Enabled(run[1..][i], events[1..][i]) && run[1..][i + 1] == Apply(run[1..][i], events[1..][i])
      {
        assert Enabled(run[i + 1], events[i + 1]) && run[i + 2] == Apply(run[i + 1], events[i + 1]);
      }
      WaitIsBounded(run[1..], events[1..], q);
    }
  }

  // ----- a run in which the plain count stays --------------------------------------------

  /** One slot, no throttle. Child "x" of conversation "a" is scheduled; its window merges, takes its batch
      and sends. Meanwhile "y" of the same conversation and then "z" of conversation "b" settle and are
      scheduled. The send fails. */
  function Comeback(): seq<Event> {
    [ScheduleCalled("x", "a"), TimePasses(2.0), MergeElapsed(0, Deliverable),
     ChildSettled(Row("y", "a", false)), ScheduleCalled("y", "a"),
     ChildSettled(Row("z", "b", false)), ScheduleCalled("z", "b"),
     SendReturned(0, NotDelivered)]
  }

  /** The store holds "x", settled before. */
  function Opening(): Service {
    Service(true, false, true, 1, 2.0, 0.0, 0.0, [Row("x", "a", false)], [], map[], [], map[], [], [])
  }

  /** The states of that run: before, after each event. */
  function ComebackRun(): seq<Service> {
    var s0 := Opening();
    var rows2 := s0.rows + [Row("y", "a", false)];
    var rows3 := rows2 + [Row("z", "b", false)];
    var windows := (phase: Phase) => [Window("a", phase)];
    var s1 := s0.(pending := [Pending("a", {"x"})], inflight := map["a" := 0], windows := windows(Merging(2.0)),
                  log := [Scheduled("a", "x")]);
    var s2 := s1.(now := 2.0);
    var s3 := s2.(pending := [], windows := windows(Sending(["x"])), log := s2.log + [Queried("a")]);
    var s4 := s3.(rows := rows2);
    var s5 := s4.(pending := [Pending("a", {"y"})], log := s4.log + [Scheduled("a", "y")]);
    var s6 := s5.(rows := rows3);
    var s7 := s6.(pending := [Pending("a", {"y"}), Pending("b", {"z"})], log := s6.log + [Scheduled("b", "z")]);
    [s0, s1, s2, s3, s4, s5, s6, s7, s7.(windows := windows(Finished))]
  }

  lemma ComebackOpens()
    ensures Init(Opening())
    ensures var run, e := ComebackRun(), Comeback(); Enabled(run[0], e[0]) && run[1] == Apply(run[0], e[0])
    ensures var run, e := ComebackRun(), Comeback(); Enabled(run[1], e[1]) && run[2] == Apply(run[1], e[1])
  {
  }

  lemma ComebackTakesBatch()
    ensures var run, e := ComebackRun(), Comeback(); Enabled(run[2], e[2]) && run[3] == Apply(run[2], e[2])
  {
    var s := ComebackRun()[2];
    assert s.rows[1..] == [];
    assert Unreported(s.rows, "a") == ["x"];
    assert PopPending(s.pending, "a") == [];
  }

  lemma ComebackSchedulesAgain()
    ensures var run, e := ComebackRun(), Comeback(); Enabled(run[3], e[3]) && run[4] == Apply(run[3], e[3])
    ensures var run, e := ComebackRun(), Comeback(); Enabled(run[4], e[4]) && run[5] == Apply(run[4], e[4])
  {
  }

  lemma ComebackSchedulesOther()
    ensures var run, e := ComebackRun(), Comeback(); Enabled(run[5], e[5]) && run[6] == Apply(run[5], e[5])
    ensures var run, e := ComebackRun(), Comeback(); Enabled(run[6], e[6]) && run[7] == Apply(run[6], e[6])
  {
    var s := ComebackRun()[6];
    FoundNowhere(s.pending, "b");
  }

  lemma FoundNowhere(pending: seq<Pending>, q: string)
    requires forall k :: 0 <= k < |pending| ==> pending[k].conversation != q
    ensures FindPending(pending, q) == |pending|
  {
  }

  lemma ComebackSendFails()
    ensures var run, e := ComebackRun(), Comeback(); Enabled(run[7], e[7]) && run[8] == Apply(run[7], e[7])
  {
  }

  /** That is a run of the service. */
  lemma ComebackIsARun()
    ensures IsRun(ComebackRun()) && IsTrace(ComebackRun(), Comeback())
  {
    var run, e := ComebackRun(), Comeback();
    ComebackOpens();
    ComebackTakesBatch();
    ComebackSchedulesAgain();
    ComebackSchedulesOther();
    ComebackSendFails();
    hide ComebackRun, Comeback, Enabled, Apply, Init, Opening;
    assert |run| == 9 && |e| == 8 && run[0] == Opening() by { ComebackSize(); }
    forall i | 0 <= i < 8 ensures Enabled(run[i], e[i]) && run[i + 1] == Apply(run[i], e[i]) {
    }
    forall i | 0 <= i < |run| - 1 ensures Step(run[i], run[i + 1]) {
      assert Enabled(run[i], e[i]) && run[i + 1] == Apply(run[i], e[i]);
    }
  }

  lemma ComebackSize()
    ensures |ComebackRun()| == 9 && |Comeback()| == 8 && ComebackRun()[0] == Opening()
  {
  }

  /** The count of window-less conversations ahead need not fall when a window ends: at the end of that run
      the window of "a" has finished while "a" is pending again ahead of "b"; when it ends, "a" gets the
      slot back, and nobody ahead of "b" was window-less before or is after. */
  lemma AheadMayStay()
    ensures IsRun(ComebackRun())
    ensures var s := ComebackRun()[8];
            && s.Open() && s.windows[0].phase.Finished?
            && Waiting(s, "b") && Waiting(WindowDone(s, 0), "b")
            && Ahead(WindowDone(s, 0), "b") == Ahead(s, "b") == 0
  {
    ComebackIsARun();
    var s := ComebackRun()[8];
    assert s.pending == [Pending("a", {"y"}), Pending("b", {"z"})] && s.inflight == map["a" := 0] && s.cap == 1;
    hide IsRun, ComebackRun;
    FoundAt(s.pending, 1, "b");
    assert s.pending[..1] == [Pending("a", {"y"})];
    var f := Freed(s, 0);
    assert f.inflight == map[];
    EnsureAllOne(f, s.pending);
    assert FirstWindowless(s.pending, f.inflight) == 0;
    hide FindPending, EnsureAll, FirstWindowless;
    var s' := WindowDone(s, 0);
    assert s' == StartWindow(f, "a") && s'.pending == s.pending;
    OneWindowless(s.pending[..1], s.inflight);
    OneWindowless(s.pending[..1], s'.inflight);
  }

  lemma OneWindowless(list: seq<Pending>, inflight: map<string, nat>)
    requires |list| == 1 && list[0].conversation in inflight
    ensures Windowless(list, inflight) == 0
  {
    assert Windowless(list[1..], inflight) == 0;
  }
}
