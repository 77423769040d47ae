/** A run that ends with a settled child nobody can query: it was cancelled while it waited for its
    admission, so its row has no summary. */
module DelegationUnanswered {
  import opened Wrappers
  import opened Semaphores
  import opened Delegation

  const PARENT := Root("run")
  const FIRST := Child(PARENT, "call-1")
  const SECOND := Child(PARENT, "call-2")

  /** Room for one child at a time. The first child enters the kernel; the second one queues, is cancelled,
      and leaves. */
  function Events(): seq<Event> {
    [SpawnCall(PARENT, "talk", "call-1"), ResumeTask(FIRST, 0, NO_USAGE),
     SpawnCall(PARENT, "talk", "call-2"), ResumeTask(SECOND, 1, NO_USAGE),
     CancelCalled(0, SECOND), CancelReply(0, Disowned), ResumeTask(SECOND, 2, NO_USAGE), CancelWoken(0, NO_USAGE)]
  }

  function Reserved(call: string): Row {
    Row(PARENT, call, "talk", 1, Running, None, None, None, None, NO_USAGE)
  }

  function Built(): Coordinator {
    Coordinator(PARENT, "talk", 0, [], [], {}, {}, New(1), New(1))
  }

  function Worlds(): seq<World> {
    var busy := Semaphore(1, 0, {FIRST}, []);
    var c1 := Built().(spawnKeys := {"call-1"}, childTasks := {FIRST});
    var c2 := c1.(admission := busy, slots := busy);
    var c3 := c2.(spawnKeys := {"call-1", "call-2"}, childTasks := {FIRST, SECOND});
    var c4 := c3.(admission := busy.(queue := [SECOND]));
    var c7 := c3.(childTasks := {FIRST});
    var w0 := World(Limits(1, 1, 2), map[], [], [], map[], false, [], [], []);
    var w1 := w0.(store := map[FIRST := Reserved("call-1")], coordinators := [c1],
                  cache := [CacheEntry(PARENT, 0)], tasks := map[FIRST := Task(0, Fresh, false)]);
    var w2 := w1.(store := map[FIRST := Reserved("call-1").MarkedStarted(0)], coordinators := [c2],
                  tasks := map[FIRST := Task(0, InKernel, false)], kernelLog := [FIRST]);
    var w3 := w2.(store := w2.store[SECOND := Reserved("call-2")], coordinators := [c3],
                  tasks := w2.tasks[SECOND := Task(0, Fresh, false)]);
    var w4 := w3.(coordinators := [c4], tasks := w3.tasks[SECOND := Task(0, AwaitAdmission, false)]);
    var w5 := w4.(calls := [AtKernel(0, SECOND)]);
    var w6 := w5.(coordinators := [c3], tasks := w5.tasks[SECOND := Task(0, AwaitAdmission, true)],
                  calls := [AwaitingTask(0, SECOND)]);
    var w7 := w6.(store := w6.store[SECOND := Reserved("call-2").MarkedCancelled(NO_USAGE)], coordinators := [c7],
                  tasks := w6.tasks[SECOND := Task(0, Done, true)]);
    [w0, w1, w2, w3, w4, w5, w6, w7, w7.(calls := [Ended(0, SECOND, CancelOk, true)])]
  }

  ghost predicate Follows(i: nat)
    requires i < 8
  {
    Enabled(Worlds()[i], Events()[i]) && Worlds()[i + 1] == Apply(Worlds()[i], Events()[i])
  }

  /** Worlds with one coordinator are equal when their parts are. */
  lemma SameWorld(a: World, b: World)
    requires a.store == b.store && a.tasks == b.tasks && a.cache == b.cache && a.calls == b.calls
    requires |a.coordinators| == 1 == |b.coordinators| && a.coordinators[0] == b.coordinators[0]
    requires a.kernelLog == b.kernelLog && a.wakeups == b.wakeups && a.supervisorClosed == b.supervisorClosed
    requires a.limits == b.limits
    ensures a == b
  {
    assert a.coordinators == b.coordinators;
  }

  lemma FirstSpawned()
    ensures Init(Worlds()[0]) && Follows(0)
  {
    var w := Worlds()[0];
    assert Inflight(w.store, PARENT) == {};
  }

  lemma FirstEnters()
    ensures Follows(1)
  {
    var w, next := Worlds()[1], Worlds()[2];
    assert Runnable(w, FIRST);
    var w' := Resume(w, FIRST, 0, NO_USAGE);
    assert w'.coordinators[0].admission == next.coordinators[0].admission
        && w'.coordinators[0].slots == next.coordinators[0].slots;
    assert w'.store == next.store && w'.tasks == next.tasks && w'.kernelLog == next.kernelLog;
    SameWorld(w', next);
  }

  lemma SecondSpawned()
    ensures Follows(2)
  {
    var w, next := Worlds()[2], Worlds()[3];
    assert Inflight(w.store, PARENT) == {FIRST};
    assert Touch(w.cache, PARENT) == w.cache;
    var w' := Spawn(w, PARENT, "talk", "call-2");
    assert w'.coordinators[0].spawnKeys == next.coordinators[0].spawnKeys;
    assert w'.coordinators[0].childTasks == next.coordinators[0].childTasks;
    SameWorld(w', next);
  }

  lemma SecondQueues()
    ensures Follows(3)
  {
    var w, next := Worlds()[3], Worlds()[4];
    assert Runnable(w, SECOND);
    var w' := Resume(w, SECOND, 1, NO_USAGE);
    assert w'.coordinators[0].admission == next.coordinators[0].admission;
    assert w'.store == next.store && w'.tasks == next.tasks;
    SameWorld(w', next);
  }

  lemma SecondAsked()
    ensures Follows(4)
  {
  }

  lemma SecondCancelled()
    ensures Follows(5)
  {
    var w := Worlds()[5];
    assert Without([SECOND], SECOND) == [];
    assert OwnerOf(w, SECOND).admission.Withdraw(SECOND) == Semaphore(1, 0, {FIRST}, []);
  }

  lemma SecondLeaves()
    ensures Follows(6)
  {
    var w, next := Worlds()[6], Worlds()[7];
    assert Runnable(w, SECOND);
    var w' := Resume(w, SECOND, 2, NO_USAGE);
    assert w'.coordinators[0].childTasks == next.coordinators[0].childTasks;
    assert w'.store == next.store && w'.tasks == next.tasks;
    SameWorld(w', next);
  }

  lemma CancelReports()
    ensures Follows(7)
  {
  }

  lemma Sizes()
    ensures |Worlds()| == 9 && |Events()| == 8
  {
  }

  lemma WorldsAreARun()
    ensures IsRun(Worlds())
  {
    hide Worlds, Events, Init, Enabled, Apply;
    Sizes();
    FirstSpawned();
    FirstEnters();
    SecondSpawned();
    SecondQueues();
    SecondAsked();
    SecondCancelled();
    SecondLeaves();
    CancelReports();
    var run := Worlds();
    forall i | 0 <= i < |run| - 1 ensures Step(run[i], run[i + 1]) {
      assert Follows(i);
    }
  }

  /** The state is reached, `cancel` has reported success, the row is settled and passes the ownership
      check, and a query cannot build an outcome from it. */
  lemma UnanswerableIsReached()
    ensures IsRun(Worlds())
    ensures var w := Worlds()[8];
            && Handled(w, SECOND) && w.store[SECOND].state == Cancelled && OwnsRow(w.coordinators[0], w.store[SECOND])
            && w.calls[0] == Ended(0, SECOND, CancelOk, true)
            && Query(w, 0, SECOND) == Unrepresentable
  {
    WorldsAreARun();
  }
}
