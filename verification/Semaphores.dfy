/** The counting semaphore the coordinator queues on: permits are handed to waiters in arrival
    order, and a released permit goes to the first waiter before anybody else can take it. */
module Semaphores {

  /** `holders` are the tasks a permit was handed to, including those not yet resumed. */
  datatype Semaphore<T(==, !new)> = Semaphore(capacity: nat, permits: nat, holders: set<T>, queue: seq<T>) {

    ghost predicate Valid() {
      && permits + |holders| == capacity
      && (queue != [] ==> permits == 0)
      && Distinct(queue)
      && (forall x :: x in queue ==> x !in holders)
    }

    /** Takes a permit at once, or joins the end of the queue. */
    function Acquire(x: T): Semaphore<T> {
      if permits > 0 && queue == [] then this.(permits := permits - 1, holders := holders + {x})
      else this.(queue := queue + [x])
    }

    /** Gives the permit of `x` to the first waiter, or back to the pool. */
    function Release(x: T): Semaphore<T> {
      if queue == [] then this.(permits := permits + 1, holders := holders - {x})
      else this.(holders := holders - {x} + {queue[0]}, queue := queue[1..])
    }

    /** A waiter that is cancelled leaves the queue; everybody else keeps their place. */
    function Withdraw(x: T): Semaphore<T> {
      this.(queue := Without(queue, x))
    }

    /** What a cancelled task does on its way out: return the permit if one was handed to it. */
    function GiveBack(x: T): Semaphore<T> {
      if x in holders then Release(x) else this
    }
  }

  ghost predicate Distinct<T>(s: seq<T>) {
    forall i, j :: 0 <= i < j < |s| ==> s[i] != s[j]
  }

  function New<T(!new)>(capacity: nat): Semaphore<T> {
    Semaphore(capacity, capacity, {}, [])
  }

  function Without<T(==, !new)>(s: seq<T>, x: T): (r: seq<T>)
    ensures x !in r
    ensures forall y :: y in r <==> y in s && y != x
    ensures Distinct(s) ==> Distinct(r)
  {
    if s == [] then [] else
    var rest := Without(s[1..], x);
    assert Distinct(s) ==> Distinct(s[1..]);
    assert Distinct(s) ==> s[0] !in s[1..];
    if s[0] == x then rest else [s[0]] + rest
  }

  /** Permits plus holders stay equal to the capacity through every operation. */
  lemma SemaphoreKept<T(!new)>(s: Semaphore<T>, x: T)
    requires s.Valid()
    ensures x !in s.holders && x !in s.queue ==> s.Acquire(x).Valid()
    ensures x in s.holders ==> s.Release(x).Valid()
    ensures s.Withdraw(x).Valid()
    ensures s.GiveBack(x).Valid()
  {
    if x in s.holders {
      assert |s.holders - {x}| == |s.holders| - 1;
      if s.queue != [] {
        assert s.queue[0] !in s.holders - {x};
        assert |s.holders - {x} + {s.queue[0]}| == |s.holders|;
      }
    }
  }

  /** Giving back lets in at most the first waiter, and leaves `x` outside. */
  lemma GivenBack<T(!new)>(s: Semaphore<T>, x: T)
    requires s.Valid() && x !in s.queue
    ensures s.GiveBack(x).Valid() && s.GiveBack(x).capacity == s.capacity
    ensures forall y :: y in s.GiveBack(x).queue ==> y in s.queue
    ensures forall y :: y in s.GiveBack(x).holders ==> y != x && (y in s.holders || y in s.queue)
  {
    SemaphoreKept(s, x);
    assert s.queue != [] ==> s.queue[0] in s.queue;
  }

  // ----- waiting -------------------------------------------------------------------------

  /** One operation, or a shutdown that sends all waiters away. */
  ghost predicate Moves<T(!new)>(s: Semaphore<T>, s': Semaphore<T>) {
    || s' == s || s' == s.(queue := [])
    || exists x :: s' == s.Acquire(x) || s' == s.Release(x) || s' == s.Withdraw(x)
  }

  /** Who stands in front of `x`. */
  function Ahead<T(==, !new)>(queue: seq<T>, x: T): seq<T> {
    if queue == [] || queue[0] == x then [] else [queue[0]] + Ahead(queue[1..], x)
  }

  /** Somebody else who leaves the queue leaves those ahead in their order. */
  lemma {:induction false} WithoutAhead<T(!new)>(queue: seq<T>, gone: T, x: T)
    requires x in queue && x != gone
    ensures Ahead(Without(queue, gone), x) == Without(Ahead(queue, x), gone)
  {
    if queue[0] != x {
      WithoutAhead(queue[1..], gone, x);
      var rest := Without(queue[1..], gone);
      assert ([queue[0]] + rest)[1..] == rest;
      assert ([queue[0]] + Ahead(queue[1..], x))[1..] == Ahead(queue[1..], x);
    }
  }

  lemma {:induction false} WithoutShorter<T(!new)>(queue: seq<T>, gone: T)
    ensures |Without(queue, gone)| <= |queue|
  {
    if queue != [] {
      WithoutShorter(queue[1..], gone);
    }
  }

  lemma {:induction false} JoinedBehind<T(!new)>(queue: seq<T>, y: T, x: T)
    requires x in queue
    ensures Ahead(queue + [y], x) == Ahead(queue, x)
  {
    if queue[0] != x {
      assert (queue + [y])[1..] == queue[1..] + [y];
      JoinedBehind(queue[1..], y, x);
    }
  }

  /** While `x` waits nobody who queued later is ahead of it or gets a permit; a permit that changes hands
      brings it forward. */
  lemma WaitStep<T(!new)>(s: Semaphore<T>, s': Semaphore<T>, x: T)
    requires s.Valid() && Moves(s, s') && x in s.queue && x in s'.queue
    ensures forall y :: y in Ahead(s'.queue, x) ==> y in Ahead(s.queue, x)
    ensures forall y :: y in s'.holders ==> y in s.holders || y in Ahead(s.queue, x)
    ensures |Ahead(s'.queue, x)| + (if s'.holders <= s.holders then 0 else 1) <= |Ahead(s.queue, x)|
  {
    hide Without, Distinct;
    if s' != s && s' != s.(queue := []) {
      var y :| s' == s.Acquire(y) || s' == s.Release(y) || s' == s.Withdraw(y);
      if s' == s.Withdraw(y) {
        WithoutAhead(s.queue, y, x);
        WithoutShorter(Ahead(s.queue, x), y);
      } else if s' == s.Acquire(y) {
        JoinedBehind(s.queue, y, x);
      } else {
        assert s'.queue == s.queue[1..];
        HeadIsAhead(s, x);
      }
    }
  }

  lemma HeadIsAhead<T(!new)>(s: Semaphore<T>, x: T)
    requires s.Valid() && s.queue != [] && x in s.queue[1..]
    ensures Ahead(s.queue, x) == [s.queue[0]] + Ahead(s.queue[1..], x)
  {
    var k :| 0 <= k < |s.queue| - 1 && s.queue[1..][k] == x;
    assert s.queue[k + 1] == x;
  }
}
