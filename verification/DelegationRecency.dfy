/** The coordinator cache is ordered by last use: position stands for recency. */
module DelegationRecency {
  import opened Wrappers
  import opened Delegation
  import opened DelegationInvariants
  import opened DelegationTheorems

  /** Whose coordinator an event uses: a tool call or a spawn resolves it, a request routed to a child run
      touches it. */
  function UsedBy(e: Event): Option<RunId> {
    match e
    case ToolCall(parent, _) => Some(parent)
    case SpawnCall(parent, _, _) => Some(parent)
    case Routed(parent) => Some(parent)
    case _ => None
  }

  /** When a parent run was last used: one more than the index of the event, zero if it never was. */
  function LastUse(events: seq<Event>, parent: RunId): (n: nat)
    ensures n <= |events|
    ensures n > 0 ==> UsedBy(events[n - 1]) == Some(parent)
    ensures forall k :: n <= k < |events| ==> UsedBy(events[k]) != Some(parent)
  {
    if events == [] then 0
    else if UsedBy(events[|events| - 1]) == Some(parent) then |events|
    else LastUse(events[..|events| - 1], parent)
  }

  /** Entries further back were used later. */
  ghost predicate InUseOrder(cache: seq<CacheEntry>, events: seq<Event>) {
    forall a, b :: 0 <= a < b < |cache| ==> LastUse(events, cache[a].parent) < LastUse(events, cache[b].parent)
  }

  lemma UseOfOthers(events: seq<Event>, e: Event, parent: RunId)
    ensures LastUse(events + [e], parent) == if UsedBy(e) == Some(parent) then |events| + 1 else LastUse(events, parent)
  {
    assert (events + [e])[..|events|] == events;
  }

  /** An event that uses nobody, or only drops entries, keeps the order. */
  lemma OrderKept(cache: seq<CacheEntry>, events: seq<Event>, e: Event)
    requires InUseOrder(cache, events) && forall k :: 0 <= k < |cache| ==> UsedBy(e) != Some(cache[k].parent)
    ensures InUseOrder(cache, events + [e])
  {
    forall a, b | 0 <= a < b < |cache|
      ensures LastUse(events + [e], cache[a].parent) < LastUse(events + [e], cache[b].parent)
    {
      UseOfOthers(events, e, cache[a].parent);
      UseOfOthers(events, e, cache[b].parent);
    }
  }

  /** The entry just used belongs at the end. */
  lemma OrderAppended(cache: seq<CacheEntry>, events: seq<Event>, e: Event, entry: CacheEntry)
    requires InUseOrder(cache, events + [e]) && UsedBy(e) == Some(entry.parent)
    requires forall k :: 0 <= k < |cache| ==> cache[k].parent != entry.parent
    ensures InUseOrder(cache + [entry], events + [e])
  {
    UseOfOthers(events, e, entry.parent);
    forall k | 0 <= k < |cache| ensures LastUse(events + [e], cache[k].parent) < |events| + 1 {
      UseOfOthers(events, e, cache[k].parent);
    }
  }

  lemma Dropped(a: seq<CacheEntry>, x: CacheEntry, b: seq<CacheEntry>, events: seq<Event>)
    requires InUseOrder(a + [x] + b, events)
    ensures InUseOrder(a + b, events)
    ensures forall k :: 0 <= k < |a + b| ==> (a + b)[k].parent != x.parent
  {
    var all := a + [x] + b;
    assert all[|a|] == x;
    assert forall k :: 0 <= k < |a + b| ==> (a + b)[k] == all[if k < |a| then k else k + 1];
  }

  /** Eviction keeps what it keeps in its order. */
  lemma {:induction false} DropIdleOrder(cache: seq<CacheEntry>, store: Store, excess: nat, events: seq<Event>)
    requires InUseOrder(cache, events)
    ensures InUseOrder(DropIdle(cache, store, excess), events)
    ensures forall e :: e in DropIdle(cache, store, excess) ==> e in cache
  {
    if cache != [] && excess > 0 {
      var head, tail := cache[0], cache[1..];
      assert forall k :: 0 <= k < |tail| ==> tail[k] == cache[k + 1];
      hide Inflight;
      if Inflight(store, head.parent) != {} {
        DropIdleOrder(tail, store, excess, events);
        HeadFirst(head, tail, DropIdle(tail, store, excess), events);
      } else {
        DropIdleOrder(tail, store, excess - 1, events);
      }
    }
  }

  lemma HeadFirst(head: CacheEntry, tail: seq<CacheEntry>, kept: seq<CacheEntry>, events: seq<Event>)
    requires forall k :: 0 <= k < |tail| ==> LastUse(events, head.parent) < LastUse(events, tail[k].parent)
    requires InUseOrder(kept, events) && forall e :: e in kept ==> e in tail
    ensures InUseOrder([head] + kept, events)
  {
    forall k | 0 <= k < |kept| ensures LastUse(events, head.parent) < LastUse(events, kept[k].parent) {
      assert kept[k] in tail;
    }
  }

  lemma TouchOrder(cache: seq<CacheEntry>, events: seq<Event>, e: Event, parent: RunId)
    requires InUseOrder(cache, events) && UsedBy(e) == Some(parent)
    ensures InUseOrder(Touch(cache, parent), events + [e])
  {
    var i := Find(cache, parent);
    if i == |cache| {
      OrderKept(cache, events, e);
    } else {
      var a, x, b := cache[..i], cache[i], cache[i + 1..];
      assert cache == a + [x] + b;
      Dropped(a, x, b, events);
      OrderKept(a + b, events, e);
      OrderAppended(a + b, events, e, x);
    }
  }

  lemma LookupOrder(w: World, events: seq<Event>, e: Event, parent: RunId, conversation: string)
    requires InUseOrder(w.cache, events) && UsedBy(e) == Some(parent)
    ensures InUseOrder(Lookup(w, parent, conversation).cache, events + [e])
  {
    hide InUseOrder, Touch, DropIdle;
    if Find(w.cache, parent) < |w.cache| {
      TouchOrder(w.cache, events, e, parent);
    } else {
      var kept := Evict(w.cache, w.store);
      DropIdleOrder(w.cache, w.store, if |w.cache| < MAX_TRACKED_PARENT_RUNS then 0
          else |w.cache| - MAX_TRACKED_PARENT_RUNS + 1, events);
      forall k | 0 <= k < |kept| ensures kept[k].parent != parent {
        assert kept[k] in kept;
      }
      OrderKept(kept, events, e);
      OrderAppended(kept, events, e, CacheEntry(parent, |w.coordinators|));
    }
  }

  /** What each event does to the cache. */
  lemma CacheAfter(w: World, e: Event)
    requires Enabled(w, e)
    ensures var cache := Apply(w, e).cache;
            match e {
              case ToolCall(parent, conversation) => cache == Lookup(w, parent, conversation).cache
              case SpawnCall(parent, conversation, _) => cache == Lookup(w, parent, conversation).cache
              case ToolCallRefused(_) => cache == Evict(w.cache, w.store)
              case Routed(parent) => cache == Touch(w.cache, parent)
              case _ => cache == w.cache
            }
  {
    if e.SpawnCall? {
      SpawnCache(w, e.parent, e.conversation, e.call);
    }
    hide Evict, Touch, Find, Inflight, Start, Lookup, Spawn;
  }

  lemma SpawnCache(w: World, parent: RunId, conversation: string, call: string)
    ensures Spawn(w, parent, conversation, call).cache == Lookup(w, parent, conversation).cache
  {
    hide Evict, Touch, Find, Inflight, Lookup;
  }

  lemma StepOrder(w: World, events: seq<Event>, e: Event)
    requires InUseOrder(w.cache, events) && Enabled(w, e)
    ensures InUseOrder(Apply(w, e).cache, events + [e])
  {
    CacheAfter(w, e);
    hide Apply, Lookup, Touch, Enabled, InUseOrder;
    match e
    case ToolCall(parent, conversation) => LookupOrder(w, events, e, parent, conversation);
    case SpawnCall(parent, conversation, _) => LookupOrder(w, events, e, parent, conversation);
    case Routed(parent) => TouchOrder(w.cache, events, e, parent);
    case ToolCallRefused(_) =>
      DropIdleOrder(w.cache, w.store, if |w.cache| < MAX_TRACKED_PARENT_RUNS then 0
          else |w.cache| - MAX_TRACKED_PARENT_RUNS + 1, events);
      OrderKept(Evict(w.cache, w.store), events, e);
    case _ => OrderKept(w.cache, events, e);
  }

  /** In every reachable state the cache is ordered by last use, oldest first. */
  lemma {:induction false} CacheInUseOrder(run: seq<World>, events: seq<Event>, i: nat)
    requires IsTrace(run, events) && i < |run|
    ensures InUseOrder(run[i].cache, events[..i])
  {
    if i > 0 {
      CacheInUseOrder(run, events, i - 1);
      assert Enabled(run[i - 1], events[i - 1]) && run[i - 1 + 1] == Apply(run[i - 1], events[i - 1]);
      assert events[..i] == events[..i - 1] + [events[i - 1]];
      hide InUseOrder, Enabled, Apply;
      StepOrder(run[i - 1], events[..i - 1], events[i - 1]);
    }
  }

  /** Eviction takes idle entries only, and the one it takes was last used before every idle one it keeps. */
  lemma EvictsLeastRecentlyUsed(run: seq<World>, events: seq<Event>, i: nat, gone: CacheEntry, kept: CacheEntry)
    requires IsTrace(run, events) && i < |run|
    requires gone in run[i].cache && gone !in Evict(run[i].cache, run[i].store)
    requires kept in Evict(run[i].cache, run[i].store)
    ensures Idle(gone, run[i].store)
    ensures Idle(kept, run[i].store) ==> LastUse(events[..i], gone.parent) < LastUse(events[..i], kept.parent)
  {
    assert i <= |events|;
    hide Inv, IsTrace, Evict, Idle, UniqueParents, InUseOrder, LastUse;
    TraceInv(run, events, i);
    CacheUnique(run[i]);
    CacheInUseOrder(run, events, i);
    OldestGoes(run[i].cache, run[i].store, events[..i], gone, kept);
  }

  lemma OldestGoes(cache: seq<CacheEntry>, store: Store, events: seq<Event>, gone: CacheEntry, kept: CacheEntry)
    requires UniqueParents(cache) && InUseOrder(cache, events)
    requires gone in cache && gone !in Evict(cache, store) && kept in Evict(cache, store)
    ensures Idle(gone, store)
    ensures Idle(kept, store) ==> LastUse(events, gone.parent) < LastUse(events, kept.parent)
  {
    hide Idle, UniqueParents, DropIdle;
    DropIdlePolicy(cache, store, if |cache| < MAX_TRACKED_PARENT_RUNS then 0
        else |cache| - MAX_TRACKED_PARENT_RUNS + 1);
    var a :| 0 <= a < |cache| && cache[a] == gone;
    var b :| 0 <= b < |cache| && cache[b] == kept;
  }
}
