/** Which rows the block shows, and what happens to them over repeated runs of the parent. */
module ChildInjection {
  import opened Wrappers
  import opened LineSplitter
  import opened ChildContext

  // ----- one round -----------------------------------------------------------------------

  predicate IsEligible(row: ChildRow) {
    !Terminal(row) || !row.injected
  }

  function Eligible(rows: seq<ChildRow>): (r: seq<ChildRow>)
    ensures |r| <= |rows|
  {
    if rows == [] then []
    else (if IsEligible(rows[0]) then [rows[0]] else []) + Eligible(rows[1..])
  }

  function TerminalIds(rows: seq<ChildRow>): seq<string> {
    if rows == [] then []
    else (if Terminal(rows[0]) then [rows[0].id] else []) + TerminalIds(rows[1..])
  }

  datatype Caps = Caps(maxChildren: int, maxSummary: int, maxTotal: int)

  const DEFAULT_CAPS: Caps := Caps(DEFAULT_MAX_CHILDREN, DEFAULT_MAX_SUMMARY_CHARACTERS, DEFAULT_MAX_TOTAL_CHARACTERS)

  /** At most this many rows may be shown. */
  function RowCap(candidates: seq<ChildRow>, caps: Caps): (n: nat)
    ensures n <= |candidates|
  {
    if caps.maxChildren < 0 then 0 else if caps.maxChildren < |candidates| then caps.maxChildren else |candidates|
  }

  predicate Fits(candidates: seq<ChildRow>, k: nat, now: Option<int>, caps: Caps) {
    k <= |candidates| && |RenderBlock(|candidates|, candidates[..k], now, caps.maxSummary)| <= caps.maxTotal
  }

  /** The first `k` candidates are the longest prefix within both caps. Zero: not even one fits. */
  ghost predicate LongestPrefix(candidates: seq<ChildRow>, k: nat, now: Option<int>, caps: Caps) {
    && k <= |candidates| && (k > 0 ==> k <= caps.maxChildren)
    && (k > 0 ==> |RenderBlock(|candidates|, candidates[..k], now, caps.maxSummary)| <= caps.maxTotal)
    && forall j: nat :: k < j <= |candidates| && j <= caps.maxChildren ==>
         |RenderBlock(|candidates|, candidates[..j], now, caps.maxSummary)| > caps.maxTotal
  }

  function Shown(candidates: seq<ChildRow>, k: nat, now: Option<int>, caps: Caps): (n: nat)
    requires k <= |candidates|
    ensures n <= k
  {
    if k == 0 || Fits(candidates, k, now, caps) then k else Shown(candidates, k - 1, now, caps)
  }

  /** There is exactly one longest prefix. */
  lemma {:induction false} ShownIsLongest(candidates: seq<ChildRow>, n: nat, now: Option<int>, caps: Caps)
    requires n <= RowCap(candidates, caps)
    requires forall j: nat :: n < j <= RowCap(candidates, caps) ==> !Fits(candidates, j, now, caps)
    ensures LongestPrefix(candidates, Shown(candidates, n, now, caps), now, caps)
  {
    hide RenderBlock;
    if n > 0 && !Fits(candidates, n, now, caps) {
      ShownIsLongest(candidates, n - 1, now, caps);
    } else {
      forall j: nat | n < j <= |candidates| && j <= caps.maxChildren
        ensures |RenderBlock(|candidates|, candidates[..j], now, caps.maxSummary)| > caps.maxTotal
      {
        assert !Fits(candidates, j, now, caps);
      }
    }
  }

  lemma LongestIsUnique(candidates: seq<ChildRow>, a: nat, b: nat, now: Option<int>, caps: Caps)
    requires LongestPrefix(candidates, a, now, caps) && LongestPrefix(candidates, b, now, caps)
    ensures a == b
  {
  }

  /** The rows a round shows. */
  function ShownRows(rows: seq<ChildRow>, now: Option<int>, caps: Caps): seq<ChildRow> {
    var candidates := Eligible(rows);
    candidates[..Shown(candidates, RowCap(candidates, caps), now, caps)]
  }

  /** The block and the children to stamp. `kept` shrinks from the end until the block fits. */
  method RenderDelegatedChildrenBlock(rows: seq<ChildRow>, now: Option<int>, caps: Caps)
    returns (block: Option<string>, stamps: seq<string>)
    ensures LongestPrefix(Eligible(rows), |ShownRows(rows, now, caps)|, now, caps)
    ensures var shown := ShownRows(rows, now, caps);
            && shown <= Eligible(rows)
            && block == (if shown == [] then None else Some(RenderBlock(|Eligible(rows)|, shown, now, caps.maxSummary)))
            && stamps == TerminalIds(shown)
  {
    hide RenderBlock, TerminalIds, Eligible, LongestPrefix, Fits;
    var candidates := Eligible(rows);
    ShownIsLongest(candidates, RowCap(candidates, caps), now, caps);
    NothingShown(candidates, now, caps);
    if candidates == [] {
      return None, [];
    }
    var total := |candidates|;
    var kept := candidates[..RowCap(candidates, caps)];
    while kept != []
      invariant |kept| <= RowCap(candidates, caps) && kept == candidates[..|kept|]
      invariant Shown(candidates, RowCap(candidates, caps), now, caps) == Shown(candidates, |kept|, now, caps)
      decreases |kept|
    {
      var text := RenderBlock(total, kept, now, caps.maxSummary);
      ShownStep(candidates, |kept|, now, caps);
      if |text| <= caps.maxTotal {
        return Some(text), TerminalIds(kept);
      }
      kept := kept[..|kept| - 1];
    }
    return None, [];
  }

  lemma ShownStep(candidates: seq<ChildRow>, k: nat, now: Option<int>, caps: Caps)
    requires 0 < k <= |candidates|
    ensures Shown(candidates, k, now, caps) ==
            if |RenderBlock(|candidates|, candidates[..k], now, caps.maxSummary)| <= caps.maxTotal then k
            else Shown(candidates, k - 1, now, caps)
  {
    hide RenderBlock;
  }

  lemma NothingShown(candidates: seq<ChildRow>, now: Option<int>, caps: Caps)
    ensures Shown(candidates, 0, now, caps) == 0 && TerminalIds(candidates[..0]) == []
  {
  }

  /** With the default caps a parent run is told of at most twenty children, in at most 4000 characters
      and 24 lines. */
  lemma DefaultBlock(rows: seq<ChildRow>, now: Option<int>)
    requires ShownRows(rows, now, DEFAULT_CAPS) != []
    ensures var shown := ShownRows(rows, now, DEFAULT_CAPS);
            var block := RenderBlock(|Eligible(rows)|, shown, now, DEFAULT_CAPS.maxSummary);
            && |shown| <= 20 && |block| <= 4000
            && (PlainIds(shown) ==> |Lines(block)| <= 24)
  {
    var candidates := Eligible(rows);
    ShownIsLongest(candidates, RowCap(candidates, DEFAULT_CAPS), now, DEFAULT_CAPS);
    var shown := ShownRows(rows, now, DEFAULT_CAPS);
    assert |shown| <= RowCap(candidates, DEFAULT_CAPS) && Fits(candidates, |shown|, now, DEFAULT_CAPS);
    hide Eligible, LongestPrefix, Lines, PlainIds;
    if PlainIds(shown) {
      BlockReadsBack(|candidates|, shown, now, DEFAULT_CAPS.maxSummary);
    }
  }

  /** The stamped children are exactly the finished ones among the rows shown. */
  lemma {:induction false} TerminalIdsExact(rows: seq<ChildRow>)
    ensures forall id :: id in TerminalIds(rows) <==> exists r :: r in rows && r.state != Running && r.id == id
  {
    if rows != [] {
      TerminalIdsExact(rows[1..]);
      forall id ensures id in TerminalIds(rows) <==> exists r :: r in rows && Terminal(r) && r.id == id {
        if r :| r in rows && Terminal(r) && r.id == id {
          assert r == rows[0] || r in rows[1..];
        }
        if id in TerminalIds(rows[1..]) {
          var r :| r in rows[1..] && Terminal(r) && r.id == id;
          assert r in rows;
        }
        if Terminal(rows[0]) && rows[0].id == id {
          assert rows[0] in rows;
        }
      }
    }
  }

  /** Both lists keep the order of the rows. */
  lemma {:induction false} EligibleInOrder(rows: seq<ChildRow>, r: ChildRow)
    ensures Eligible([]) == []
    ensures Eligible(rows + [r]) == Eligible(rows) + if r.state == Running || !r.injected then [r] else []
  {
    if rows == [] {
      assert [] + [r] == [r] && [r][1..] == [];
    } else {
      EligibleInOrder(rows[1..], r);
      assert (rows + [r])[1..] == rows[1..] + [r];
    }
  }

  lemma {:induction false} TerminalIdsInOrder(rows: seq<ChildRow>, r: ChildRow)
    ensures TerminalIds([]) == []
    ensures TerminalIds(rows + [r]) == TerminalIds(rows) + if r.state != Running then [r.id] else []
  {
    if rows == [] {
      assert [] + [r] == [r] && [r][1..] == [];
    } else {
      TerminalIdsInOrder(rows[1..], r);
      assert (rows + [r])[1..] == rows[1..] + [r];
    }
  }

  lemma {:induction false} EligibleExact(rows: seq<ChildRow>)
    ensures forall r :: r in Eligible(rows) <==> r in rows && (r.state == Running || !r.injected)
  {
    if rows != [] {
      EligibleExact(rows[1..]);
      assert rows == [rows[0]] + rows[1..];
    }
  }

  // ----- many rounds ---------------------------------------------------------------------

  /** What one run of the parent was shown; `unstamped` are the children whose stamp was not written. */
  datatype Round = Round(shown: seq<ChildRow>, unstamped: set<string>)

  datatype History = History(rows: seq<ChildRow>, rounds: seq<Round>)

  datatype Event =
    | Reserved(row: ChildRow)
    | Started(id: string, at: Option<int>)
    | Ended(id: string, state: ChildState, summary: string, safeMessage: string)
    | Reported(id: string)
    | ParentRuns(now: Option<int>, caps: Caps, unstamped: set<string>)

  function Update(rows: seq<ChildRow>, id: string, change: ChildRow -> ChildRow): (r: seq<ChildRow>)
    ensures |r| == |rows|
    ensures forall k :: 0 <= k < |rows| ==> r[k] == (if rows[k].id == id then change(rows[k]) else rows[k])
  {
    if rows == [] then [] else [if rows[0].id == id then change(rows[0]) else rows[0]] + Update(rows[1..], id, change)
  }

  function Inject(rows: seq<ChildRow>, ids: set<string>): (r: seq<ChildRow>)
    ensures |r| == |rows|
    ensures forall k :: 0 <= k < |rows| ==> r[k] == (if rows[k].id in ids then rows[k].(injected := true) else rows[k])
  {
    if rows == [] then []
    else [if rows[0].id in ids then rows[0].(injected := true) else rows[0]] + Inject(rows[1..], ids)
  }

  predicate IsRow(rows: seq<ChildRow>, id: string, running: bool) {
    exists k :: 0 <= k < |rows| && rows[k].id == id && rows[k].state.Running? == running
  }

  ghost predicate Enabled(h: History, e: Event) {
    match e
    case Reserved(row) =>
      row.state.Running? && !row.injected && forall k :: 0 <= k < |h.rows| ==> h.rows[k].id != row.id
    case Started(id, _) => IsRow(h.rows, id, true)
    case Ended(id, state, _, _) => IsRow(h.rows, id, true) && !state.Running?
    case Reported(id) => IsRow(h.rows, id, false)
    case ParentRuns(_, _, _) => true
  }

  function Apply(h: History, e: Event): History {
    match e
    case Reserved(row) => h.(rows := h.rows + [row])
    case Started(id, at) =>
      h.(rows := Update(h.rows, id, (row: ChildRow) =>
           if row.started.Queued? then row.(started := StartedAt(at)) else row))
    case Ended(id, state, summary, safeMessage) =>
      h.(rows := Update(h.rows, id, (row: ChildRow) =>
           row.(state := state, summary := summary, safeMessage := safeMessage)))
    case Reported(id) => h.(rows := Update(h.rows, id, (row: ChildRow) => row.(injected := true)))
    case ParentRuns(now, caps, unstamped) =>
      var shown := ShownRows(h.rows, now, caps);
      h.(rows := Inject(h.rows, Ids(TerminalIds(shown)) - unstamped), rounds := h.rounds + [Round(shown, unstamped)])
  }

  function Ids(ids: seq<string>): set<string> {
    set id | id in ids
  }

  ghost predicate Init(h: History) {
    && h.rounds == []
    && (forall i, j :: 0 <= i < j < |h.rows| ==> h.rows[i].id != h.rows[j].id)
    && (forall k :: 0 <= k < |h.rows| ==> h.rows[k].state.Running? ==> !h.rows[k].injected)
  }

  ghost predicate IsRun(run: seq<History>) {
    && run != [] && Init(run[0])
    && forall i :: 0 <= i < |run| - 1 ==> exists e :: Enabled(run[i], e) && run[i + 1] == Apply(run[i], e)
  }

  /** `id` was shown as finished, and its stamp was written. */
  predicate Delivered(r: Round, id: string) {
    id in TerminalIds(r.shown) && id !in r.unstamped
  }

  predicate Shows(r: Round, id: string) {
    exists k :: 0 <= k < |r.shown| && r.shown[k].id == id
  }

  ghost predicate DistinctIds(rows: seq<ChildRow>) {
    forall i, j :: 0 <= i < j < |rows| ==> rows[i].id != rows[j].id
  }

  /** Running rows are unstamped; finished rows that were shown and stamped are marked for good. */
  ghost predicate Consistent(h: History) {
    && DistinctIds(h.rows)
    && (forall k :: 0 <= k < |h.rows| && h.rows[k].state.Running? ==> !h.rows[k].injected)
    && (forall n, k :: 0 <= n < |h.rounds| && 0 <= k < |h.rows| && Delivered(h.rounds[n], h.rows[k].id) ==>
          Terminal(h.rows[k]) && h.rows[k].injected)
    && (forall n, k :: 0 <= n < |h.rounds| && 0 <= k < |h.rounds[n].shown| ==> HasId(h.rows, h.rounds[n].shown[k].id))
  }

  predicate HasId(rows: seq<ChildRow>, id: string) {
    exists k :: 0 <= k < |rows| && rows[k].id == id
  }

  ghost predicate OnceOnly(rounds: seq<Round>) {
    forall m, n, id :: 0 <= m < n < |rounds| && Delivered(rounds[m], id) ==> !Shows(rounds[n], id)
  }

  /** Rows that change without changing their identity, and never back. */
  ghost predicate Onward(rows: seq<ChildRow>, rows': seq<ChildRow>) {
    && |rows| == |rows'|
    && forall k :: 0 <= k < |rows| ==>
         && rows'[k].id == rows[k].id
         && (Terminal(rows[k]) ==> Terminal(rows'[k]))
         && (rows[k].injected ==> rows'[k].injected)
         && (rows'[k].state.Running? && rows'[k].injected ==> rows[k].injected)
  }

  lemma OnwardConsistent(h: History, rows': seq<ChildRow>)
    requires Consistent(h) && Onward(h.rows, rows')
    ensures Consistent(h.(rows := rows'))
  {
    hide Delivered;
    forall n, k | 0 <= n < |h.rounds| && 0 <= k < |h.rounds[n].shown| ensures HasId(rows', h.rounds[n].shown[k].id) {
      var i :| 0 <= i < |h.rows| && h.rows[i].id == h.rounds[n].shown[k].id;
      assert rows'[i].id == h.rounds[n].shown[k].id;
    }
  }

  lemma DeliveredIsStored(h: History, n: nat, id: string)
    requires Consistent(h) && n < |h.rounds| && Delivered(h.rounds[n], id)
    ensures HasId(h.rows, id)
  {
    var shown := h.rounds[n].shown;
    TerminalIdsExact(shown);
    var r :| r in shown && Terminal(r) && r.id == id;
    var k :| 0 <= k < |shown| && shown[k] == r;
  }

  lemma ReservedConsistent(h: History, row: ChildRow)
    requires Consistent(h) && Enabled(h, Reserved(row))
    ensures Consistent(h.(rows := h.rows + [row]))
  {
    var rows' := h.rows + [row];
    forall n, id | 0 <= n < |h.rounds| && Delivered(h.rounds[n], id) ensures HasId(h.rows, id) {
      DeliveredIsStored(h, n, id);
    }
    assert !HasId(h.rows, row.id);
    hide Delivered;
    forall n, k | 0 <= n < |h.rounds| && 0 <= k < |h.rounds[n].shown| ensures HasId(rows', h.rounds[n].shown[k].id) {
      var i :| 0 <= i < |h.rows| && h.rows[i].id == h.rounds[n].shown[k].id;
      assert rows'[i].id == h.rounds[n].shown[k].id;
    }
  }

  /** A row the block shows comes from the store and was eligible. */
  lemma ShownFromStore(rows: seq<ChildRow>, now: Option<int>, caps: Caps, r: ChildRow)
    requires r in ShownRows(rows, now, caps)
    ensures r in rows && IsEligible(r)
  {
    EligibleExact(rows);
    assert r in Eligible(rows);
  }

  lemma StampedRows(rows: seq<ChildRow>, now: Option<int>, caps: Caps, id: string)
    requires DistinctIds(rows) && id in TerminalIds(ShownRows(rows, now, caps))
    ensures forall k :: 0 <= k < |rows| && rows[k].id == id ==> Terminal(rows[k]) && !rows[k].injected
  {
    hide ShownRows, TerminalIds;
    TerminalIdsExact(ShownRows(rows, now, caps));
    var r :| r in ShownRows(rows, now, caps) && Terminal(r) && r.id == id;
    ShownFromStore(rows, now, caps, r);
    var i :| 0 <= i < |rows| && rows[i] == r;
  }

  lemma RoundOnward(rows: seq<ChildRow>, now: Option<int>, caps: Caps, unstamped: set<string>)
    requires DistinctIds(rows)
    ensures Onward(rows, Inject(rows, Ids(TerminalIds(ShownRows(rows, now, caps))) - unstamped))
  {
    var stamps := Ids(TerminalIds(ShownRows(rows, now, caps)));
    forall k | 0 <= k < |rows| && rows[k].id in stamps ensures Terminal(rows[k]) {
      StampedRows(rows, now, caps, rows[k].id);
    }
  }

  lemma RoundConsistent(h: History, now: Option<int>, caps: Caps, unstamped: set<string>)
    requires Consistent(h)
    ensures Consistent(Apply(h, ParentRuns(now, caps, unstamped)))
  {
    var shown := ShownRows(h.rows, now, caps);
    var rows' := Inject(h.rows, Ids(TerminalIds(shown)) - unstamped);
    var round := Round(shown, unstamped);
    RoundOnward(h.rows, now, caps, unstamped);
    OnwardConsistent(h, rows');
    forall k | 0 <= k < |rows'| && Delivered(round, rows'[k].id) ensures Terminal(rows'[k]) && rows'[k].injected {
      StampedRows(h.rows, now, caps, rows'[k].id);
    }
    forall k | 0 <= k < |shown| ensures HasId(rows', shown[k].id) {
      assert shown[k] in shown;
      ShownFromStore(h.rows, now, caps, shown[k]);
      var i :| 0 <= i < |h.rows| && h.rows[i] == shown[k];
      assert rows'[i].id == shown[k].id;
    }
    hide Delivered, HasId, ShownRows, DistinctIds;
    RoundAdded(h.(rows := rows'), round);
  }

  lemma RoundAdded(h: History, round: Round)
    requires Consistent(h)
    requires forall k :: 0 <= k < |h.rows| && Delivered(round, h.rows[k].id) ==>
             Terminal(h.rows[k]) && h.rows[k].injected
    requires forall k :: 0 <= k < |round.shown| ==> HasId(h.rows, round.shown[k].id)
    ensures Consistent(h.(rounds := h.rounds + [round]))
  {
    hide Delivered, HasId, DistinctIds;
  }

  lemma ShownIsEligible(rows: seq<ChildRow>, now: Option<int>, caps: Caps, round: Round, id: string)
    requires round.shown == ShownRows(rows, now, caps) && Shows(round, id)
    ensures exists i :: 0 <= i < |rows| && rows[i].id == id && IsEligible(rows[i])
  {
    var k :| 0 <= k < |round.shown| && round.shown[k].id == id;
    assert round.shown[k] in round.shown;
    ShownFromStore(rows, now, caps, round.shown[k]);
    var i :| 0 <= i < |rows| && rows[i] == round.shown[k];
  }

  lemma RoundOnce(h: History, now: Option<int>, caps: Caps, unstamped: set<string>)
    requires Consistent(h) && OnceOnly(h.rounds)
    ensures OnceOnly(Apply(h, ParentRuns(now, caps, unstamped)).rounds)
  {
    var round := Round(ShownRows(h.rows, now, caps), unstamped);
    forall m, id | 0 <= m < |h.rounds| && Delivered(h.rounds[m], id) ensures !Shows(round, id) {
      if Shows(round, id) {
        ShownIsEligible(h.rows, now, caps, round, id);
      }
    }
    hide Delivered, Shows;
  }

  lemma StepConsistent(h: History, e: Event)
    requires Consistent(h) && OnceOnly(h.rounds) && Enabled(h, e)
    ensures Consistent(Apply(h, e)) && OnceOnly(Apply(h, e).rounds)
  {
    var rows' := Apply(h, e).rows;
    hide OnceOnly;
    match e
    case Reserved(row) => ReservedConsistent(h, row);
    case ParentRuns(now, caps, unstamped) =>
      RoundConsistent(h, now, caps, unstamped);
      RoundOnce(h, now, caps, unstamped);
    case Started(_, _) => UpdateOnward(h, e);
    case Ended(_, _, _, _) => UpdateOnward(h, e);
    case Reported(_) => UpdateOnward(h, e);
  }

  lemma UpdateOnward(h: History, e: Event)
    requires Consistent(h) && Enabled(h, e) && (e.Started? || e.Ended? || e.Reported?)
    ensures Consistent(Apply(h, e))
  {
    var rows' := Apply(h, e).rows;
    if e.Reported? {
      var k :| 0 <= k < |h.rows| && h.rows[k].id == e.id && !h.rows[k].state.Running?;
      assert forall j :: 0 <= j < |h.rows| && h.rows[j].id == e.id ==> j == k;
    }
    assert Onward(h.rows, rows');
    OnwardConsistent(h, rows');
  }

  lemma {:induction false} RunConsistent(run: seq<History>, i: nat)
    requires IsRun(run) && i < |run|
    ensures Consistent(run[i]) && OnceOnly(run[i].rounds)
  {
    if i > 0 {
      RunConsistent(run, i - 1);
      hide Consistent, OnceOnly, Enabled, Apply;
      assert run[i - 1 + 1] == run[i];
      var e :| Enabled(run[i - 1], e) && run[i] == Apply(run[i - 1], e);
      StepConsistent(run[i - 1], e);
    }
  }

  // ----- what it means -------------------------------------------------------------------

  /** Over any run of spawns, endings, reports and parent runs: once a finished child was shown and
      stamped it is never shown again. */
  lemma ShownAtMostOnce(run: seq<History>, i: nat, m: nat, n: nat, id: string)
    requires IsRun(run) && i < |run| && m < n < |run[i].rounds|
    requires id in TerminalIds(run[i].rounds[m].shown) && id !in run[i].rounds[m].unstamped
    ensures !Shows(run[i].rounds[n], id)
  {
    RunConsistent(run, i);
    assert Delivered(run[i].rounds[m], id);
  }

  /** A running child is never stamped, so its end can still be shown. */
  lemma RunningNeverStamped(run: seq<History>, i: nat, k: nat)
    requires IsRun(run) && i < |run| && k < |run[i].rows| && run[i].rows[k].state.Running?
    ensures !run[i].rows[k].injected && IsEligible(run[i].rows[k])
    ensures forall state, summary, safeMessage ::
              IsEligible(run[i].rows[k].(state := state, summary := summary, safeMessage := safeMessage))
  {
    RunConsistent(run, i);
  }

  /** A round stamps a row exactly if it shows it, finished, and the stamp is written. A row that the caps
      push out keeps its place for the next round. */
  lemma StampsExactly(h: History, now: Option<int>, caps: Caps, unstamped: set<string>, k: nat)
    requires DistinctIds(h.rows) && k < |h.rows|
    ensures var rows' := Apply(h, ParentRuns(now, caps, unstamped)).rows;
            rows'[k].injected <==> || h.rows[k].injected
                                   || (&& h.rows[k] in ShownRows(h.rows, now, caps) && Terminal(h.rows[k])
                                       && h.rows[k].id !in unstamped)
  {
    var shown := ShownRows(h.rows, now, caps);
    StampedExactly(h.rows, now, caps, k);
    hide ShownRows, TerminalIds, DistinctIds, Terminal;
  }

  lemma StampedExactly(rows: seq<ChildRow>, now: Option<int>, caps: Caps, k: nat)
    requires DistinctIds(rows) && k < |rows|
    ensures rows[k].id in TerminalIds(ShownRows(rows, now, caps)) <==>
            rows[k] in ShownRows(rows, now, caps) && Terminal(rows[k])
  {
    hide ShownRows, TerminalIds, DistinctIds;
    TerminalIdsExact(ShownRows(rows, now, caps));
    if rows[k].id in TerminalIds(ShownRows(rows, now, caps)) {
      OnlyItself(rows, now, caps, k);
    }
  }

  lemma OnlyItself(rows: seq<ChildRow>, now: Option<int>, caps: Caps, k: nat)
    requires DistinctIds(rows) && k < |rows| && rows[k].id in TerminalIds(ShownRows(rows, now, caps))
    ensures rows[k] in ShownRows(rows, now, caps) && Terminal(rows[k])
  {
    var shown := ShownRows(rows, now, caps);
    TerminalIdsExact(shown);
    var r :| r in shown && Terminal(r) && r.id == rows[k].id;
    ShownFromStore(rows, now, caps, r);
    var i :| 0 <= i < |rows| && rows[i] == r;
  }
}
