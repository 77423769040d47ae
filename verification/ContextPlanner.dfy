/** Choosing the segments that enter a model context: everything mandatory, then the optional ones in
    rank order as long as they fit. */
module ContextPlanner {
  import opened Wrappers

  datatype SegmentKind =
    | System | CurrentUser | RecentHistory | Checkpoint | Memory | ToolResult | Artifact | OptionalInstruction

  datatype Transform = Included | Omitted | Pruned | Spilled | Compacted

  datatype Segment = Segment(kind: SegmentKind, sourceIds: seq<string>, trustLevel: string, priority: int, tokens: nat,
                             transform: Transform, reason: Option<string>)

  datatype Budget = Budget(window: nat, reservedOutput: nat, safetyMargin: nat)

  datatype Diagnostic = OverBudgetMandatory(mandatoryTokens: nat, inputBudget: int)

  datatype Plan = Plan(included: seq<Segment>, omitted: seq<Segment>, diagnostics: seq<Diagnostic>,
                       inputBudget: int, estimatedTokens: nat, overBudget: bool)

  const EXCEEDS_INPUT_BUDGET := "exceeds_input_budget"

  function InputBudget(b: Budget): int {
    b.window - b.reservedOutput - b.safetyMargin
  }

  predicate IsMandatory(s: Segment) {
    s.kind == System || s.kind == CurrentUser
  }

  /** Place among the optional kinds. */
  function KindRank(kind: SegmentKind): nat {
    match kind
    case RecentHistory => 0
    case Checkpoint => 1
    case Memory => 2
    case ToolResult => 3
    case Artifact => 4
    case OptionalInstruction => 5
    case _ => 0
  }

  /** Higher priority first, then the order of kinds. */
  predicate Before(a: Segment, b: Segment) {
    a.priority > b.priority || (a.priority == b.priority && KindRank(a.kind) < KindRank(b.kind))
  }

  // ----- candidates ----------------------------------------------------------------------

  function Raw(candidates: seq<Segment>): seq<Segment> {
    if candidates == [] then []
    else (if candidates[0].transform == Included then [candidates[0]] else []) + Raw(candidates[1..])
  }

  function Part(candidates: seq<Segment>, mandatory: bool): (r: seq<Segment>)
    ensures forall s :: s in r ==> IsMandatory(s) == mandatory && s.transform == Included
  {
    if candidates == [] then []
    else
      (if candidates[0].transform == Included && IsMandatory(candidates[0]) == mandatory then [candidates[0]] else [])
      + Part(candidates[1..], mandatory)
  }

  lemma {:induction false} PartsMakeRaw(candidates: seq<Segment>)
    ensures multiset(Part(candidates, true)) + multiset(Part(candidates, false)) == multiset(Raw(candidates))
  {
    if candidates != [] {
      PartsMakeRaw(candidates[1..]);
    }
  }

  // ----- the stable sort -----------------------------------------------------------------

  /** In front of the first segment that is ranked after it. */
  function Insert(s: Segment, sorted: seq<Segment>): seq<Segment> {
    if sorted == [] || !Before(sorted[0], s) then [s] + sorted else [sorted[0]] + Insert(s, sorted[1..])
  }

  function Ranked(segments: seq<Segment>): seq<Segment> {
    if segments == [] then [] else Insert(segments[0], Ranked(segments[1..]))
  }

  ghost predicate InRankOrder(segments: seq<Segment>) {
    forall i, j :: 0 <= i < j < |segments| ==> !Before(segments[j], segments[i])
  }

  predicate SameRank(a: Segment, b: Segment) {
    !Before(a, b) && !Before(b, a)
  }

  /** The segments ranked like `probe`, in their order. */
  function Peers(segments: seq<Segment>, probe: Segment): seq<Segment> {
    if segments == [] then []
    else (if SameRank(segments[0], probe) then [segments[0]] else []) + Peers(segments[1..], probe)
  }

  lemma {:induction false} InsertKeepsAll(s: Segment, sorted: seq<Segment>)
    ensures multiset(Insert(s, sorted)) == multiset(sorted) + multiset{s}
  {
    if sorted != [] && Before(sorted[0], s) {
      InsertKeepsAll(s, sorted[1..]);
      assert sorted == [sorted[0]] + sorted[1..];
    }
  }

  lemma InsertMembers(s: Segment, sorted: seq<Segment>)
    ensures forall x :: x in Insert(s, sorted) ==> x == s || x in sorted
  {
    InsertKeepsAll(s, sorted);
    forall x | x in Insert(s, sorted) ensures x == s || x in sorted {
      assert x in multiset(Insert(s, sorted));
      assert x != s ==> x in multiset(sorted);
    }
  }

  /** What comes after `s` in rank order comes after nothing that `s` precedes. */
  lemma {:induction false} InsertInOrder(s: Segment, sorted: seq<Segment>)
    requires InRankOrder(sorted)
    ensures InRankOrder(Insert(s, sorted))
  {
    if sorted != [] && Before(sorted[0], s) {
      InsertInOrder(s, sorted[1..]);
      InsertMembers(s, sorted[1..]);
      HeadInOrder(sorted[0], Insert(s, sorted[1..]));
    } else {
      forall x | x in sorted ensures !Before(x, s) {
        var i :| 0 <= i < |sorted| && sorted[i] == x;
        assert i == 0 || !Before(x, sorted[0]);
      }
      HeadInOrder(s, sorted);
    }
  }

  lemma {:induction false} InsertPeers(s: Segment, sorted: seq<Segment>, probe: Segment)
    requires InRankOrder(sorted)
    ensures Peers(Insert(s, sorted), probe) == (if SameRank(s, probe) then [s] else []) + Peers(sorted, probe)
  {
    if sorted != [] && Before(sorted[0], s) {
      InsertPeers(s, sorted[1..], probe);
      assert SameRank(sorted[0], probe) ==> !SameRank(s, probe);
      assert Insert(s, sorted)[1..] == Insert(s, sorted[1..]);
    } else {
      assert Insert(s, sorted)[1..] == sorted;
    }
  }

  lemma HeadInOrder(head: Segment, tail: seq<Segment>)
    requires InRankOrder(tail) && forall x :: x in tail ==> !Before(x, head)
    ensures InRankOrder([head] + tail)
  {
    hide Before;
  }

  /** Sorting by rank: a permutation, in rank order, and segments of one rank keep their order. */
  lemma {:induction false} RankedIsStable(segments: seq<Segment>)
    ensures InRankOrder(Ranked(segments)) && multiset(Ranked(segments)) == multiset(segments)
    ensures forall probe :: Peers(Ranked(segments), probe) == Peers(segments, probe)
  {
    if segments != [] {
      hide Insert, Before, InRankOrder;
      RankedIsStable(segments[1..]);
      InsertInOrder(segments[0], Ranked(segments[1..]));
      InsertKeepsAll(segments[0], Ranked(segments[1..]));
      forall probe ensures Peers(Ranked(segments), probe) == Peers(segments, probe) {
        InsertPeers(segments[0], Ranked(segments[1..]), probe);
      }
      assert segments == [segments[0]] + segments[1..];
    } else {
      assert InRankOrder([]) by { NothingInOrder(); }
    }
  }

  lemma NothingInOrder()
    ensures InRankOrder([])
  {
  }

  lemma {:induction false} PeerInList(segments: seq<Segment>, probe: Segment)
    ensures Peers(segments, probe) != [] ==>
            Peers(segments, probe)[0] in segments && SameRank(Peers(segments, probe)[0], probe)
    ensures probe in segments ==> Peers(segments, probe) != []
  {
    if segments != [] {
      PeerInList(segments[1..], probe);
      assert segments == [segments[0]] + segments[1..];
    }
  }

  lemma SameHead(a: seq<Segment>, b: seq<Segment>)
    requires a != [] && b != [] && InRankOrder(a) && InRankOrder(b)
    requires forall probe :: Peers(a, probe) == Peers(b, probe)
    ensures a[0] == b[0]
  {
    PeerInList(b, a[0]);
    PeerInList(a, b[0]);
    var x, y := Peers(b, a[0])[0], Peers(a, b[0])[0];
    assert x == a[0] && y == b[0];
    var i :| 0 <= i < |b| && b[i] == x;
    var j :| 0 <= j < |a| && a[j] == y;
    assert i == 0 || !Before(b[i], b[0]);
    assert j == 0 || !Before(a[j], a[0]);
    assert SameRank(a[0], b[0]);
    assert Peers(a, a[0])[0] == a[0] && Peers(b, a[0])[0] == b[0];
  }

  /** Rank order and the order within each rank leave no choice: there is one stable sort. */
  lemma {:induction false} StableSortIsUnique(a: seq<Segment>, b: seq<Segment>)
    requires InRankOrder(a) && InRankOrder(b)
    requires forall probe :: Peers(a, probe) == Peers(b, probe)
    ensures a == b
  {
    if a == [] {
      if b != [] {
        PeerInList(b, b[0]);
      }
    } else {
      PeerInList(a, a[0]);
      if b != [] {
        SameHead(a, b);
        forall probe ensures Peers(a[1..], probe) == Peers(b[1..], probe) {
          assert Peers(a, probe) == Peers(b, probe);
          SamePeersTail(a, b, probe);
        }
        StableSortIsUnique(a[1..], b[1..]);
        assert a == [a[0]] + a[1..] && b == [b[0]] + b[1..];
      }
    }
  }

  lemma SamePeersTail(a: seq<Segment>, b: seq<Segment>, probe: Segment)
    requires a != [] && b != [] && a[0] == b[0] && Peers(a, probe) == Peers(b, probe)
    ensures Peers(a[1..], probe) == Peers(b[1..], probe)
  {
    if SameRank(a[0], probe) {
      assert Peers(a, probe)[1..] == Peers(a[1..], probe);
      assert Peers(b, probe)[1..] == Peers(b[1..], probe);
    } else {
      assert [] + Peers(a[1..], probe) == Peers(a[1..], probe) && [] + Peers(b[1..], probe) == Peers(b[1..], probe);
    }
  }

  // ----- selections ----------------------------------------------------------------------

  function TokenSum(segments: seq<Segment>): nat {
    if segments == [] then 0 else segments[0].tokens + TokenSum(segments[1..])
  }

  /** The segments a selection picks (`flag` true) or leaves (`flag` false). */
  function Select(segments: seq<Segment>, picks: seq<bool>, flag: bool): seq<Segment>
    requires |picks| == |segments|
  {
    if segments == [] then []
    else (if picks[0] == flag then [segments[0]] else []) + Select(segments[1..], picks[1..], flag)
  }

  predicate Feasible(segments: seq<Segment>, picks: seq<bool>, room: int)
    requires |picks| == |segments|
  {
    TokenSum(Select(segments, picks, true)) <= room
  }

  /** `a` comes no later than `b` in the dictionary order that prefers picking: at the first place where
      they differ, `a` picks. */
  predicate AtLeast(a: seq<bool>, b: seq<bool>)
    requires |a| == |b|
  {
    a == [] || (if a[0] == b[0] then AtLeast(a[1..], b[1..]) else a[0])
  }

  function Greedy(segments: seq<Segment>, room: int): (picks: seq<bool>)
    ensures |picks| == |segments|
  {
    if segments == [] then []
    else if segments[0].tokens <= room then [true] + Greedy(segments[1..], room - segments[0].tokens)
    else [false] + Greedy(segments[1..], room)
  }

  /** Greedy is the greatest feasible selection in rank order, and the only one. */
  lemma {:induction false} GreedyIsGreatest(segments: seq<Segment>, room: int, picks: seq<bool>)
    requires room >= 0 && |picks| == |segments|
    ensures Feasible(segments, Greedy(segments, room), room)
    ensures Feasible(segments, picks, room) ==> AtLeast(Greedy(segments, room), picks)
  {
    if segments != [] {
      var t := segments[0].tokens;
      var g := Greedy(segments, room);
      if t <= room {
        GreedyIsGreatest(segments[1..], room - t, picks[1..]);
      } else {
        GreedyIsGreatest(segments[1..], room, picks[1..]);
      }
      assert g[1..] == Greedy(segments[1..], if t <= room then room - t else room);
      SelectHead(segments, g);
      SelectHead(segments, picks);
    }
  }

  lemma SelectHead(segments: seq<Segment>, picks: seq<bool>)
    requires |picks| == |segments| > 0
    ensures TokenSum(Select(segments, picks, true)) ==
            (if picks[0] then segments[0].tokens else 0) + TokenSum(Select(segments[1..], picks[1..], true))
  {
    var rest := Select(segments[1..], picks[1..], true);
    assert ([segments[0]] + rest)[1..] == rest;
    assert [] + rest == rest;
  }

  lemma {:induction false} AtLeastBothWays(a: seq<bool>, b: seq<bool>)
    requires |a| == |b| && AtLeast(a, b) && AtLeast(b, a)
    ensures a == b
  {
    if a != [] {
      AtLeastBothWays(a[1..], b[1..]);
      assert a == [a[0]] + a[1..] && b == [b[0]] + b[1..];
    }
  }

  /** A selection is the greatest feasible one if and only if greedy chooses it. */
  lemma GreatestExactly(segments: seq<Segment>, room: int, picks: seq<bool>)
    requires room >= 0 && |picks| == |segments|
    ensures picks == Greedy(segments, room) <==>
            && Feasible(segments, picks, room)
            && forall other: seq<bool> :: |other| == |segments| && Feasible(segments, other, room) ==>
               AtLeast(picks, other)
  {
    var g := Greedy(segments, room);
    forall other: seq<bool> | |other| == |segments| && Feasible(segments, other, room) ensures AtLeast(g, other) {
      GreedyIsGreatest(segments, room, other);
    }
    GreedyIsGreatest(segments, room, picks);
    if Feasible(segments, picks, room) && AtLeast(picks, g) {
      AtLeastBothWays(picks, g);
    }
  }

  /** Adding any segment left out would exceed the room. */
  lemma {:induction false} NothingElseFits(segments: seq<Segment>, room: int, i: nat)
    requires i < |segments| && !Greedy(segments, room)[i]
    ensures segments[i].tokens + TokenSum(Select(segments, Greedy(segments, room), true)) > room
    decreases |segments|
  {
    var t := segments[0].tokens;
    var g := Greedy(segments, room);
    var left := if t <= room then room - t else room;
    assert g[1..] == Greedy(segments[1..], left);
    SelectHead(segments, g);
    if i > 0 {
      NothingElseFits(segments[1..], left, i - 1);
    }
  }

  /** What remains never grows. */
  lemma {:induction false} PickedFits(segments: seq<Segment>, room: int, j: nat)
    requires j < |segments| && Greedy(segments, room)[j]
    ensures segments[j].tokens <= room
    decreases |segments|
  {
    if j > 0 {
      var t := segments[0].tokens;
      var left := if t <= room then room - t else room;
      assert Greedy(segments, room)[1..] == Greedy(segments[1..], left);
      PickedFits(segments[1..], left, j - 1);
    }
  }

  /** A segment loses to one ranked after it only if it is strictly larger. */
  lemma {:induction false} LosesOnlyIfLarger(segments: seq<Segment>, room: int, i: nat, j: nat)
    requires i < j < |segments| && !Greedy(segments, room)[i] && Greedy(segments, room)[j]
    ensures segments[i].tokens > segments[j].tokens
    decreases i
  {
    var t := segments[0].tokens;
    var left := if t <= room then room - t else room;
    assert Greedy(segments, room)[1..] == Greedy(segments[1..], left);
    if i == 0 {
      PickedFits(segments[1..], left, j - 1);
    } else {
      LosesOnlyIfLarger(segments[1..], left, i - 1, j - 1);
    }
  }

  /** Without room - the mandatory segments alone exceed the budget - nothing optional is chosen. */
  lemma {:induction false} NoRoomNoChoice(segments: seq<Segment>, room: int)
    requires room < 0
    ensures Select(segments, Greedy(segments, room), true) == []
    ensures Select(segments, Greedy(segments, room), false) == segments
  {
    if segments != [] {
      NoRoomNoChoice(segments[1..], room);
      assert Greedy(segments, room)[1..] == Greedy(segments[1..], room);
    }
  }

  lemma {:induction false} SelectSplits(segments: seq<Segment>, picks: seq<bool>)
    requires |picks| == |segments|
    ensures multiset(Select(segments, picks, true)) + multiset(Select(segments, picks, false)) == multiset(segments)
  {
    if segments != [] {
      SelectSplits(segments[1..], picks[1..]);
      assert segments == [segments[0]] + segments[1..];
    }
  }

  // ----- the plan ------------------------------------------------------------------------

  function Omit(s: Segment): Segment {
    s.(transform := Omitted, reason := Some(EXCEEDS_INPUT_BUDGET))
  }

  function OmitAll(segments: seq<Segment>): (r: seq<Segment>)
    ensures |r| == |segments| && forall i :: 0 <= i < |r| ==> r[i] == Omit(segments[i])
  {
    if segments == [] then [] else [Omit(segments[0])] + OmitAll(segments[1..])
  }

  lemma {:induction false} TokenSumAppend(a: seq<Segment>, b: seq<Segment>)
    ensures TokenSum(a + b) == TokenSum(a) + TokenSum(b)
  {
    if a == [] {
      assert a + b == b;
    } else {
      TokenSumAppend(a[1..], b);
      assert (a + b)[1..] == a[1..] + b;
    }
  }

  /** The plan, with the choice it makes named. */
  ghost predicate IsPlan(candidates: seq<Segment>, budget: Budget, plan: Plan) {
    var mandatory, optional := Part(candidates, true), Ranked(Part(candidates, false));
    var room := InputBudget(budget) - TokenSum(mandatory);
    var picks := Greedy(optional, room);
    && plan.included == mandatory + Select(optional, picks, true)
    && plan.omitted == OmitAll(Select(optional, picks, false))
    && plan.inputBudget == InputBudget(budget)
    && plan.estimatedTokens == TokenSum(plan.included)
    && (plan.overBudget <==> room < 0)
    && plan.diagnostics == if room < 0 then [OverBudgetMandatory(TokenSum(mandatory), InputBudget(budget))] else []
  }

  /** The plan keeps every mandatory segment and loses no raw candidate: included and omitted together
      are the raw candidates. It stays within the budget unless the mandatory segments alone exceed it,
      and then nothing else is included. */
  lemma PlanAccounts(candidates: seq<Segment>, budget: Budget, plan: Plan) returns (dropped: seq<Segment>)
    requires IsPlan(candidates, budget, plan)
    ensures plan.omitted == OmitAll(dropped)
    ensures multiset(plan.included) + multiset(dropped) == multiset(Raw(candidates))
    ensures Part(candidates, true) <= plan.included
    ensures if plan.overBudget then plan.included == Part(candidates, true) && plan.estimatedTokens > plan.inputBudget
            else plan.estimatedTokens <= plan.inputBudget
  {
    hide Ranked, Greedy, Select, Part, TokenSum, Raw, AtLeast, Peers, InRankOrder;
    var mandatory, optional := Part(candidates, true), Ranked(Part(candidates, false));
    var room := InputBudget(budget) - TokenSum(mandatory);
    var picks := Greedy(optional, room);
    dropped := Select(optional, picks, false);
    PartsMakeRaw(candidates);
    RankedIsStable(Part(candidates, false));
    SelectSplits(optional, picks);
    TokenSumAppend(mandatory, Select(optional, picks, true));
    if room < 0 {
      NoRoomNoChoice(optional, room);
      assert mandatory + [] == mandatory;
    } else {
      GreedyIsGreatest(optional, room, picks);
    }
  }

  // ----- the plan by kinds, priorities and numbers ---------------------------------------

  /** The optional kinds, the most wanted first. */
  const OPTIONAL_KINDS: seq<SegmentKind> :=
    [RecentHistory, Checkpoint, Memory, ToolResult, Artifact, OptionalInstruction]

  predicate MustStay(s: Segment) {
    s.kind in {System, CurrentUser}
  }

  /** `a` may stand in front of `b`: a higher priority, or the same and a kind that is not listed later. */
  predicate MayPrecede(a: Segment, b: Segment) {
    || a.priority > b.priority
    || (&& a.priority == b.priority
        && exists i, j :: 0 <= i <= j < 6 && OPTIONAL_KINDS[i] == a.kind && OPTIONAL_KINDS[j] == b.kind)
  }

  lemma RankIsListed(a: Segment, b: Segment)
    requires !MustStay(a) && !MustStay(b)
    ensures !Before(b, a) <==> MayPrecede(a, b)
  {
    var i :| 0 <= i < 6 && OPTIONAL_KINDS[i] == a.kind && i == KindRank(a.kind);
    var j :| 0 <= j < 6 && OPTIONAL_KINDS[j] == b.kind && j == KindRank(b.kind);
    assert forall x, y :: 0 <= x < 6 && 0 <= y < 6 && OPTIONAL_KINDS[x] == OPTIONAL_KINDS[y] ==> x == y;
  }

  lemma {:induction false} PartMembers(candidates: seq<Segment>, mandatory: bool)
    ensures forall s :: s in Part(candidates, mandatory) <==>
            s in candidates && s.transform == Included && MustStay(s) == mandatory
  {
    if candidates != [] {
      PartMembers(candidates[1..], mandatory);
      assert candidates == [candidates[0]] + candidates[1..];
    }
  }

  lemma {:induction false} SelectInOrder(segments: seq<Segment>, picks: seq<bool>, flag: bool)
    requires |picks| == |segments| && InRankOrder(segments)
    ensures InRankOrder(Select(segments, picks, flag))
    ensures forall s :: s in Select(segments, picks, flag) ==> s in segments
  {
    hide Before;
    if segments != [] {
      assert InRankOrder(segments[1..]) by {
        assert forall k :: 0 <= k < |segments| - 1 ==> segments[1..][k] == segments[k + 1];
      }
      SelectInOrder(segments[1..], picks[1..], flag);
      if picks[0] == flag {
        forall x | x in Select(segments[1..], picks[1..], flag) ensures !Before(x, segments[0]) {
          var k :| 0 <= k < |segments| - 1 && segments[1..][k] == x;
          assert segments[k + 1] == x;
        }
        HeadInOrder(segments[0], Select(segments[1..], picks[1..], flag));
      }
    }
  }

  /** What a plan is, by kinds, priorities and numbers. Every raw system segment and every raw message of the
      current user is included, and in front. Behind them stand optional ones only, by falling priority and
      within a priority in the order of the list of kinds. Unless the first alone are too many, tokens,
      reserved output and safety margin together stay within the window. */
  lemma PlanByKinds(candidates: seq<Segment>, budget: Budget, plan: Plan) returns (front: nat)
    requires IsPlan(candidates, budget, plan)
    ensures front <= |plan.included|
    ensures forall s :: s in candidates && s.transform == Included && MustStay(s) ==> s in plan.included[..front]
    ensures forall i :: 0 <= i < |plan.included| ==>
              && plan.included[i] in candidates && plan.included[i].transform == Included
              && (MustStay(plan.included[i]) <==> i < front)
    ensures forall i, j :: front <= i < j < |plan.included| ==> MayPrecede(plan.included[i], plan.included[j])
    ensures plan.overBudget <==>
            TokenSum(plan.included[..front]) + budget.reservedOutput + budget.safetyMargin > budget.window
    ensures !plan.overBudget ==> TokenSum(plan.included) + budget.reservedOutput + budget.safetyMargin <= budget.window
    ensures plan.inputBudget == budget.window - budget.reservedOutput - budget.safetyMargin
    ensures plan.estimatedTokens == TokenSum(plan.included)
    ensures plan.diagnostics ==
            if plan.overBudget then [OverBudgetMandatory(TokenSum(plan.included[..front]), plan.inputBudget)] else []
  {
    hide IsPlan, TokenSum, Part, MustStay, MayPrecede;
    var chosen := PlanParts(candidates, budget, plan);
    var mandatory := Part(candidates, true);
    PartMembers(candidates, true);
    PartMembers(candidates, false);
    front := |mandatory|;
    assert plan.included[..front] == mandatory;
    TwoParts(mandatory, chosen, candidates);
    PlanNumbers(candidates, budget, plan);
  }

  /** The chosen optional segments stand behind the mandatory ones. */
  lemma PlanParts(candidates: seq<Segment>, budget: Budget, plan: Plan) returns (chosen: seq<Segment>)
    requires IsPlan(candidates, budget, plan)
    ensures plan.included == Part(candidates, true) + chosen
    ensures forall s :: s in chosen ==> s in Part(candidates, false)
    ensures forall i, j :: 0 <= i < j < |chosen| ==> MayPrecede(chosen[i], chosen[j])
  {
    hide Ranked, Greedy, Select, TokenSum, Part, MayPrecede;
    var optional := Ranked(Part(candidates, false));
    var picks := Greedy(optional, InputBudget(budget) - TokenSum(Part(candidates, true)));
    chosen := Select(optional, picks, true);
    OptionalChosen(candidates, picks);
    assert chosen == Select(Ranked(Part(candidates, false)), picks, true);
  }

  lemma PlanNumbers(candidates: seq<Segment>, budget: Budget, plan: Plan)
    requires IsPlan(candidates, budget, plan)
    ensures plan.overBudget <==>
            TokenSum(Part(candidates, true)) + budget.reservedOutput + budget.safetyMargin > budget.window
    ensures !plan.overBudget ==> TokenSum(plan.included) + budget.reservedOutput + budget.safetyMargin <= budget.window
    ensures plan.inputBudget == budget.window - budget.reservedOutput - budget.safetyMargin
    ensures plan.estimatedTokens == TokenSum(plan.included)
    ensures plan.diagnostics ==
            if plan.overBudget then [OverBudgetMandatory(TokenSum(Part(candidates, true)), plan.inputBudget)] else []
  {
    hide Ranked, Greedy, Select, TokenSum, Part, Raw;
    var _ := PlanAccounts(candidates, budget, plan);
  }

  lemma TwoParts(a: seq<Segment>, b: seq<Segment>, candidates: seq<Segment>)
    requires forall s :: s in a ==> s in candidates && s.transform == Included && MustStay(s)
    requires forall s :: s in b ==> s in candidates && s.transform == Included && !MustStay(s)
    requires forall i, j :: 0 <= i < j < |b| ==> MayPrecede(b[i], b[j])
    ensures forall i :: 0 <= i < |a + b| ==>
              (a + b)[i] in candidates && (a + b)[i].transform == Included && (MustStay((a + b)[i]) <==> i < |a|)
    ensures forall i, j :: |a| <= i < j < |a + b| ==> MayPrecede((a + b)[i], (a + b)[j])
  {
    hide MustStay, MayPrecede;
    forall i | 0 <= i < |a + b| ensures (a + b)[i] == if i < |a| then a[i] else b[i - |a|] {
    }
  }

  lemma OptionalChosen(candidates: seq<Segment>, picks: seq<bool>)
    requires |picks| == |Ranked(Part(candidates, false))|
    ensures var chosen := Select(Ranked(Part(candidates, false)), picks, true);
            && (forall s :: s in chosen ==> s in Part(candidates, false))
            && (forall i, j :: 0 <= i < j < |chosen| ==> MayPrecede(chosen[i], chosen[j]))
  {
    hide Ranked, Select, Before, MustStay, MayPrecede, Part, Peers;
    var all := Part(candidates, false);
    var chosen := Select(Ranked(all), picks, true);
    RankedIsStable(all);
    SelectInOrder(Ranked(all), picks, true);
    PartMembers(candidates, false);
    forall s | s in chosen ensures s in all {
      assert s in multiset(Ranked(all));
    }
    forall i, j | 0 <= i < j < |chosen| ensures MayPrecede(chosen[i], chosen[j]) {
      assert chosen[i] in all && chosen[j] in all;
      RankIsListed(chosen[i], chosen[j]);
    }
  }

  /** Candidates of one priority and kind keep the order in which they came: among them the earlier one is
      included first. */
  lemma PeersByKind(a: Segment, b: Segment)
    requires !MustStay(a) && !MustStay(b)
    ensures SameRank(a, b) <==> a.priority == b.priority && a.kind == b.kind
  {
  }

  /** Tokens are summed one by one, and what is left out says so and is otherwise as it was. */
  lemma {:induction false} SumsAndOmissions(segments: seq<Segment>, s: Segment)
    ensures TokenSum([]) == 0 && TokenSum(segments + [s]) == TokenSum(segments) + s.tokens
    ensures Omit(s) ==
            Segment(s.kind, s.sourceIds, s.trustLevel, s.priority, s.tokens, Omitted, Some("exceeds_input_budget"))
  {
    TokenSumAppend(segments, [s]);
    assert [s][1..] == [];
  }

  method PlanContextSegments(candidates: seq<Segment>, budget: Budget) returns (plan: Plan)
    ensures IsPlan(candidates, budget, plan)
  {
    hide TokenSum, Ranked, Part, Select, Greedy, OmitAll;
    var inputBudget := InputBudget(budget);
    var mandatory, optional := Divide(candidates);
    var ordered := Ranked(optional);
    var diagnostics := [];
    var mandatoryTokens := TokenSum(mandatory);
    if mandatoryTokens > inputBudget {
      diagnostics := [OverBudgetMandatory(mandatoryTokens, inputBudget)];
    }
    var included, omitted := FillBudget(mandatory, ordered, inputBudget - mandatoryTokens);
    plan := Plan(included, omitted, diagnostics, inputBudget, TokenSum(included), mandatoryTokens > inputBudget);
  }

  /** The budget loop: one pass over the ranked segments with what remains of the budget. */
  method FillBudget(mandatory: seq<Segment>, ordered: seq<Segment>, room: int)
    returns (included: seq<Segment>, omitted: seq<Segment>)
    ensures included == mandatory + Select(ordered, Greedy(ordered, room), true)
    ensures omitted == OmitAll(Select(ordered, Greedy(ordered, room), false))
  {
    hide Select, OmitAll, Greedy;
    included, omitted := mandatory, [];
    var remaining := room;
    ghost var picks := Greedy(ordered, room);
    ghost var left := OmitAll(Select(ordered, picks, false));
    var i := 0;
    assert ordered[0..] == ordered && picks[0..] == picks;
    while i < |ordered|
      invariant 0 <= i <= |ordered|
      invariant picks[i..] == Greedy(ordered[i..], remaining)
      invariant included + Select(ordered[i..], picks[i..], true) == mandatory + Select(ordered, picks, true)
      invariant omitted + OmitAll(Select(ordered[i..], picks[i..], false)) == left
    {
      var segment := ordered[i];
      Advance(ordered, picks, i, remaining);
      if segment.tokens <= remaining {
        included := included + [segment];
        remaining := remaining - segment.tokens;
      } else {
        omitted := omitted + [Omit(segment)];
      }
      i := i + 1;
    }
    assert ordered[i..] == [] && picks[i..] == [];
    NothingLeft();
  }

  lemma NothingLeft()
    ensures Select([], [], true) == [] && OmitAll(Select([], [], false)) == []
  {
  }

  lemma Advance(ordered: seq<Segment>, picks: seq<bool>, i: nat, remaining: int)
    requires i < |ordered| == |picks| && picks[i..] == Greedy(ordered[i..], remaining)
    ensures picks[i] <==> ordered[i].tokens <= remaining
    ensures picks[i + 1..] == Greedy(ordered[i + 1..], if picks[i] then remaining - ordered[i].tokens else remaining)
    ensures Select(ordered[i..], picks[i..], true) == (if picks[i] then [ordered[i]] else [])
            + Select(ordered[i + 1..], picks[i + 1..], true)
    ensures OmitAll(Select(ordered[i..], picks[i..], false)) ==
            (if picks[i] then [] else [Omit(ordered[i])]) + OmitAll(Select(ordered[i + 1..], picks[i + 1..], false))
  {
    assert ordered[i..][1..] == ordered[i + 1..] && picks[i..][1..] == picks[i + 1..];
  }

  lemma PartStep(candidates: seq<Segment>, i: nat, mandatory: bool)
    requires i < |candidates|
    ensures Part(candidates[i..], mandatory) ==
            (if candidates[i].transform == Included && IsMandatory(candidates[i]) == mandatory
             then [candidates[i]] else [])
            + Part(candidates[i + 1..], mandatory)
  {
    assert candidates[i..][1..] == candidates[i + 1..];
  }

  lemma NoParts(mandatory: bool)
    ensures Part([], mandatory) == []
  {
  }

  method Divide(candidates: seq<Segment>) returns (mandatory: seq<Segment>, optional: seq<Segment>)
    ensures mandatory == Part(candidates, true) && optional == Part(candidates, false)
  {
    hide Part;
    mandatory, optional := [], [];
    var i := 0;
    assert candidates[0..] == candidates;
    while i < |candidates|
      invariant 0 <= i <= |candidates|
      invariant mandatory + Part(candidates[i..], true) == Part(candidates, true)
      invariant optional + Part(candidates[i..], false) == Part(candidates, false)
    {
      PartStep(candidates, i, true);
      PartStep(candidates, i, false);
      var segment := candidates[i];
      if segment.transform == Included {
        if IsMandatory(segment) {
          mandatory := mandatory + [segment];
        } else {
          optional := optional + [segment];
        }
      }
      i := i + 1;
    }
    assert candidates[i..] == [];
    NoParts(true);
    NoParts(false);
  }
}
