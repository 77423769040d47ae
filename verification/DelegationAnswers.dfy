/** Exactly what a query and a cancel call answer. */
module DelegationAnswers {
  import opened Wrappers
  import opened Texts
  import opened Delegation
  import opened DelegationInvariants
  import opened DelegationSteps
  import opened DelegationTheorems
  import opened DelegationEndings

  // ----- whose child it is ---------------------------------------------------------------

  /** The coordinator's conversation has this child: conversations decide if both are known, and else the
      parent runs. */
  predicate Visible(co: Coordinator, store: Store, id: RunId) {
    && id in store
    && (co.conversation != "" && store[id].conversation != "" ==> co.conversation == store[id].conversation)
    && (co.conversation == "" || store[id].conversation == "" ==> co.parent == store[id].parent)
  }

  lemma MemoryIsVisible(w: World, d: nat, id: RunId)
    requires Inv(w) && d < |w.coordinators| && FindRecord(w.coordinators[d].children, id) < |w.coordinators[d].children|
    ensures Visible(w.coordinators[d], w.store, id) && w.store[id].Terminal()
    ensures var co := w.coordinators[d];
            Shown(co.children[FindRecord(co.children, id)].outcome) == ShownRow(w.store[id])
  {
    hide Inv, OwnsRow, ShownRow, Shown;
    var r := w.coordinators[d].children[FindRecord(w.coordinators[d].children, id)];
    MemoryIsCompleted(w, d, r);
    RecordedFacts(w, d, r);
    RowReadsBack(w.store[id], r.outcome);
    OwnRow(w, d, r);
  }

  lemma OwnRow(w: World, d: nat, r: Record)
    requires Inv(w) && d < |w.coordinators| && r in w.coordinators[d].completed
    ensures Visible(w.coordinators[d], w.store, r.id)
  {
    InvRecords(w, d);
    hide Inv;
    assert RecordOk(r, d, w.tasks, w.store);
    assert TaskOk(w.coordinators, w.tasks[r.id], w.store[r.id]);
  }

  /** For every run, coordinator and child: a query knows no such child if and only if its conversation has
      none, it finds one still running if and only if its row is, and any other is answered by its row,
      whether it is in memory or not. */
  lemma QueryExactly(run: seq<World>, i: nat, d: nat, id: RunId)
    requires IsRun(run) && i < |run| && d < |run[i].coordinators|
    ensures var w := run[i]; var co := w.coordinators[d];
            && (Query(w, d, id) == NoSuchChild <==> !Visible(co, w.store, id))
            && (Query(w, d, id) == StillRunning <==> Visible(co, w.store, id) && w.store[id].state == Running)
            && (Visible(co, w.store, id) && w.store[id].state != Running ==> Query(w, d, id) == ShownRow(w.store[id]))
  {
    hide Inv;
    RunInv(run, i);
    var w := run[i];
    RowIsReply(w.store, id);
    hide ShownRow, Shown;
    if FindRecord(w.coordinators[d].children, id) < |w.coordinators[d].children| {
      MemoryIsVisible(w, d, id);
    }
  }

  lemma RowIsReply(store: Store, id: RunId)
    ensures id in store && store[id].Terminal() ==> ShownRow(store[id]).Reply? || ShownRow(store[id]) == Unrepresentable
  {
    hide RequireText, RequireDiagnostic;
  }

  /** Another conversation's child is unknown, whatever is in memory. */
  lemma OthersAreUnknown(run: seq<World>, i: nat, d: nat, id: RunId)
    requires IsRun(run) && i < |run| && d < |run[i].coordinators| && id in run[i].store
    requires var mine, other := run[i].coordinators[d].conversation, run[i].store[id].conversation;
             mine != "" && other != "" && mine != other
    ensures Query(run[i], d, id) == NoSuchChild
  {
    QueryExactly(run, i, d, id);
  }

  /** What a settled row says: its state - an interrupted child counts as failed -, its summary trimmed, its
      usage, and a diagnostic if it has a code or a message, with the other one filled in. */
  lemma RowSays(row: Row)
    requires row.Terminal() && ShownRow(row).Reply?
    ensures var r := ShownRow(row);
            && (r.status == StatusCompleted <==> row.state == Completed)
            && (r.status == StatusCancelled <==> row.state == Cancelled)
            && (r.status == StatusFailed <==> row.state == Failed || row.state == Interrupted)
            && row.summary.Some? && r.summary == Strip(row.summary.value) && r.usage == row.usage
            && (r.diagnostic == None <==> Absent(row.errorCode) && Absent(row.safeMessage))
            && (r.diagnostic.Some? ==>
                  && r.diagnostic.value.code ==
                     Strip(if Absent(row.errorCode) then "delegation_child_failed" else row.errorCode.value)
                  && r.diagnostic.value.safeMessage ==
                     Strip(if Absent(row.safeMessage) then "子运行未能完成。" else row.safeMessage.value))
  {
    NothingFails(MAX_SUMMARY);
    hide Strip;
  }

  /** Which settled rows have an answer: those with a summary, and with a code and a message if they have
      either, that are not blank and not too long without their outer white space. */
  lemma RowAnswers(row: Row)
    requires row.Terminal()
    ensures ShownRow(row).Reply? <==>
            && row.summary.Some? && 1 <= |Strip(row.summary.value)| <= 20_000
            && (!Absent(row.errorCode) || !Absent(row.safeMessage) ==>
                  && (Absent(row.errorCode) || 1 <= |Strip(row.errorCode.value)| <= 256)
                  && (Absent(row.safeMessage) || 1 <= |Strip(row.safeMessage.value)| <= 2_048))
  {
    NothingFails(MAX_SUMMARY);
    DefaultsPass();
    hide Strip;
  }

  lemma DefaultsPass()
    ensures 1 <= |Strip("delegation_child_failed")| <= 256 && 1 <= |Strip("子运行未能完成。")| <= 2_048
  {
    assert !IsSpace("delegation_child_failed"[0]) && !IsSpace("子运行未能完成。"[0]);
  }

  predicate Absent(text: Option<string>) {
    text == None || text.value == ""
  }
}
