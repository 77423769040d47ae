/** The `<delegated-children>` block that tells a parent conversation about its children: which rows it
    shows, that it stays within its caps, and which rows may be stamped as shown. */
module ChildContext {
  import opened Wrappers
  import opened Texts
  import opened Decimals
  import opened LineSplitter

  const DEFAULT_MAX_CHILDREN: int := 20
  const DEFAULT_MAX_SUMMARY_CHARACTERS: int := 200
  const DEFAULT_MAX_TOTAL_CHARACTERS: int := 4000

  datatype ChildState = Running | Completed | Failed | Cancelled | Interrupted

  /** Not started yet, or started at an instant in microseconds; None when the stored text is no timestamp. */
  datatype Start = Queued | StartedAt(at: Option<int>)

  datatype ChildRow = ChildRow(id: string, state: ChildState, task: string, summary: string, safeMessage: string,
                               started: Start, injected: bool)

  predicate Terminal(row: ChildRow) {
    !row.state.Running?
  }

  // ----- text ----------------------------------------------------------------------------

  predicate NoSpace(s: string) {
    forall i :: 0 <= i < |s| ==> !IsSpace(s[i])
  }

  function WordLength(text: string): (n: nat)
    ensures n <= |text| && NoSpace(text[..n])
    ensures text != "" && !IsSpace(text[0]) ==> n > 0
  {
    if text == "" || IsSpace(text[0]) then 0
    else
      var n := 1 + WordLength(text[1..]);
      assert text[..n] == [text[0]] + text[1..][..n - 1];
      n
  }

  function Words(text: string): (words: seq<string>)
    ensures forall k :: 0 <= k < |words| ==> NoSpace(words[k])
    decreases |text|
  {
    if text == "" then []
    else if IsSpace(text[0]) then Words(text[1..])
    else [text[..WordLength(text)]] + Words(text[WordLength(text)..])
  }

  function Glue(parts: seq<string>, glue: string): string {
    if parts == [] then "" else if |parts| == 1 then parts[0] else parts[0] + glue + Glue(parts[1..], glue)
  }

  function TruncateChildText(text: string, limit: int): string {
    var flattened := Glue(Words(text), " ");
    if limit <= 0 then ""
    else if |flattened| <= limit then flattened
    else flattened[..limit] + "…"
  }

  lemma {:induction false} GlueBoundaryFree(parts: seq<string>, glue: string)
    requires BoundaryFree(glue) && forall k :: 0 <= k < |parts| ==> BoundaryFree(parts[k])
    ensures BoundaryFree(Glue(parts, glue))
  {
    hide IsBoundary;
    if |parts| > 1 {
      GlueBoundaryFree(parts[1..], glue);
    }
  }

  /** A shown text is one line and not longer than its limit and the ellipsis. */
  lemma TruncatedText(text: string, limit: int)
    ensures BoundaryFree(TruncateChildText(text, limit))
    ensures limit > 0 ==> |TruncateChildText(text, limit)| <= limit + 1
  {
    var words := Words(text);
    forall k | 0 <= k < |words| ensures BoundaryFree(words[k]) {
      SpaceFreeIsBoundaryFree(words[k]);
    }
    GlueBoundaryFree(words, " ");
    assert BoundaryFree("…");
  }

  lemma SpaceFreeIsBoundaryFree(s: string)
    requires NoSpace(s)
    ensures BoundaryFree(s)
  {
    forall i | 0 <= i < |s| ensures !IsBoundary(s[i]) {
      assert !IsSpace(s[i]);
    }
  }

  // ----- one row, one line ---------------------------------------------------------------

  function ElapsedText(started: Option<int>, now: Option<int>): string {
    if started == None || now == None then "已用时未知"
    else
      var micros := now.value - started.value;
      var seconds := if micros < 0 then 0 else micros / 1_000_000;
      if seconds >= 3600 then Numeral(seconds / 3600) + " 小时 " + Numeral((seconds % 3600) / 60) + " 分"
      else Numeral(seconds / 60) + " 分 " + Numeral(seconds % 60) + " 秒"
  }

  function StateLabel(row: ChildRow, now: Option<int>): string {
    match row.state
    case Running =>
      if row.started.Queued? then "排队中" else "运行中（已用时 " + ElapsedText(row.started.at, now) + "）"
    case Completed => "已完成"
    case Failed => "已失败"
    case Cancelled => "已取消"
    case Interrupted => "已中断"
  }

  function DetailText(row: ChildRow, limit: int): Option<string> {
    if row.state.Running? then Labelled("任务：", TruncateChildText(row.task, limit))
    else if row.summary != "" then Labelled("摘要：", TruncateChildText(row.summary, limit))
    else if row.safeMessage != "" then Labelled("说明：", TruncateChildText(row.safeMessage, limit))
    else None
  }

  function Labelled(name: string, text: string): Option<string> {
    if text == "" then None else Some(name + text)
  }

  function Entry(row: ChildRow, now: Option<int>, limit: int): string {
    var detail := DetailText(row, limit);
    "- " + Glue([row.id, StateLabel(row, now)] + (if detail == None then [] else [detail.value]), " | ")
  }

  function Entries(rows: seq<ChildRow>, now: Option<int>, limit: int): (lines: seq<string>)
    ensures |lines| == |rows| && forall k :: 0 <= k < |rows| ==> lines[k] == Entry(rows[k], now, limit)
  {
    if rows == [] then [] else [Entry(rows[0], now, limit)] + Entries(rows[1..], now, limit)
  }

  function HiddenLine(hidden: nat): seq<string> {
    if hidden == 0 then [] else ["（还有 " + Numeral(hidden) + " 个未列出）"]
  }

  /** The lines of the block that shows `kept` out of `total` rows. */
  function BlockLines(total: nat, kept: seq<ChildRow>, now: Option<int>, limit: int): seq<string>
    requires |kept| <= total
  {
    ["<delegated-children>", "你有 " + Numeral(total) + " 个子运行："]
    + Entries(kept, now, limit) + HiddenLine(total - |kept|) + ["</delegated-children>"]
  }

  function RenderBlock(total: nat, kept: seq<ChildRow>, now: Option<int>, limit: int): string
    requires |kept| <= total
  {
    JoinLines(BlockLines(total, kept, now, limit))
  }

  lemma {:induction false} NumeralBoundaryFree(n: nat)
    ensures BoundaryFree(Numeral(n))
  {
    var s := Numeral(n);
    forall i | 0 <= i < |s| ensures !IsBoundary(s[i]) {
      assert IsDigit(s[i]);
    }
  }

  lemma ConcatBoundaryFree(a: string, b: string)
    requires BoundaryFree(a) && BoundaryFree(b)
    ensures BoundaryFree(a + b)
  {
    hide IsBoundary;
  }

  lemma ElapsedBoundaryFree(started: Option<int>, now: Option<int>)
    ensures BoundaryFree(ElapsedText(started, now))
  {
    assert BoundaryFree("已用时未知") && BoundaryFree(" 小时 ") && BoundaryFree(" 分") && BoundaryFree(" 分 ")
        && BoundaryFree(" 秒");
    hide BoundaryFree;
    if started != None && now != None {
      var micros := now.value - started.value;
      var seconds := if micros < 0 then 0 else micros / 1_000_000;
      if seconds >= 3600 {
        ClockText(seconds / 3600, " 小时 ", (seconds % 3600) / 60, " 分");
      } else {
        ClockText(seconds / 60, " 分 ", seconds % 60, " 秒");
      }
    }
  }

  lemma ClockText(a: nat, x: string, b: nat, y: string)
    requires BoundaryFree(x) && BoundaryFree(y)
    ensures BoundaryFree(Numeral(a) + x + Numeral(b) + y)
  {
    hide BoundaryFree;
    NumeralBoundaryFree(a);
    NumeralBoundaryFree(b);
    ConcatBoundaryFree(Numeral(a), x);
    ConcatBoundaryFree(Numeral(a) + x, Numeral(b));
    ConcatBoundaryFree(Numeral(a) + x + Numeral(b), y);
  }

  lemma LabelBoundaryFree(row: ChildRow, now: Option<int>)
    ensures BoundaryFree(StateLabel(row, now))
  {
    assert BoundaryFree("排队中") && BoundaryFree("运行中（已用时 ") && BoundaryFree("）") && BoundaryFree("已完成")
        && BoundaryFree("已失败") && BoundaryFree("已取消") && BoundaryFree("已中断");
    hide BoundaryFree;
    if row.state.Running? && row.started.StartedAt? {
      ElapsedBoundaryFree(row.started.at, now);
      ConcatBoundaryFree("运行中（已用时 ", ElapsedText(row.started.at, now));
      ConcatBoundaryFree("运行中（已用时 " + ElapsedText(row.started.at, now), "）");
    }
  }

  lemma DetailBoundaryFree(row: ChildRow, limit: int)
    ensures DetailText(row, limit).Some? ==> BoundaryFree(DetailText(row, limit).value)
  {
    assert BoundaryFree("任务：") && BoundaryFree("摘要：") && BoundaryFree("说明：");
    hide BoundaryFree, TruncateChildText;
    TruncatedText(row.task, limit);
    TruncatedText(row.summary, limit);
    TruncatedText(row.safeMessage, limit);
    ConcatBoundaryFree("任务：", TruncateChildText(row.task, limit));
    ConcatBoundaryFree("摘要：", TruncateChildText(row.summary, limit));
    ConcatBoundaryFree("说明：", TruncateChildText(row.safeMessage, limit));
  }

  lemma EntryBoundaryFree(row: ChildRow, now: Option<int>, limit: int)
    requires BoundaryFree(row.id)
    ensures BoundaryFree(Entry(row, now, limit))
  {
    assert BoundaryFree("- ") && BoundaryFree(" | ");
    hide BoundaryFree, StateLabel, DetailText;
    LabelBoundaryFree(row, now);
    DetailBoundaryFree(row, limit);
    var detail := DetailText(row, limit);
    var parts := [row.id, StateLabel(row, now)] + (if detail == None then [] else [detail.value]);
    GlueBoundaryFree(parts, " | ");
    ConcatBoundaryFree("- ", Glue(parts, " | "));
  }

  predicate PlainIds(rows: seq<ChildRow>) {
    forall k :: 0 <= k < |rows| ==> BoundaryFree(rows[k].id)
  }

  lemma CountLines(total: nat, hidden: nat)
    ensures BoundaryFree("你有 " + Numeral(total) + " 个子运行：")
    ensures forall k :: 0 <= k < |HiddenLine(hidden)| ==> BoundaryFree(HiddenLine(hidden)[k])
  {
    assert BoundaryFree("你有 ") && BoundaryFree(" 个子运行：") && BoundaryFree("（还有 ") && BoundaryFree(" 个未列出）");
    hide BoundaryFree;
    NumeralBoundaryFree(total);
    NumeralBoundaryFree(hidden);
    ConcatBoundaryFree("你有 ", Numeral(total));
    ConcatBoundaryFree("你有 " + Numeral(total), " 个子运行：");
    ConcatBoundaryFree("（还有 ", Numeral(hidden));
    ConcatBoundaryFree("（还有 " + Numeral(hidden), " 个未列出）");
  }

  /** Read line by line the block is its opening, the count of all rows, one line for each row shown, the
      count of the rows not shown if there are any, and its closing: no text can add or split a line. */
  lemma BlockReadsBack(total: nat, kept: seq<ChildRow>, now: Option<int>, limit: int)
    requires |kept| <= total && PlainIds(kept)
    ensures Lines(RenderBlock(total, kept, now, limit)) == BlockLines(total, kept, now, limit)
  {
    hide BoundaryFree, HiddenLine, Entries, Lines, JoinLines;
    var entries, hidden := Entries(kept, now, limit), HiddenLine(total - |kept|);
    var head := ["<delegated-children>", "你有 " + Numeral(total) + " 个子运行："];
    Tags();
    CountLines(total, total - |kept|);
    forall k | 0 <= k < |entries| ensures BoundaryFree(entries[k]) {
      EntryBoundaryFree(kept[k], now, limit);
    }
    hide Numeral;
    AppendBoundaryFree(head, entries);
    AppendBoundaryFree(head + entries, hidden);
    AppendBoundaryFree(head + entries + hidden, ["</delegated-children>"]);
    JoinThenSplit(BlockLines(total, kept, now, limit));
  }

  lemma Tags()
    ensures BoundaryFree("<delegated-children>") && BoundaryFree("</delegated-children>")
  {
  }

  lemma AppendBoundaryFree(a: seq<string>, b: seq<string>)
    requires forall k :: 0 <= k < |a| ==> BoundaryFree(a[k])
    requires forall k :: 0 <= k < |b| ==> BoundaryFree(b[k])
    ensures forall k :: 0 <= k < |a + b| ==> BoundaryFree((a + b)[k])
  {
    hide BoundaryFree;
  }
}
