/** What the block about the children says: labels, times, texts and lines, letter by letter. */
module ChildContextSays {
  import opened Wrappers
  import opened Texts
  import opened Decimals
  import opened LineSplitter
  import opened ChildContext

  // ----- words ---------------------------------------------------------------------------

  /** The words with the gaps around and between them. */
  function Spread(gaps: seq<string>, words: seq<string>): string
    requires |gaps| == |words| + 1
  {
    if words == [] then gaps[0] else gaps[0] + words[0] + Spread(gaps[1..], words[1..])
  }

  /** Words stand between gaps of white space, and no two without one. */
  ghost predicate AreWords(gaps: seq<string>, words: seq<string>) {
    && |gaps| == |words| + 1
    && (forall k :: 0 <= k < |gaps| ==> Blank(gaps[k]) && (0 < k < |words| ==> gaps[k] != ""))
    && (forall k :: 0 <= k < |words| ==> words[k] != "" && NoSpace(words[k]))
  }

  /** Every text is its words with gaps of white space; none is lost. */
  lemma {:induction false} WordsAreAll(text: string) returns (gaps: seq<string>)
    ensures AreWords(gaps, Words(text)) && Spread(gaps, Words(text)) == text
    ensures text != "" && !IsSpace(text[0]) ==> gaps[0] == ""
    decreases |text|
  {
    if text == "" {
      gaps := [""];
    } else if IsSpace(text[0]) {
      var rest := WordsAreAll(text[1..]);
      gaps := rest[0 := [text[0]] + rest[0]];
      WiderGap(rest, Words(text[1..]), text[0]);
    } else {
      var n := WordLength(text);
      var rest := WordsAreAll(text[n..]);
      gaps := [""] + rest;
      WordEnds(text);
      assert text == text[..n] + text[n..];
      if n < |text| {
        FirstGap(rest, Words(text[n..]), text[n..]);
      } else {
        assert text[n..] == "" && Words("") == [];
      }
      OneWordMore(text[..n], rest, Words(text[n..]));
    }
  }

  lemma OneWordMore(word: string, gaps: seq<string>, words: seq<string>)
    requires AreWords(gaps, words) && word != "" && NoSpace(word) && (words != [] ==> gaps[0] != "")
    ensures AreWords([""] + gaps, [word] + words) && Spread([""] + gaps, [word] + words) == word + Spread(gaps, words)
  {
    assert ([""] + gaps)[1..] == gaps && ([word] + words)[1..] == words;
    assert "" + word == word;
  }

  lemma WiderGap(gaps: seq<string>, words: seq<string>, c: char)
    requires AreWords(gaps, words) && IsSpace(c)
    ensures var wider := gaps[0 := [c] + gaps[0]];
            AreWords(wider, words) && Spread(wider, words) == [c] + Spread(gaps, words)
  {
    var wider := gaps[0 := [c] + gaps[0]];
    assert wider[1..] == gaps[1..];
    assert forall i :: 0 < i < |wider[0]| ==> wider[0][i] == gaps[0][i - 1];
  }

  lemma {:induction false} WordEnds(text: string)
    ensures text != "" && !IsSpace(text[0]) ==> WordLength(text) > 0
    ensures WordLength(text) < |text| ==> IsSpace(text[WordLength(text)])
  {
    if text != "" && !IsSpace(text[0]) {
      WordEnds(text[1..]);
    }
  }

  /** A text that starts with white space has a first gap. */
  lemma FirstGap(gaps: seq<string>, words: seq<string>, text: string)
    requires AreWords(gaps, words) && Spread(gaps, words) == text && text != "" && IsSpace(text[0])
    ensures gaps[0] != ""
  {
    if words != [] {
      assert !IsSpace(words[0][0]);
    }
  }

  /** Words joined by blanks are read back as these words. */
  lemma {:induction false} WordsOfGlue(words: seq<string>)
    requires forall k :: 0 <= k < |words| ==> words[k] != "" && NoSpace(words[k])
    ensures Words(Glue(words, " ")) == words
  {
    if |words| == 1 {
      WordThenRest(words[0], "");
      assert words[0] + "" == words[0];
    } else if |words| > 1 {
      var rest := Glue(words[1..], " ");
      WordsOfGlue(words[1..]);
      WordThenRest(words[0], " " + rest);
      assert words[0] + " " + rest == words[0] + (" " + rest);
      assert (" " + rest)[1..] == rest;
    }
  }

  lemma WordThenRest(word: string, rest: string)
    requires word != "" && NoSpace(word) && (rest != "" ==> IsSpace(rest[0]))
    ensures Words(word + rest) == [word] + Words(rest)
  {
    WordLengthIs(word, rest);
    assert (word + rest)[0] == word[0] && (word + rest)[..|word|] == word && (word + rest)[|word|..] == rest;
  }

  lemma {:induction false} WordLengthIs(word: string, rest: string)
    requires NoSpace(word) && (rest != "" ==> IsSpace(rest[0]))
    ensures WordLength(word + rest) == |word|
  {
    if word == "" {
      assert word + rest == rest;
    } else {
      assert (word + rest)[1..] == word[1..] + rest;
      WordLengthIs(word[1..], rest);
    }
  }

  /** A text within the limit keeps all its words, with one blank between them; a longer one is cut at the
      limit and says so. */
  lemma TextSays(text: string, limit: int)
    ensures var shown, flat := TruncateChildText(text, limit), Glue(Words(text), " ");
            if limit <= 0 then shown == ""
            else if |flat| <= limit then shown == flat && Words(shown) == Words(text)
            else |shown| == limit + 1 && shown[..limit] == flat[..limit] && shown[limit] == '…'
  {
    var gaps := WordsAreAll(text);
    WordsOfGlue(Words(text));
  }

  // ----- labels and times ----------------------------------------------------------------

  /** Each state has its label and no other state has it. */
  lemma LabelSays(row: ChildRow, now: Option<int>)
    ensures StateLabel(row, now) == "已完成" <==> row.state == Completed
    ensures StateLabel(row, now) == "已失败" <==> row.state == Failed
    ensures StateLabel(row, now) == "已取消" <==> row.state == Cancelled
    ensures StateLabel(row, now) == "已中断" <==> row.state == Interrupted
    ensures StateLabel(row, now) == "排队中" <==> row.state == Running && row.started == Queued
    ensures row.state == Running && row.started.StartedAt? ==>
              StateLabel(row, now) == "运行中（已用时 " + ElapsedText(row.started.at, now) + "）"
  {
    var said := StateLabel(row, now);
    FirstLetters();
    if row.state == Running && row.started.StartedAt? {
      assert said[0] == "运行中（已用时 "[0];
    }
  }

  lemma FirstLetters()
    ensures "已完成"[1] == '完' && "已失败"[1] == '失' && "已取消"[1] == '取' && "已中断"[1] == '中' && "排队中"[1] == '队'
    ensures "运行中（已用时 "[0] == '运' && "已完成"[0] == '已' && "排队中"[0] == '排'
  {
  }

  /** The time since the start: whole hours and minutes from an hour on, minutes and seconds before, nothing
      below zero, and unknown if either time is. */
  lemma ElapsedSays(started: Option<int>, now: Option<int>) returns (hours: nat, minutes: nat, seconds: nat)
    ensures started == None || now == None ==> ElapsedText(started, now) == "已用时未知"
    ensures started.Some? && now.Some? ==>
              var micros := now.value - started.value;
              && minutes < 60 && seconds < 60
              && (micros <= 0 ==> hours == minutes == seconds == 0)
              && (micros >= 0 ==> var whole := hours * 3600 + minutes * 60 + seconds;
                                  whole * 1_000_000 <= micros < (whole + 1) * 1_000_000)
              && ElapsedText(started, now) ==
                 if hours > 0 then Numeral(hours) + " 小时 " + Numeral(minutes) + " 分"
                 else Numeral(minutes) + " 分 " + Numeral(seconds) + " 秒"
  {
    hours, minutes, seconds := 0, 0, 0;
    if started.Some? && now.Some? {
      var micros := now.value - started.value;
      var total := if micros < 0 then 0 else micros / 1_000_000;
      hours, minutes, seconds := total / 3600, total % 3600 / 60, total % 60;
      Clock(total);
      hide Numeral;
    }
  }

  lemma Clock(total: nat)
    ensures total == total / 3600 * 3600 + total % 3600 / 60 * 60 + total % 60
    ensures total % 3600 / 60 < 60 && (total < 3600 ==> total / 3600 == 0 && total / 60 == total % 3600 / 60)
    ensures total >= 3600 <==> total / 3600 > 0
  {
  }

  // ----- lines ---------------------------------------------------------------------------

  /** A running child is described by its task, another one by its summary, or else by its message. */
  lemma DetailSays(row: ChildRow, limit: int)
    ensures var (name, text) := if row.state == Running then ("任务：", row.task)
                              else if row.summary != "" then ("摘要：", row.summary) else ("说明：", row.safeMessage);
            var shown := TruncateChildText(text, limit);
            DetailText(row, limit) == if shown == "" then None else Some(name + shown)
  {
    NothingIsShown(limit);
  }

  lemma NothingIsShown(limit: int)
    ensures TruncateChildText("", limit) == ""
  {
  }

  lemma EntrySays(row: ChildRow, now: Option<int>, limit: int)
    ensures Entry(row, now, limit) ==
            "- " + row.id + " | " + StateLabel(row, now)
            + match DetailText(row, limit) { case None => "" case Some(detail) => " | " + detail }
  {
    hide StateLabel, DetailText;
    var said := StateLabel(row, now);
    match DetailText(row, limit)
    case None =>
      TwoGlued(row.id, said);
      assert [row.id, said] + [] == [row.id, said];
      assert "- " + (row.id + " | " + said) == "- " + row.id + " | " + said + "";
    case Some(detail) =>
      assert [row.id, said] + [detail] == [row.id, said, detail] && [row.id, said, detail][1..] == [said, detail];
      TwoGlued(said, detail);
      assert "- " + (row.id + " | " + (said + " | " + detail)) == "- " + row.id + " | " + said + (" | " + detail);
  }

  lemma TwoGlued(a: string, b: string)
    ensures Glue([a, b], " | ") == a + " | " + b
  {
    assert [a, b][1..] == [b];
  }

  /** Line by line, the block is its opening, the number of all children, one line for each child shown, the
      number of those that are not if there are any, and its closing. */
  lemma BlockSays(total: nat, kept: seq<ChildRow>, now: Option<int>, limit: int)
    requires |kept| <= total && PlainIds(kept)
    ensures var lines := Lines(RenderBlock(total, kept, now, limit));
            && |lines| == |kept| + 3 + (if |kept| < total then 1 else 0)
            && lines[0] == "<delegated-children>" && lines[1] == "你有 " + Numeral(total) + " 个子运行："
            && (forall k :: 0 <= k < |kept| ==> lines[2 + k] == Entry(kept[k], now, limit))
            && (|kept| < total ==> lines[|kept| + 2] == "（还有 " + Numeral(total - |kept|) + " 个未列出）")
            && lines[|lines| - 1] == "</delegated-children>"
  {
    hide Entry, Numeral, Lines, RenderBlock;
    BlockReadsBack(total, kept, now, limit);
  }
}
