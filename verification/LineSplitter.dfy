/** Splitting a text into lines the way Python's `str.splitlines` does. */
module LineSplitter {

  predicate IsBoundary(c: char) {
    || c == '\n' || c == '\r' || c == '\U{0B}' || c == '\U{0C}' || c == '\U{1C}' || c == '\U{1D}' || c == '\U{1E}'
    || c == '\U{85}' || c == '\U{2028}' || c == '\U{2029}'
  }

  predicate BoundaryFree(s: string) {
    forall i :: 0 <= i < |s| ==> !IsBoundary(s[i])
  }

  /** A line terminator: one boundary character, or CR LF together. */
  predicate IsTerminator(s: string) {
    s == "\r\n" || (|s| == 1 && IsBoundary(s[0]))
  }

  /** All that ends a line: CR LF, LF, CR, vertical tab, form feed, file, group and record separator, next
      line, and the line and paragraph separators of Unicode. */
  const TERMINATORS: seq<string> :=
    ["\r\n", "\n", "\r", "\U{0B}", "\U{0C}", "\U{1C}", "\U{1D}", "\U{1E}", "\U{85}", "\U{2028}", "\U{2029}"]

  lemma TerminatorsExactly(s: string)
    ensures IsTerminator(s) <==> s in TERMINATORS
    ensures BoundaryFree(s) <==> forall i :: 0 <= i < |s| ==> [s[i]] !in TERMINATORS
  {
    forall c: char ensures IsBoundary(c) <==> [c] in TERMINATORS {
      Listed(c);
    }
    if |s| == 1 {
      assert s == [s[0]];
    } else if s in TERMINATORS {
      var k :| 0 <= k < 11 && TERMINATORS[k] == s;
      assert k == 0;
    }
  }

  lemma Listed(c: char)
    ensures IsBoundary(c) <==> [c] in TERMINATORS
  {
    assert TERMINATORS[1] == ['\n'] && TERMINATORS[2] == ['\r'] && TERMINATORS[3] == ['\U{0B}']
        && TERMINATORS[4] == ['\U{0C}'];
    assert TERMINATORS[5] == ['\U{1C}'] && TERMINATORS[6] == ['\U{1D}'] && TERMINATORS[7] == ['\U{1E}'];
    assert TERMINATORS[8] == ['\U{85}'] && TERMINATORS[9] == ['\U{2028}'] && TERMINATORS[10] == ['\U{2029}'];
    if [c] in TERMINATORS {
      var k :| 0 <= k < 11 && TERMINATORS[k] == [c];
      assert TERMINATORS[k][0] == c;
    }
    if IsBoundary(c) {
      assert exists k :: 1 <= k < 11 && TERMINATORS[k][0] == c;
      var k :| 1 <= k < 11 && TERMINATORS[k][0] == c;
      assert TERMINATORS[k] == [c];
    }
  }

  function Interleave(lines: seq<string>, ends: seq<string>): string
    requires |lines| == |ends|
  {
    if lines == [] then "" else lines[0] + ends[0] + Interleave(lines[1..], ends[1..])
  }

  /** `lines`, each followed by its terminator, make up `text`. Lines hold no boundary character, only
      the last line may lack a terminator and is then not empty, and a CR is never parted from the LF
      that follows it. */
  ghost predicate IsSplit(text: string, lines: seq<string>, ends: seq<string>) {
    && |lines| == |ends|
    && Interleave(lines, ends) == text
    && (forall k :: 0 <= k < |lines| ==> BoundaryFree(lines[k]))
    && (forall k :: 0 <= k < |lines| ==> IsTerminator(ends[k]) || (k == |lines| - 1 && ends[k] == "" && lines[k] != ""))
    && (forall k :: 0 <= k < |lines| - 1 && ends[k] == "\r" ==> lines[k + 1] != "" || ends[k + 1][0] != '\n')
  }

  function LineLength(text: string): (n: nat)
    ensures n <= |text| && BoundaryFree(text[..n])
    ensures n < |text| ==> IsBoundary(text[n])
  {
    if text == "" || IsBoundary(text[0]) then 0
    else
      var n := 1 + LineLength(text[1..]);
      assert text[1..][..n - 1] == text[..n][1..];
      n
  }

  /** How many characters terminate the line that ends at `i`. */
  function TerminatorLength(text: string, i: nat): (n: nat)
    requires i <= |text|
    ensures i + n <= |text|
  {
    if i == |text| then 0
    else if text[i] == '\r' && i + 1 < |text| && text[i + 1] == '\n' then 2
    else if IsBoundary(text[i]) then 1
    else 0
  }

  /** The lines of a text, one after the other. */
  function Lines(text: string): seq<string>
    decreases |text|
  {
    if text == "" then []
    else
      var n := LineLength(text);
      [text[..n]] + Lines(text[n + TerminatorLength(text, n)..])
  }

  function Ends(text: string): seq<string>
    decreases |text|
  {
    if text == "" then []
    else
      var n := LineLength(text);
      var m := TerminatorLength(text, n);
      [text[n..n + m]] + Ends(text[n + m..])
  }

  lemma OneLine(text: string, n: nat)
    requires text != "" && LineLength(text) == n
    ensures Lines(text) == [text[..n]] + Lines(text[n + TerminatorLength(text, n)..])
    ensures Ends(text) == [text[n..n + TerminatorLength(text, n)]] + Ends(text[n + TerminatorLength(text, n)..])
  {
    hide IsBoundary;
  }

  /** Putting one more line in front of a split. */
  lemma SplitCons(line: string, end: string, rest: string, lines: seq<string>, ends: seq<string>)
    requires IsSplit(rest, lines, ends) && BoundaryFree(line)
    requires IsTerminator(end) || (end == "" && line != "" && lines == [])
    requires end == "\r" ==> rest == "" || rest[0] != '\n'
    ensures IsSplit(line + end + rest, [line] + lines, [end] + ends)
  {
    hide IsBoundary, BoundaryFree;
    var all, allEnds := [line] + lines, [end] + ends;
    assert all[1..] == lines && allEnds[1..] == ends;
    if lines != [] {
      assert rest == lines[0] + ends[0] + Interleave(lines[1..], ends[1..]);
      assert lines[0] == "" ==> rest[0] == ends[0][0];
    }
  }

  /** What stands between the first line and the rest. */
  lemma FirstTerminator(text: string)
    requires text != ""
    ensures var n := LineLength(text);
            var end, rest := text[n..n + TerminatorLength(text, n)], text[n + TerminatorLength(text, n)..];
            && text == text[..n] + end + rest
            && (IsTerminator(end) || (end == "" && text[..n] != "" && rest == ""))
            && (end == "\r" ==> rest == "" || rest[0] != '\n')
            && |rest| < |text|
  {
    var n := LineLength(text);
    hide LineLength;
    if n < |text| {
      assert IsBoundary(text[n]);
      hide IsBoundary;
    }
  }

  /** The lines of a text are a split of it. */
  lemma {:induction false} LinesAreSplit(text: string)
    ensures IsSplit(text, Lines(text), Ends(text))
    decreases |text|
  {
    hide IsSplit, IsBoundary, TerminatorLength, IsTerminator, LineLength, BoundaryFree;
    if text == "" {
      assert IsSplit(text, Lines(text), Ends(text)) by { EmptySplit(); }
    } else {
      var n := LineLength(text);
      var m := TerminatorLength(text, n);
      var rest := text[n + m..];
      FirstTerminator(text);
      LinesAreSplit(rest);
      SplitCons(text[..n], text[n..n + m], rest, Lines(rest), Ends(rest));
    }
  }

  lemma EmptySplit()
    ensures IsSplit("", [], [])
  {
  }

  /** The first line of any split is the text up to the first boundary. */
  lemma FirstLine(text: string, lines: seq<string>, ends: seq<string>)
    requires IsSplit(text, lines, ends) && lines != []
    ensures text != "" && lines[0] == text[..LineLength(text)]
    ensures ends[0] == text[|lines[0]|..|lines[0]| + TerminatorLength(text, |lines[0]|)]
    ensures text[|lines[0]| + |ends[0]|..] == Interleave(lines[1..], ends[1..])
  {
    var n := |lines[0]|;
    var rest := Interleave(lines[1..], ends[1..]);
    assert text == lines[0] + ends[0] + rest;
    assert forall i :: 0 <= i < n ==> text[i] == lines[0][i];
    LineLengthIs(text, n);
    if ends[0] == "\r" && |lines| > 1 {
      assert rest == lines[1] + ends[1] + Interleave(lines[1..][1..], ends[1..][1..]);
      assert rest[0] == text[n + 1];
      assert rest[0] != '\n';
    }
  }

  lemma {:induction false} LineLengthIs(text: string, n: nat)
    requires n <= |text| && (forall i :: 0 <= i < n ==> !IsBoundary(text[i])) && (n < |text| ==> IsBoundary(text[n]))
    ensures LineLength(text) == n
  {
    if n > 0 {
      LineLengthIs(text[1..], n - 1);
    }
  }

  lemma SplitTail(text: string, lines: seq<string>, ends: seq<string>)
    requires IsSplit(text, lines, ends) && lines != []
    ensures |lines| == |ends| && IsSplit(Interleave(lines[1..], ends[1..]), lines[1..], ends[1..])
  {
    hide BoundaryFree, IsTerminator, Interleave;
  }

  /** There is no other split: a text has exactly one list of lines. */
  lemma {:induction false} SplitIsUnique(text: string, lines: seq<string>, ends: seq<string>)
    requires IsSplit(text, lines, ends)
    ensures lines == Lines(text) && ends == Ends(text)
    decreases |lines|
  {
    hide IsSplit, IsBoundary, TerminatorLength, LineLength, Lines, Ends, Interleave;
    if lines == [] {
      NoLines(text, ends);
    } else {
      FirstLine(text, lines, ends);
      SplitTail(text, lines, ends);
      OneLine(text, |lines[0]|);
      SplitIsUnique(Interleave(lines[1..], ends[1..]), lines[1..], ends[1..]);
      assert lines == [lines[0]] + lines[1..] && ends == [ends[0]] + ends[1..];
    }
  }

  lemma NoLines(text: string, ends: seq<string>)
    requires IsSplit(text, [], ends)
    ensures text == "" && ends == [] && Lines(text) == [] && Ends(text) == []
  {
  }

  /** The line that starts at `start` and ends at the boundary `i`, cut off. */
  lemma CutLine(text: string, start: nat, i: nat)
    requires start <= i < |text| && IsBoundary(text[i])
    requires forall k :: start <= k < i ==> !IsBoundary(text[k])
    ensures Lines(text[start..]) == [text[start..i]] + Lines(text[i + TerminatorLength(text, i)..])
  {
    hide Lines, LineLength, TerminatorLength;
    var rest := text[start..];
    LineLengthIs(rest, i - start);
    SameTerminator(text, start, i);
    hide IsBoundary;
    OneLine(rest, i - start);
    assert rest[..i - start] == text[start..i];
    assert rest[i - start + TerminatorLength(text, i)..] == text[i + TerminatorLength(text, i)..];
  }

  lemma SameTerminator(text: string, start: nat, i: nat)
    requires start <= i <= |text|
    ensures TerminatorLength(text[start..], i - start) == TerminatorLength(text, i)
  {
    hide IsBoundary;
  }

  /** The line that is left when the text ends. */
  lemma LastLine(text: string, start: nat)
    requires start <= |text| && forall k :: start <= k < |text| ==> !IsBoundary(text[k])
    ensures Lines(text[start..]) == if start < |text| then [text[start..]] else []
  {
    if start < |text| {
      var rest := text[start..];
      LineLengthIs(rest, |rest|);
      assert rest[..|rest|] == rest && rest[|rest|..] == "";
    }
  }

  /** The hand-written loop: one pass with the start of the current line and a cursor. */
  method SplitLines(text: string) returns (out: seq<string>)
    ensures out == Lines(text)
  {
    hide Lines;
    out := [];
    var start, i := 0, 0;
    assert text[0..] == text;
    while i < |text|
      invariant 0 <= start <= i <= |text|
      invariant forall k :: start <= k < i ==> !IsBoundary(text[k])
      invariant Lines(text) == out + Lines(text[start..])
    {
      var c := text[i];
      var boundary: nat;
      if c == '\r' {
        boundary := if i + 1 < |text| && text[i + 1] == '\n' then 2 else 1;
      } else {
        boundary := if IsBoundary(c) then 1 else 0;
      }
      if boundary > 0 {
        CutLine(text, start, i);
        out := out + [text[start..i]];
        i := i + boundary;
        start := i;
      } else {
        i := i + 1;
      }
    }
    LastLine(text, start);
    if start < |text| {
      out := out + [text[start..]];
    }
  }

  /** Texts joined by line feeds. */
  function JoinLines(lines: seq<string>): string {
    if lines == [] then "" else if |lines| == 1 then lines[0] else lines[0] + "\n" + JoinLines(lines[1..])
  }

  /** A line feed terminates by itself. */
  lemma LineFeedAlone(text: string, n: nat)
    requires n < |text| && text[n] == '\n'
    ensures TerminatorLength(text, n) == 1
  {
  }

  /** Joining lines and splitting again gives the lines back, unless the last one is empty. */
  lemma {:induction false} JoinThenSplit(lines: seq<string>)
    requires forall k :: 0 <= k < |lines| ==> BoundaryFree(lines[k])
    requires lines != [] && lines[|lines| - 1] != ""
    ensures Lines(JoinLines(lines)) == lines
    decreases |lines|
  {
    hide Lines, BoundaryFree;
    if |lines| > 1 {
      JoinThenSplit(lines[1..]);
      LineThenRest(lines[0], JoinLines(lines[1..]));
    } else {
      SoleLine(lines[0]);
    }
  }

  lemma LineThenRest(line: string, rest: string)
    requires BoundaryFree(line)
    ensures Lines(line + "\n" + rest) == [line] + Lines(rest)
  {
    var text, n := line + "\n" + rest, |line|;
    hide Lines, TerminatorLength;
    assert forall i :: 0 <= i < n ==> text[i] == line[i];
    assert IsBoundary('\n');
    CutLine(text, 0, n);
    LineFeedAlone(text, n);
    assert text[0..] == text && text[0..n] == line && text[n + 1..] == rest;
  }

  lemma SoleLine(line: string)
    requires BoundaryFree(line) && line != ""
    ensures Lines(line) == [line]
  {
    hide Lines;
    LastLine(line, 0);
    assert line[0..] == line;
  }
}
