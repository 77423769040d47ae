/** The two search loops over an ordered list of candidate files, with their caps. */
module CappedSearch {
  import opened Wrappers
  import opened LineSplitter

  const BINARY_SNIFF_BYTES: nat := 8192

  /** A file as the loops meet it. `size` and `bytes` are missing when the system refuses to give them,
      `text` is missing when the bytes are not UTF-8. */
  datatype Candidate = Candidate(path: string, size: Option<nat>, bytes: Option<seq<byte>>, text: Option<string>)

  type Matcher = string -> bool

  datatype Hit = Hit(path: string, lineNumber: nat, lineText: string)

  /** The text of a candidate that gets searched; None if it is skipped. */
  function Searchable(c: Candidate, maxFileBytes: nat): Option<string> {
    if c.size == None || c.size.value > maxFileBytes || c.bytes == None then None
    else
      var head := if |c.bytes.value| < BINARY_SNIFF_BYTES then c.bytes.value else c.bytes.value[..BINARY_SNIFF_BYTES];
      if 0 in head then None else c.text
  }

  /** A file is skipped if and only if the system refuses its size or its bytes, it is larger than the limit,
      one of its first 8192 bytes is zero, or it is not UTF-8; and else its text is searched. */
  lemma SkippedExactly(c: Candidate, maxFileBytes: nat)
    ensures Searchable(c, maxFileBytes) == None <==>
            || c.size == None || c.bytes == None || c.text == None || c.size.value > maxFileBytes
            || exists k :: 0 <= k < 8192 && k < |c.bytes.value| && c.bytes.value[k] == 0
    ensures Searchable(c, maxFileBytes).Some? ==> Searchable(c, maxFileBytes) == c.text
  {
    if c.bytes.Some? {
      var bytes := c.bytes.value;
      var head := if |bytes| < BINARY_SNIFF_BYTES then bytes else bytes[..BINARY_SNIFF_BYTES];
      if k :| 0 <= k < 8192 && k < |bytes| && bytes[k] == 0 {
        assert head[k] == 0;
      }
    }
  }

  // ----- the answer without any cap ------------------------------------------------------

  /** The matching lines, numbered from one. */
  function LineHits(path: string, lines: seq<string>, pattern: Matcher): (hits: seq<Hit>)
    ensures |hits| <= |lines|
  {
    if lines == [] then []
    else
      var n := |lines| - 1;
      LineHits(path, lines[..n], pattern) + if pattern(lines[n]) then [Hit(path, n + 1, lines[n])] else []
  }

  function FileAnswer(c: Candidate, pattern: Matcher, maxFileBytes: nat): seq<Hit> {
    match Searchable(c, maxFileBytes)
    case None => []
    case Some(text) => LineHits(c.path, Lines(text), pattern)
  }

  function Take<T>(s: seq<T>, cap: nat): (r: seq<T>)
    ensures |r| <= cap && r <= s
  {
    if |s| <= cap then s else s[..cap]
  }

  /** Everything there is to find, file by file, at most `cap` hits in each file; None is no cap. */
  function Answer(files: seq<Candidate>, pattern: Matcher, maxFileBytes: nat, cap: Option<nat>): seq<Hit> {
    if files == [] then []
    else
      var n := |files| - 1;
      var hits := FileAnswer(files[n], pattern, maxFileBytes);
      Answer(files[..n], pattern, maxFileBytes, cap) + match cap case None => hits case Some(k) => Take(hits, k)
  }

  // ----- when the flag is raised ---------------------------------------------------------

  /** The per-file cap is reached before the last line of the file. */
  predicate Overfull(c: Candidate, pattern: Matcher, maxFileBytes: nat, cap: nat) {
    match Searchable(c, maxFileBytes)
    case None => false
    case Some(text) =>
      var lines := Lines(text);
      lines != [] && |LineHits(c.path, lines[..|lines| - 1], pattern)| >= cap
  }

  predicate AnyOverfull(files: seq<Candidate>, pattern: Matcher, maxFileBytes: nat, cap: nat) {
    exists k :: 0 <= k < |files| && Overfull(files[k], pattern, maxFileBytes, cap)
  }

  lemma AnyOverfullSnoc(files: seq<Candidate>, n: nat, pattern: Matcher, maxFileBytes: nat, cap: nat)
    requires n < |files|
    ensures AnyOverfull(files[..n + 1], pattern, maxFileBytes, cap) <==>
            AnyOverfull(files[..n], pattern, maxFileBytes, cap) || Overfull(files[n], pattern, maxFileBytes, cap)
  {
    var more := files[..n + 1];
    if AnyOverfull(files[..n], pattern, maxFileBytes, cap) {
      var k :| 0 <= k < n && Overfull(files[..n][k], pattern, maxFileBytes, cap);
      assert more[k] == files[..n][k];
    }
    if Overfull(files[n], pattern, maxFileBytes, cap) {
      assert more[n] == files[n];
    }
    if AnyOverfull(more, pattern, maxFileBytes, cap) {
      var k :| 0 <= k < n + 1 && Overfull(more[k], pattern, maxFileBytes, cap);
      if k < n {
        assert files[..n][k] == more[k];
      }
    }
  }

  lemma AnswerSnoc(files: seq<Candidate>, n: nat, pattern: Matcher, maxFileBytes: nat, cap: nat)
    requires n < |files|
    ensures Answer(files[..n + 1], pattern, maxFileBytes, Some(cap)) ==
            Answer(files[..n], pattern, maxFileBytes, Some(cap))
                + Take(FileAnswer(files[n], pattern, maxFileBytes), cap)
  {
    assert files[..n + 1][..n] == files[..n];
  }

  lemma {:induction false} AnswerGrows(files: seq<Candidate>, n: nat, pattern: Matcher, maxFileBytes: nat, cap: nat)
    requires n <= |files|
    ensures Answer(files[..n], pattern, maxFileBytes, Some(cap)) <= Answer(files, pattern, maxFileBytes, Some(cap))
    decreases |files| - n
  {
    hide FileAnswer, Take, Answer;
    if n < |files| {
      AnswerSnoc(files, n, pattern, maxFileBytes, cap);
      AnswerGrows(files, n + 1, pattern, maxFileBytes, cap);
    } else {
      assert files[..n] == files;
    }
  }

  lemma {:induction false} LineHitsGrow(path: string, lines: seq<string>, n: nat, pattern: Matcher)
    requires n <= |lines|
    ensures LineHits(path, lines[..n], pattern) <= LineHits(path, lines, pattern)
    decreases |lines| - n
  {
    if n < |lines| {
      assert lines[..n + 1][..n] == lines[..n];
      LineHitsGrow(path, lines, n + 1, pattern);
    } else {
      assert lines[..n] == lines;
    }
  }

  predicate HitOf(h: Hit, path: string, lines: seq<string>, pattern: Matcher) {
    h.path == path && 1 <= h.lineNumber <= |lines| && h.lineText == lines[h.lineNumber - 1] && pattern(h.lineText)
  }

  predicate Increasing(hits: seq<Hit>) {
    forall i, j :: 0 <= i < j < |hits| ==> hits[i].lineNumber < hits[j].lineNumber
  }

  lemma IncreasingSnoc(hits: seq<Hit>, h: Hit)
    requires Increasing(hits) && forall i :: 0 <= i < |hits| ==> hits[i].lineNumber < h.lineNumber
    ensures Increasing(hits + [h])
  {
  }

  /** The hits are exactly the matching lines with their numbers, in order and without repetition. */
  lemma {:induction false} LineHitsExact(path: string, lines: seq<string>, pattern: Matcher)
    ensures forall h :: h in LineHits(path, lines, pattern) <==> HitOf(h, path, lines, pattern)
    ensures Increasing(LineHits(path, lines, pattern))
  {
    if lines != [] {
      var n := |lines| - 1;
      LineHitsExact(path, lines[..n], pattern);
      var hits, before := LineHits(path, lines, pattern), LineHits(path, lines[..n], pattern);
      forall h ensures h in hits <==> HitOf(h, path, lines, pattern) {
        assert h in hits <==> h in before || (pattern(lines[n]) && h == Hit(path, n + 1, lines[n]));
        assert HitOf(h, path, lines, pattern) <==>
               HitOf(h, path, lines[..n], pattern) || (pattern(lines[n]) && h == Hit(path, n + 1, lines[n]));
      }
      if pattern(lines[n]) {
        assert forall i :: 0 <= i < |before| ==> before[i] in before && HitOf(before[i], path, lines[..n], pattern);
        IncreasingSnoc(before, Hit(path, n + 1, lines[n]));
      } else {
        assert hits == before;
      }
    }
  }

  // ----- what the flag promises ----------------------------------------------------------

  /** If no file is overfull the per-file cap drops nothing. */
  lemma {:induction false} NothingDropped(files: seq<Candidate>, pattern: Matcher, maxFileBytes: nat, cap: nat)
    requires !AnyOverfull(files, pattern, maxFileBytes, cap)
    ensures Answer(files, pattern, maxFileBytes, Some(cap)) == Answer(files, pattern, maxFileBytes, None)
  {
    if files != [] {
      var n := |files| - 1;
      assert files[..n + 1] == files;
      AnyOverfullSnoc(files, n, pattern, maxFileBytes, cap);
      NothingDropped(files[..n], pattern, maxFileBytes, cap);
      assert Take(FileAnswer(files[n], pattern, maxFileBytes), cap) == FileAnswer(files[n], pattern, maxFileBytes);
    }
  }

  function HitCap(maxResults: nat): nat {
    if maxResults == 0 then 1 else maxResults
  }

  /** What the flat search returns. */
  function DirHits(files: seq<Candidate>, pattern: Matcher, maxResults: nat, maxFileBytes: nat, cap: nat): seq<Hit> {
    Take(Answer(files, pattern, maxFileBytes, Some(cap)), HitCap(maxResults))
  }

  /** When the flat search raises its flag. */
  predicate DirFlag(files: seq<Candidate>, pattern: Matcher, maxResults: nat, maxFileBytes: nat, cap: nat) {
    || AnyOverfull(files, pattern, maxFileBytes, cap)
    || |Answer(files, pattern, maxFileBytes, Some(cap))| >= HitCap(maxResults)
  }

  // ----- when something is lost ----------------------------------------------------------

  /** The file has more hits than the per-file cap. */
  predicate OverCap(c: Candidate, pattern: Matcher, maxFileBytes: nat, cap: nat) {
    |FileAnswer(c, pattern, maxFileBytes)| > cap
  }

  predicate AnyOverCap(files: seq<Candidate>, pattern: Matcher, maxFileBytes: nat, cap: nat) {
    exists k :: 0 <= k < |files| && OverCap(files[k], pattern, maxFileBytes, cap)
  }

  /** The file has exactly as many hits as the cap allows, and its last line is none of them. */
  predicate FullEarly(c: Candidate, pattern: Matcher, maxFileBytes: nat, cap: nat) {
    match Searchable(c, maxFileBytes)
    case None => false
    case Some(text) =>
      var lines := Lines(text);
      lines != [] && !pattern(lines[|lines| - 1]) && |LineHits(c.path, lines, pattern)| == cap
  }

  predicate AnyFullEarly(files: seq<Candidate>, pattern: Matcher, maxFileBytes: nat, cap: nat) {
    exists k :: 0 <= k < |files| && FullEarly(files[k], pattern, maxFileBytes, cap)
  }

  /** A file that reaches the cap before its last line goes over it, or is full early. */
  lemma OverfullMeans(c: Candidate, pattern: Matcher, maxFileBytes: nat, cap: nat)
    ensures OverCap(c, pattern, maxFileBytes, cap) ==> Overfull(c, pattern, maxFileBytes, cap)
    ensures Overfull(c, pattern, maxFileBytes, cap) <==>
            OverCap(c, pattern, maxFileBytes, cap) || FullEarly(c, pattern, maxFileBytes, cap)
  {
  }

  lemma AnyOverfullMeans(files: seq<Candidate>, pattern: Matcher, maxFileBytes: nat, cap: nat)
    ensures AnyOverfull(files, pattern, maxFileBytes, cap) <==>
            AnyOverCap(files, pattern, maxFileBytes, cap) || AnyFullEarly(files, pattern, maxFileBytes, cap)
  {
    hide Overfull, OverCap, FullEarly;
    forall k | 0 <= k < |files|
      ensures Overfull(files[k], pattern, maxFileBytes, cap) <==>
              OverCap(files[k], pattern, maxFileBytes, cap) || FullEarly(files[k], pattern, maxFileBytes, cap)
    {
      OverfullMeans(files[k], pattern, maxFileBytes, cap);
    }
  }

  lemma AnyOverCapSnoc(files: seq<Candidate>, pattern: Matcher, maxFileBytes: nat, cap: nat)
    requires files != []
    ensures var n := |files| - 1;
            AnyOverCap(files, pattern, maxFileBytes, cap) <==>
            AnyOverCap(files[..n], pattern, maxFileBytes, cap) || OverCap(files[n], pattern, maxFileBytes, cap)
  {
    hide OverCap;
    var n := |files| - 1;
    assert forall k :: 0 <= k < n ==> files[..n][k] == files[k];
  }

  /** The per-file cap shortens the answer if and only if some file has more hits than the cap. */
  lemma {:induction false} CutExactly(files: seq<Candidate>, pattern: Matcher, maxFileBytes: nat, cap: nat)
    ensures |Answer(files, pattern, maxFileBytes, Some(cap))| <= |Answer(files, pattern, maxFileBytes, None)|
    ensures AnyOverCap(files, pattern, maxFileBytes, cap) <==>
            |Answer(files, pattern, maxFileBytes, Some(cap))| < |Answer(files, pattern, maxFileBytes, None)|
    ensures !AnyOverCap(files, pattern, maxFileBytes, cap) ==>
            Answer(files, pattern, maxFileBytes, Some(cap)) == Answer(files, pattern, maxFileBytes, None)
  {
    if files != [] {
      var n := |files| - 1;
      CutExactly(files[..n], pattern, maxFileBytes, cap);
      AnyOverCapSnoc(files, pattern, maxFileBytes, cap);
      hide FileAnswer, AnyOverCap;
    }
  }

  /** The caps lose nothing if and only if no file has more hits than the per-file cap and all hits
      together are no more than the hit cap. */
  lemma NothingLostExactly(files: seq<Candidate>, pattern: Matcher, maxResults: nat, maxFileBytes: nat, cap: nat)
    ensures DirHits(files, pattern, maxResults, maxFileBytes, cap) == Answer(files, pattern, maxFileBytes, None) <==>
            && !AnyOverCap(files, pattern, maxFileBytes, cap)
            && |Answer(files, pattern, maxFileBytes, None)| <= (if maxResults == 0 then 1 else maxResults)
  {
    CutExactly(files, pattern, maxFileBytes, cap);
    hide Answer, AnyOverCap;
  }

  /** A lost hit always raises the flag. The flag is up for nothing if and only if nothing is lost by the
      condition above, and the hits are exactly as many as the hit cap or some file has exactly as many
      as the per-file cap, none of them in its last line. */
  lemma FlagExactly(files: seq<Candidate>, pattern: Matcher, maxResults: nat, maxFileBytes: nat, cap: nat)
    ensures var all := Answer(files, pattern, maxFileBytes, None);
            var lost := DirHits(files, pattern, maxResults, maxFileBytes, cap) != all;
            var raised := DirFlag(files, pattern, maxResults, maxFileBytes, cap);
            var most := if maxResults == 0 then 1 else maxResults;
            && (lost ==> raised)
            && (raised && !lost <==>
                  && !AnyOverCap(files, pattern, maxFileBytes, cap) && |all| <= most
                  && (|all| == most || AnyFullEarly(files, pattern, maxFileBytes, cap)))
  {
    CutExactly(files, pattern, maxFileBytes, cap);
    NothingLostExactly(files, pattern, maxResults, maxFileBytes, cap);
    AnyOverfullMeans(files, pattern, maxFileBytes, cap);
    hide Answer, AnyOverCap, AnyFullEarly, AnyOverfull;
  }

  /** A file with one match, a per-file cap of one, and a last line that does not match. */
  const EARLY: Candidate := Candidate("f", Some(3), Some([97, 10, 98]), Some("a\nb"))

  lemma EarlyFile(pattern: Matcher)
    requires pattern("a") && !pattern("b")
    ensures FileAnswer(EARLY, pattern, 10) == [Hit("f", 1, "a")] && FullEarly(EARLY, pattern, 10, 1)
  {
    assert Lines("a\nb") == ["a", "b"] by {
      assert JoinLines(["a", "b"]) == "a\nb";
      JoinThenSplit(["a", "b"]);
    }
    assert Searchable(EARLY, 10) == Some("a\nb");
    hide Lines, Searchable;
    OneOfTwo("f", "a", "b", pattern);
  }

  /** So the flag can be up with the answer complete: the search of this one file returns its only hit,
      and raises the flag. */
  lemma FlagOverReports(pattern: Matcher)
    requires pattern("a") && !pattern("b")
    ensures DirHits([EARLY], pattern, 50, 10, 1) == Answer([EARLY], pattern, 10, None) == [Hit("f", 1, "a")]
    ensures DirFlag([EARLY], pattern, 50, 10, 1)
  {
    EarlyFile(pattern);
    hide FileAnswer, FullEarly;
    assert [EARLY][..0] == [];
    assert FullEarly([EARLY][0], pattern, 10, 1);
    FlagExactly([EARLY], pattern, 50, 10, 1);
  }

  lemma OneOfTwo(path: string, a: string, b: string, pattern: Matcher)
    requires pattern(a) && !pattern(b)
    ensures LineHits(path, [a, b], pattern) == LineHits(path, [a, b][..1], pattern) == [Hit(path, 1, a)]
  {
    assert [a, b][..1] == [a] && [a][..0] == [];
  }

  // ----- the flat loop -------------------------------------------------------------------

  lemma HitsStep(path: string, lines: seq<string>, i: nat, pattern: Matcher)
    requires i < |lines|
    ensures LineHits(path, lines[..i + 1], pattern) ==
            LineHits(path, lines[..i], pattern) + if pattern(lines[i]) then [Hit(path, i + 1, lines[i])] else []
  {
    assert lines[..i + 1][..i] == lines[..i];
  }

  /** The cap is reached with lines to go. */
  lemma CapReached(path: string, lines: seq<string>, i: nat, pattern: Matcher, cap: nat)
    requires i < |lines| && |LineHits(path, lines[..i], pattern)| == cap
    ensures Take(LineHits(path, lines, pattern), cap) == LineHits(path, lines[..i], pattern)
    ensures |LineHits(path, lines[..|lines| - 1], pattern)| >= cap
  {
    LineHitsGrow(path, lines, i, pattern);
    var butLast := lines[..|lines| - 1];
    assert butLast[..i] == lines[..i];
    LineHitsGrow(path, butLast, i, pattern);
  }

  /** The hits of a part of the lines, when they are as many as the room. */
  lemma RoomReached(path: string, lines: seq<string>, i: nat, pattern: Matcher, cap: nat, room: nat)
    requires i <= |lines| && |LineHits(path, lines[..i], pattern)| == room <= cap
    ensures Take(Take(LineHits(path, lines, pattern), cap), room) == LineHits(path, lines[..i], pattern)
    ensures |Take(LineHits(path, lines, pattern), cap)| >= room
  {
    LineHitsGrow(path, lines, i, pattern);
  }

  lemma AllLines(path: string, lines: seq<string>, pattern: Matcher)
    ensures lines[..|lines|] == lines && LineHits(path, lines[..0], pattern) == []
  {
    assert lines[..|lines|] == lines;
  }

  /** The lines of one file. `room` is how many more hits the whole search may take. */
  method SearchLines(path: string, lines: seq<string>, pattern: Matcher, cap: nat, room: nat)
    returns (found: seq<Hit>, full: bool, stop: bool)
    requires room > 0
    ensures found == Take(Take(LineHits(path, lines, pattern), cap), room)
    ensures stop <==> |Take(LineHits(path, lines, pattern), cap)| >= room
    ensures !stop ==> (full <==> lines != [] && |LineHits(path, lines[..|lines| - 1], pattern)| >= cap)
  {
    hide LineHits;
    AllLines(path, lines, pattern);
    found, full, stop := [], false, false;
    var i := 0;
    while i < |lines|
      invariant 0 <= i <= |lines|
      invariant found == LineHits(path, lines[..i], pattern) && |found| <= cap && |found| < room
      invariant i > 0 ==> |LineHits(path, lines[..i - 1], pattern)| < cap
    {
      if |found| >= cap {
        CapReached(path, lines, i, pattern, cap);
        full := true;
        return;
      }
      HitsStep(path, lines, i, pattern);
      if pattern(lines[i]) {
        found := found + [Hit(path, i + 1, lines[i])];
        if |found| >= room {
          RoomReached(path, lines, i + 1, pattern, cap, room);
          stop := true;
          return;
        }
      }
      i := i + 1;
    }
  }

  method SearchDir(files: seq<Candidate>, pattern: Matcher, maxResults: nat, maxFileBytes: nat, cap: nat)
    returns (hits: seq<Hit>, filesScanned: nat, filesSkipped: nat, truncated: bool)
    ensures hits == DirHits(files, pattern, maxResults, maxFileBytes, cap)
    ensures truncated <==> DirFlag(files, pattern, maxResults, maxFileBytes, cap)
    ensures !truncated ==> hits == Answer(files, pattern, maxFileBytes, None)
    ensures !truncated ==>
            filesScanned == SearchableCount(files, maxFileBytes) && filesSkipped == |files| - filesScanned
    ensures exists visited: nat :: Visited(files, pattern, maxResults, maxFileBytes, cap, visited)
                                   && filesScanned == SearchableCount(files[..visited], maxFileBytes)
                                   && filesSkipped == visited - filesScanned
  {
    hide Answer, AnyOverfull, LineHits, Lines, Searchable, SearchableCount, IsBoundary, Visited;
    hits, filesScanned, filesSkipped, truncated := [], 0, 0, false;
    var n := 0;
    NoFiles(pattern, maxFileBytes, cap);
    assert files[..0] == [];
    while n < |files|
      invariant 0 <= n <= |files|
      invariant hits == Answer(files[..n], pattern, maxFileBytes, Some(cap)) && |hits| < HitCap(maxResults)
      invariant truncated <==> AnyOverfull(files[..n], pattern, maxFileBytes, cap)
      invariant filesScanned == SearchableCount(files[..n], maxFileBytes) && filesSkipped == n - filesScanned
      invariant n > 0 ==> |Answer(files[..n - 1], pattern, maxFileBytes, Some(cap))| < HitCap(maxResults)
    {
      CountSnoc(files, n, maxFileBytes);
      AnswerSnoc(files, n, pattern, maxFileBytes, cap);
      AnyOverfullSnoc(files, n, pattern, maxFileBytes, cap);
      var text := Searchable(files[n], maxFileBytes);
      if text == None {
        filesSkipped := filesSkipped + 1;
      } else {
        filesScanned := filesScanned + 1;
        var lines := SplitLines(text.value);
        var found, full, stop := SearchLines(files[n].path, lines, pattern, cap, HitCap(maxResults) - |hits|);
        hits := hits + found;
        if full {
          truncated := true;
        }
        if stop {
          AnswerGrows(files, n + 1, pattern, maxFileBytes, cap);
          VisitedUpTo(files, pattern, maxResults, maxFileBytes, cap, n + 1);
          truncated := true;
          return;
        }
      }
      n := n + 1;
    }
    assert files[..n] == files;
    VisitedUpTo(files, pattern, maxResults, maxFileBytes, cap, n);
    if !truncated {
      NothingDropped(files, pattern, maxFileBytes, cap);
    }
  }

  /** How many files the flat search looks at: all, or just as many as fill the hit cap. */
  ghost predicate Visited(
    files: seq<Candidate>, pattern: Matcher, maxResults: nat, maxFileBytes: nat, cap: nat, n: nat)
  {
    && n <= |files|
    && (n < |files| ==> |Answer(files[..n], pattern, maxFileBytes, Some(cap))| >= HitCap(maxResults))
    && (n > 0 ==> |Answer(files[..n - 1], pattern, maxFileBytes, Some(cap))| < HitCap(maxResults))
  }

  lemma VisitedUpTo(files: seq<Candidate>, pattern: Matcher, maxResults: nat, maxFileBytes: nat, cap: nat, n: nat)
    requires n <= |files|
    requires n < |files| ==> |Answer(files[..n], pattern, maxFileBytes, Some(cap))| >= HitCap(maxResults)
    requires n > 0 ==> |Answer(files[..n - 1], pattern, maxFileBytes, Some(cap))| < HitCap(maxResults)
    ensures Visited(files, pattern, maxResults, maxFileBytes, cap, n)
  {
  }

  /** The answer is that of the files one after the other, and a file answers with each of its lines that
      matches, under its path and with the number of the line. */
  lemma AnswerExactly(files: seq<Candidate>, c: Candidate, pattern: Matcher, maxFileBytes: nat, h: Hit)
    ensures Answer([], pattern, maxFileBytes, None) == []
    ensures Answer(files + [c], pattern, maxFileBytes, None) ==
            Answer(files, pattern, maxFileBytes, None) + FileAnswer(c, pattern, maxFileBytes)
    ensures h in FileAnswer(c, pattern, maxFileBytes) <==>
            && Searchable(c, maxFileBytes).Some?
            && var lines := Lines(c.text.value);
               && h.path == c.path && 1 <= h.lineNumber <= |lines| && h.lineText == lines[h.lineNumber - 1]
               && pattern(h.lineText)
  {
    assert (files + [c])[..|files|] == files;
    SkippedExactly(c, maxFileBytes);
    hide Searchable, Lines, LineHits;
    if Searchable(c, maxFileBytes).Some? {
      LineHitsExact(c.path, Lines(c.text.value), pattern);
    }
  }

  function SearchableCount(files: seq<Candidate>, maxFileBytes: nat): (n: nat)
    ensures n <= |files|
  {
    if files == [] then 0
    else
      SearchableCount(files[..|files| - 1], maxFileBytes)
      + if Searchable(files[|files| - 1], maxFileBytes) == None then 0 else 1
  }

  lemma CountSnoc(files: seq<Candidate>, n: nat, maxFileBytes: nat)
    requires n < |files|
    ensures SearchableCount(files[..n + 1], maxFileBytes) ==
            SearchableCount(files[..n], maxFileBytes) + if Searchable(files[n], maxFileBytes) == None then 0 else 1
  {
    assert files[..n + 1][..n] == files[..n];
  }

  lemma NoFiles(pattern: Matcher, maxFileBytes: nat, cap: nat)
    ensures Answer([], pattern, maxFileBytes, Some(cap)) == [] && SearchableCount([], maxFileBytes) == 0
    ensures !AnyOverfull([], pattern, maxFileBytes, cap)
  {
  }
}
