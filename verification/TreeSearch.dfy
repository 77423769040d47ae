/** The grouped search: hits by file, with a cap on the number of files that have any. */
module TreeSearch {
  import opened Wrappers
  import opened LineSplitter
  import opened CappedSearch

  datatype FileHits = FileHits(path: string, matches: seq<(nat, string)>)

  function Pairs(hits: seq<Hit>): (p: seq<(nat, string)>)
    ensures |p| == |hits| && forall i :: 0 <= i < |hits| ==> p[i] == (hits[i].lineNumber, hits[i].lineText)
  {
    seq(|hits|, i requires 0 <= i < |hits| => (hits[i].lineNumber, hits[i].lineText))
  }

  /** The group of one file: nothing if the file has no hit that counts. */
  function FileGroup(c: Candidate, pattern: Matcher, maxFileBytes: nat, cap: Option<nat>): seq<FileHits> {
    var hits := FileAnswer(c, pattern, maxFileBytes);
    var kept := match cap case None => hits case Some(k) => Take(hits, k);
    if kept == [] then [] else [FileHits(c.path, Pairs(kept))]
  }

  /** All groups, in the order of the files. */
  function Groups(files: seq<Candidate>, pattern: Matcher, maxFileBytes: nat, cap: Option<nat>): seq<FileHits> {
    if files == [] then []
    else
      var n := |files| - 1;
      Groups(files[..n], pattern, maxFileBytes, cap) + FileGroup(files[n], pattern, maxFileBytes, cap)
  }

  /** Enough files are found while there are candidates left. */
  predicate StopsEarly(files: seq<Candidate>, pattern: Matcher, maxFileBytes: nat, cap: nat, maxFiles: nat) {
    files != [] && |Groups(files[..|files| - 1], pattern, maxFileBytes, Some(cap))| >= maxFiles
  }

  /** The full answer has one group for each file that has hits, in the order of the files, with all of them. */
  lemma GroupsExactly(files: seq<Candidate>, c: Candidate, pattern: Matcher, maxFileBytes: nat)
    ensures Groups([], pattern, maxFileBytes, None) == []
    ensures var hits := FileAnswer(c, pattern, maxFileBytes); var before := Groups(files, pattern, maxFileBytes, None);
            var after := Groups(files + [c], pattern, maxFileBytes, None);
            if hits == [] then after == before
            else
              && |after| == |before| + 1 && after[..|before|] == before && after[|before|].path == c.path
              && |after[|before|].matches| == |hits|
              && forall k :: 0 <= k < |hits| ==> after[|before|].matches[k] == (hits[k].lineNumber, hits[k].lineText)
  {
    assert (files + [c])[..|files|] == files;
  }

  lemma GroupsSnoc(files: seq<Candidate>, n: nat, pattern: Matcher, maxFileBytes: nat, cap: nat)
    requires n < |files|
    ensures Groups(files[..n + 1], pattern, maxFileBytes, Some(cap)) ==
            Groups(files[..n], pattern, maxFileBytes, Some(cap)) + FileGroup(files[n], pattern, maxFileBytes, Some(cap))
  {
    assert files[..n + 1][..n] == files[..n];
  }

  lemma {:induction false} GroupsGrow(files: seq<Candidate>, n: nat, pattern: Matcher, maxFileBytes: nat, cap: nat)
    requires n <= |files|
    ensures Groups(files[..n], pattern, maxFileBytes, Some(cap)) <= Groups(files, pattern, maxFileBytes, Some(cap))
    decreases |files| - n
  {
    if n < |files| {
      GroupsSnoc(files, n, pattern, maxFileBytes, cap);
      GroupsGrow(files, n + 1, pattern, maxFileBytes, cap);
    } else {
      assert files[..n] == files;
    }
  }

  /** If no file is overfull the groups are those of the search without a per-file cap. */
  lemma {:induction false} NoGroupCut(files: seq<Candidate>, pattern: Matcher, maxFileBytes: nat, cap: nat)
    requires !AnyOverfull(files, pattern, maxFileBytes, cap)
    ensures Groups(files, pattern, maxFileBytes, Some(cap)) == Groups(files, pattern, maxFileBytes, None)
  {
    if files != [] {
      var n := |files| - 1;
      assert files[..n + 1] == files;
      AnyOverfullSnoc(files, n, pattern, maxFileBytes, cap);
      NoGroupCut(files[..n], pattern, maxFileBytes, cap);
      assert Take(FileAnswer(files[n], pattern, maxFileBytes), cap) == FileAnswer(files[n], pattern, maxFileBytes);
    }
  }

  /** What the grouped search returns. */
  function TreeGroups(files: seq<Candidate>, pattern: Matcher, maxFiles: nat, maxFileBytes: nat,
      cap: nat): seq<FileHits> {
    Take(Groups(files, pattern, maxFileBytes, Some(cap)), maxFiles)
  }

  /** When the grouped search raises its flag. */
  predicate TreeFlag(files: seq<Candidate>, pattern: Matcher, maxFiles: nat, maxFileBytes: nat, cap: nat) {
    AnyOverfull(files, pattern, maxFileBytes, cap) || StopsEarly(files, pattern, maxFileBytes, cap, maxFiles)
  }

  /** How many matches the groups hold. */
  function MatchCount(groups: seq<FileHits>): nat {
    if groups == [] then 0 else MatchCount(groups[..|groups| - 1]) + |groups[|groups| - 1].matches|
  }

  lemma MatchCountSnoc(groups: seq<FileHits>, path: string, kept: seq<Hit>)
    ensures MatchCount(groups + if kept == [] then [] else [FileHits(path, Pairs(kept))]) == MatchCount(groups) + |kept|
  {
    if kept == [] {
      assert groups + [] == groups;
    } else {
      assert (groups + [FileHits(path, Pairs(kept))])[..|groups|] == groups;
    }
  }

  /** The per-file cap changes the groups if and only if some file has more hits than the cap. */
  lemma {:induction false} GroupsCutExactly(files: seq<Candidate>, pattern: Matcher, maxFileBytes: nat, cap: nat)
    ensures var capped := Groups(files, pattern, maxFileBytes, Some(cap));
            var full := Groups(files, pattern, maxFileBytes, None);
            && |capped| <= |full| && MatchCount(capped) <= MatchCount(full)
            && (AnyOverCap(files, pattern, maxFileBytes, cap) <==> MatchCount(capped) < MatchCount(full))
            && (!AnyOverCap(files, pattern, maxFileBytes, cap) ==> capped == full)
  {
    if files != [] {
      var n := |files| - 1;
      GroupsCutExactly(files[..n], pattern, maxFileBytes, cap);
      AnyOverCapSnoc(files, pattern, maxFileBytes, cap);
      var hits := FileAnswer(files[n], pattern, maxFileBytes);
      MatchCountSnoc(Groups(files[..n], pattern, maxFileBytes, Some(cap)), files[n].path, Take(hits, cap));
      MatchCountSnoc(Groups(files[..n], pattern, maxFileBytes, None), files[n].path, hits);
      hide FileAnswer, AnyOverCap, MatchCount, Pairs;
    }
  }

  /** The caps lose nothing if and only if no file has more hits than the per-file cap, and no more files
      have hits than the file cap. */
  lemma NoGroupLostExactly(files: seq<Candidate>, pattern: Matcher, maxFiles: nat, maxFileBytes: nat, cap: nat)
    ensures TreeGroups(files, pattern, maxFiles, maxFileBytes, cap) == Groups(files, pattern, maxFileBytes, None) <==>
            && !AnyOverCap(files, pattern, maxFileBytes, cap)
            && |Groups(files, pattern, maxFileBytes, None)| <= maxFiles
  {
    GroupsCutExactly(files, pattern, maxFileBytes, cap);
    hide Groups, AnyOverCap, MatchCount;
  }

  /** A lost match or file always raises the flag. The flag is up for nothing if and only if nothing is lost
      by the condition above, and some file is full early, or the last candidate has no hit and the ones
      before it already fill the file cap. */
  lemma TreeFlagExactly(files: seq<Candidate>, pattern: Matcher, maxFiles: nat, maxFileBytes: nat, cap: nat)
    ensures var all := Groups(files, pattern, maxFileBytes, None);
            var lost := TreeGroups(files, pattern, maxFiles, maxFileBytes, cap) != all;
            var raised := TreeFlag(files, pattern, maxFiles, maxFileBytes, cap);
            && (lost ==> raised)
            && (raised && !lost <==>
                  && !AnyOverCap(files, pattern, maxFileBytes, cap) && |all| <= maxFiles
                  && (|| AnyFullEarly(files, pattern, maxFileBytes, cap)
                      || (files != [] && |all| == maxFiles
                          && FileAnswer(files[|files| - 1], pattern, maxFileBytes) == [])))
  {
    GroupsCutExactly(files, pattern, maxFileBytes, cap);
    NoGroupLostExactly(files, pattern, maxFiles, maxFileBytes, cap);
    AnyOverfullMeans(files, pattern, maxFileBytes, cap);
    if files != [] {
      LastCandidate(files, pattern, maxFileBytes, cap);
    }
    hide Groups, AnyOverCap, AnyFullEarly, AnyOverfull, FileAnswer, MatchCount;
  }

  /** How the last candidate changes the number of groups. */
  lemma LastCandidate(files: seq<Candidate>, pattern: Matcher, maxFileBytes: nat, cap: nat)
    requires files != []
    ensures var n := |files| - 1;
            var before := Groups(files[..n], pattern, maxFileBytes, Some(cap));
            var hits := FileAnswer(files[n], pattern, maxFileBytes);
            |Groups(files, pattern, maxFileBytes, Some(cap))| == |before| + if hits == [] || cap == 0 then 0 else 1
    ensures cap == 0 && FileAnswer(files[|files| - 1], pattern, maxFileBytes) != [] ==>
            AnyOverCap(files, pattern, maxFileBytes, cap)
  {
    hide FileAnswer;
    AnyOverCapSnoc(files, pattern, maxFileBytes, cap);
  }

  /** The grouped search of the one early file is complete, and raises the flag. */
  lemma TreeFlagOverReports(pattern: Matcher)
    requires pattern("a") && !pattern("b")
    ensures TreeGroups([EARLY], pattern, 50, 10, 1) == Groups([EARLY], pattern, 10, None) == [FileHits("f", [(1, "a")])]
    ensures TreeFlag([EARLY], pattern, 50, 10, 1)
  {
    EarlyFile(pattern);
    hide FileAnswer, FullEarly;
    assert [EARLY][..0] == [];
    assert Pairs([Hit("f", 1, "a")]) == [(1, "a")];
    assert FullEarly([EARLY][0], pattern, 10, 1);
    TreeFlagExactly([EARLY], pattern, 50, 10, 1);
  }

  method MatchLines(ghost path: string, lines: seq<string>, pattern: Matcher, cap: nat)
    returns (matches: seq<(nat, string)>, full: bool)
    ensures matches == Pairs(Take(LineHits(path, lines, pattern), cap))
    ensures full <==> lines != [] && |LineHits(path, lines[..|lines| - 1], pattern)| >= cap
  {
    hide LineHits;
    AllLines(path, lines, pattern);
    matches, full := [], false;
    var i := 0;
    while i < |lines|
      invariant 0 <= i <= |lines|
      invariant matches == Pairs(LineHits(path, lines[..i], pattern)) && |matches| <= cap
      invariant i > 0 ==> |LineHits(path, lines[..i - 1], pattern)| < cap
    {
      if |matches| >= cap {
        CapReached(path, lines, i, pattern, cap);
        full := true;
        return;
      }
      HitsStep(path, lines, i, pattern);
      if pattern(lines[i]) {
        matches := matches + [(i + 1, lines[i])];
      }
      i := i + 1;
    }
  }

  method SearchTree(files: seq<Candidate>, pattern: Matcher, maxFiles: nat, maxFileBytes: nat, cap: nat)
    returns (groups: seq<FileHits>, filesScanned: nat, truncated: bool)
    ensures groups == TreeGroups(files, pattern, maxFiles, maxFileBytes, cap)
    ensures truncated <==> TreeFlag(files, pattern, maxFiles, maxFileBytes, cap)
    ensures !truncated ==> groups == Groups(files, pattern, maxFileBytes, None)
    ensures !truncated ==> filesScanned == SearchableCount(files, maxFileBytes)
  {
    hide Groups, AnyOverfull, LineHits, Lines, Searchable, SearchableCount, IsBoundary, Pairs;
    groups, filesScanned, truncated := [], 0, false;
    NoFiles(pattern, maxFileBytes, cap);
    NoGroups(pattern, maxFileBytes, cap);
    assert files[..0] == [];
    var n := 0;
    while n < |files|
      invariant 0 <= n <= |files|
      invariant groups == Groups(files[..n], pattern, maxFileBytes, Some(cap)) && |groups| <= maxFiles
      invariant n > 0 ==> |Groups(files[..n - 1], pattern, maxFileBytes, Some(cap))| < maxFiles
      invariant truncated <==> AnyOverfull(files[..n], pattern, maxFileBytes, cap)
      invariant filesScanned == SearchableCount(files[..n], maxFileBytes)
    {
      if |groups| >= maxFiles {
        GroupsGrow(files, n, pattern, maxFileBytes, cap);
        assert files[..|files| - 1][..n] == files[..n];
        GroupsGrow(files[..|files| - 1], n, pattern, maxFileBytes, cap);
        truncated := true;
        return;
      }
      CountSnoc(files, n, maxFileBytes);
      GroupsSnoc(files, n, pattern, maxFileBytes, cap);
      AnyOverfullSnoc(files, n, pattern, maxFileBytes, cap);
      var text := Searchable(files[n], maxFileBytes);
      if text.Some? {
        filesScanned := filesScanned + 1;
        var lines := SplitLines(text.value);
        var matches, full := MatchLines(files[n].path, lines, pattern, cap);
        if full {
          truncated := true;
        }
        if matches != [] {
          groups := groups + [FileHits(files[n].path, matches)];
        }
      }
      n := n + 1;
    }
    assert files[..n] == files;
    if !truncated {
      NoGroupCut(files, pattern, maxFileBytes, cap);
    }
  }

  lemma NoGroups(pattern: Matcher, maxFileBytes: nat, cap: nat)
    ensures Groups([], pattern, maxFileBytes, Some(cap)) == []
  {
  }

  /** Both searches find the same: the hits of the groups, one after the other, are the flat answer. */
  function Flatten(groups: seq<FileHits>): seq<Hit> {
    if groups == [] then []
    else Flatten(groups[..|groups| - 1]) + GroupHits(groups[|groups| - 1])
  }

  function GroupHits(g: FileHits): seq<Hit> {
    seq(|g.matches|, i requires 0 <= i < |g.matches| => Hit(g.path, g.matches[i].0, g.matches[i].1))
  }

  lemma {:induction false} SameAnswer(files: seq<Candidate>, pattern: Matcher, maxFileBytes: nat, cap: Option<nat>)
    ensures Flatten(Groups(files, pattern, maxFileBytes, cap)) == Answer(files, pattern, maxFileBytes, cap)
  {
    if files != [] {
      var n := |files| - 1;
      SameAnswer(files[..n], pattern, maxFileBytes, cap);
      var hits := FileAnswer(files[n], pattern, maxFileBytes);
      var kept := match cap case None => hits case Some(k) => Take(hits, k);
      FileAnswerPaths(files[n], pattern, maxFileBytes);
      hide Flatten, FileAnswer, Take;
      FlattenSnoc(Groups(files[..n], pattern, maxFileBytes, cap), files[n].path, kept);
    }
  }

  lemma FlattenSnoc(groups: seq<FileHits>, path: string, kept: seq<Hit>)
    requires forall h :: h in kept ==> h.path == path
    ensures Flatten(groups + if kept == [] then [] else [FileHits(path, Pairs(kept))]) == Flatten(groups) + kept
  {
    if kept == [] {
      assert groups + [] == groups && Flatten(groups) + [] == Flatten(groups);
    } else {
      var g := FileHits(path, Pairs(kept));
      assert (groups + [g])[..|groups|] == groups;
      forall i | 0 <= i < |kept| ensures GroupHits(g)[i] == kept[i] {
        assert kept[i] in kept;
      }
      assert GroupHits(g) == kept;
    }
  }

  lemma FileAnswerPaths(c: Candidate, pattern: Matcher, maxFileBytes: nat)
    ensures forall h :: h in FileAnswer(c, pattern, maxFileBytes) ==> h.path == c.path
  {
    var text := Searchable(c, maxFileBytes);
    if text.Some? {
      LineHitsExact(c.path, Lines(text.value), pattern);
    }
  }
}
