/** Search results cross from the native kernel to Python as rows of text with U+001F between the
    fields: a printer on one side, a parser on the other. */
module WireFormat {
  import opened Wrappers
  import opened Decimals
  import opened CappedSearch
  import opened TreeSearch

  const SEPARATOR: char := '\U{1F}'

  // ----- joining and splitting fields ----------------------------------------------------

  function Join(fields: seq<string>): string {
    if fields == [] then "" else if |fields| == 1 then fields[0] else fields[0] + [SEPARATOR] + Join(fields[1..])
  }

  function SeparatorIndex(row: string): (i: nat)
    ensures i <= |row| && SEPARATOR !in row[..i] && (i < |row| ==> row[i] == SEPARATOR)
  {
    if row == "" || row[0] == SEPARATOR then 0
    else
      var i := 1 + SeparatorIndex(row[1..]);
      assert row[..i] == [row[0]] + row[1..][..i - 1];
      i
  }

  /** At most `splits` cuts, from the left. */
  function Split(row: string, splits: nat): (fields: seq<string>)
    ensures 1 <= |fields| <= splits + 1
    decreases splits
  {
    var i := SeparatorIndex(row);
    if splits == 0 || i == |row| then [row] else [row[..i]] + Split(row[i + 1..], splits - 1)
  }

  predicate Clean(field: string) {
    SEPARATOR !in field
  }

  lemma {:induction false} SeparatorIndexIs(row: string, n: nat)
    requires n <= |row| && (forall k :: 0 <= k < n ==> row[k] != SEPARATOR) && (n < |row| ==> row[n] == SEPARATOR)
    ensures SeparatorIndex(row) == n
  {
    if n > 0 {
      SeparatorIndexIs(row[1..], n - 1);
    }
  }

  lemma FirstField(field: string, rest: string, splits: nat)
    requires Clean(field) && splits > 0
    ensures Split(field + [SEPARATOR] + rest, splits) == [field] + Split(rest, splits - 1)
  {
    var row := field + [SEPARATOR] + rest;
    assert forall k :: 0 <= k < |field| ==> row[k] == field[k];
    SeparatorIndexIs(row, |field|);
    assert row[..|field|] == field && row[|field| + 1..] == rest;
  }

  /** Splitting undoes joining, as long as the fields are clean; the last one need not be when the cuts
      are used up in front of it. */
  lemma {:induction false} SplitJoin(fields: seq<string>, splits: nat)
    requires fields != [] && splits >= |fields| - 1 && forall k :: 0 <= k < |fields| - 1 ==> Clean(fields[k])
    requires splits == |fields| - 1 || Clean(fields[|fields| - 1])
    ensures Split(Join(fields), splits) == fields
  {
    hide Clean;
    if |fields| > 1 {
      FirstField(fields[0], Join(fields[1..]), splits);
      SplitJoin(fields[1..], splits - 1);
    } else if splits > 0 {
      NoCut(fields[0]);
    }
  }

  lemma NoCut(field: string)
    requires Clean(field)
    ensures SeparatorIndex(field) == |field|
  {
    SeparatorIndexIs(field, |field|);
  }

  /** A first field that holds the separator never comes back whole. */
  lemma DirtyFieldIsCut(field: string, rest: string, splits: nat)
    requires !Clean(field) && splits > 0
    ensures Split(field + [SEPARATOR] + rest, splits)[0] != field
  {
    var row := field + [SEPARATOR] + rest;
    var n := SeparatorIndex(field);
    assert n < |field| by {
      assert field[..|field|] == field;
    }
    assert forall k :: 0 <= k < n ==> row[k] == field[k] == field[..n][k];
    SeparatorIndexIs(row, n);
  }

  // ----- numbers and flags ---------------------------------------------------------------

  /** How Python reads numbers that are not plain numerals - signs, blanks, underscores - is left open. */
  type LenientInt = string -> Option<int>

  function ReadInt(s: string, lenient: LenientInt): Option<int> {
    if IsNumeral(s) then Some(NumeralValue(s)) else lenient(s)
  }

  lemma ReadPrinted(n: nat, lenient: LenientInt)
    ensures ReadInt(Numeral(n), lenient) == Some(n) && Clean(Numeral(n))
  {
    NumeralRoundTrip(n);
    assert forall c :: c in Numeral(n) ==> IsDigit(c);
  }

  function Flag(b: bool): string {
    if b then "true" else "false"
  }

  // ----- flat results --------------------------------------------------------------------

  datatype Outcome = Outcome(hits: seq<Hit>, filesScanned: nat, filesSkipped: nat, truncated: bool)

  /** The rows spelled out: one of counts and the flag, and one for each hit, its parts divided by U+001F. */
  lemma RowsSpelled(o: Outcome, k: nat)
    requires k < |o.hits|
    ensures |Printed(o)| == 1 + |o.hits|
    ensures Printed(o)[0] == "meta" + "\U{1F}" + Numeral(o.filesScanned) + "\U{1F}" + Numeral(o.filesSkipped) + "\U{1F}"
                             + if o.truncated then "true" else "false"
    ensures Printed(o)[1 + k] == o.hits[k].path + "\U{1F}" + Numeral(o.hits[k].lineNumber) + "\U{1F}"
            + o.hits[k].lineText
  {
    HitRowAt(o.hits, k);
    ThreeFields(o.hits[k].path, Numeral(o.hits[k].lineNumber), o.hits[k].lineText);
    ThreeFields(Numeral(o.filesScanned), Numeral(o.filesSkipped), Flag(o.truncated));
    var fields := ["meta", Numeral(o.filesScanned), Numeral(o.filesSkipped), Flag(o.truncated)];
    assert fields[1..] == [Numeral(o.filesScanned), Numeral(o.filesSkipped), Flag(o.truncated)];
    hide Numeral, HitRows;
    assert Printed(o)[1 + k] == HitRows(o.hits)[k];
  }

  lemma ThreeFields(a: string, b: string, c: string)
    ensures Join([a, b, c]) == a + "\U{1F}" + b + "\U{1F}" + c
  {
    TwoFields(b, c);
    assert [a, b, c][1..] == [b, c];
    assert "\U{1F}" == [SEPARATOR];
    assert Join([a, b, c]) == a + [SEPARATOR] + Join([b, c]);
    assert a + [SEPARATOR] + (b + [SEPARATOR] + c) == a + [SEPARATOR] + b + [SEPARATOR] + c;
  }

  lemma TwoFields(a: string, b: string)
    ensures Join([a, b]) == a + "\U{1F}" + b
  {
    assert [a, b][1..] == [b];
    assert "\U{1F}" == [SEPARATOR];
  }

  lemma {:induction false} HitRowAt(hits: seq<Hit>, k: nat)
    requires k < |hits|
    ensures |HitRows(hits)| == |hits| && HitRows(hits)[k] == HitRow(hits[k])
  {
    hide HitRow;
    if k > 0 {
      HitRowAt(hits[1..], k - 1);
    } else if |hits| > 1 {
      HitRowAt(hits[1..], 0);
    }
  }

  /** A hit row is read if and only if it has three parts, the second one a number; and then it says these. */
  lemma HitReadsExactly(row: string, lenient: LenientInt, h: SearchHit)
    ensures ParsedHit(row, lenient) == Some(h) <==>
            exists number :: && row == h.path + "\U{1F}" + number + "\U{1F}" + h.lineText
                             && '\U{1F}' !in h.path && '\U{1F}' !in number
                             && ReadInt(number, lenient) == Some(h.lineNumber)
  {
    if number :| && row == h.path + "\U{1F}" + number + "\U{1F}" + h.lineText
                 && '\U{1F}' !in h.path && '\U{1F}' !in number && ReadInt(number, lenient) == Some(h.lineNumber) {
      ThreeFields(h.path, number, h.lineText);
      SplitJoin([h.path, number, h.lineText], 2);
    }
    if ParsedHit(row, lenient) == Some(h) {
      var fields := Split(row, 2);
      CutsRebuild(row);
      assert row == h.path + "\U{1F}" + fields[1] + "\U{1F}" + h.lineText;
    }
  }

  /** Two cuts leave two parts without separators, and the rest. */
  lemma CutsRebuild(row: string)
    requires |Split(row, 2)| == 3
    ensures var fields := Split(row, 2);
            && row == fields[0] + "\U{1F}" + fields[1] + "\U{1F}" + fields[2]
            && '\U{1F}' !in fields[0] && '\U{1F}' !in fields[1]
  {
    hide Split, SeparatorIndex;
    OneCut(row, 2);
    var rest := row[SeparatorIndex(row) + 1..];
    var a := Split(row, 2)[0];
    assert Split(row, 2)[1..] == Split(rest, 1);
    OneCut(rest, 1);
    var b, c := Split(rest, 1)[0], Split(rest, 1)[1];
    assert Split(row, 2)[1] == b && Split(row, 2)[2] == c;
    assert "\U{1F}" == [SEPARATOR];
    assert a + [SEPARATOR] + (b + [SEPARATOR] + c) == a + [SEPARATOR] + b + [SEPARATOR] + c;
  }

  lemma OneCut(row: string, splits: nat)
    requires splits > 0 && |Split(row, splits)| > 1
    ensures var i := SeparatorIndex(row);
            && i < |row| && SEPARATOR !in Split(row, splits)[0]
            && Split(row, splits) == [row[..i]] + Split(row[i + 1..], splits - 1)
            && row == Split(row, splits)[0] + [SEPARATOR] + row[i + 1..]
            && (splits == 1 ==> Split(row, splits) == [row[..i], row[i + 1..]])
  {
    var i := SeparatorIndex(row);
    assert row == row[..i] + [row[i]] + row[i + 1..];
  }

  /** The classes on the Python side. */
  datatype SearchHit = SearchHit(path: string, lineNumber: int, lineText: string)

  datatype SearchOutcome = SearchOutcome(hits: seq<SearchHit>, filesScanned: int, filesSkipped: int, truncated: bool)

  function SameHits(hits: seq<Hit>): (r: seq<SearchHit>)
    ensures |r| == |hits|
    ensures forall i :: 0 <= i < |hits| ==> r[i] == SearchHit(hits[i].path, hits[i].lineNumber, hits[i].lineText)
  {
    if hits == [] then []
    else [SearchHit(hits[0].path, hits[0].lineNumber, hits[0].lineText)] + SameHits(hits[1..])
  }

  function SameOutcome(o: Outcome): SearchOutcome {
    SearchOutcome(SameHits(o.hits), o.filesScanned, o.filesSkipped, o.truncated)
  }

  function HitRow(h: Hit): string {
    Join([h.path, Numeral(h.lineNumber), h.lineText])
  }

  function HitRows(hits: seq<Hit>): seq<string> {
    if hits == [] then [] else [HitRow(hits[0])] + HitRows(hits[1..])
  }

  function Printed(o: Outcome): seq<string> {
    [Join(["meta", Numeral(o.filesScanned), Numeral(o.filesSkipped), Flag(o.truncated)])] + HitRows(o.hits)
  }

  method PrintSearch(o: Outcome) returns (rows: seq<string>)
    ensures rows == Printed(o)
  {
    rows := [Join(["meta", Numeral(o.filesScanned), Numeral(o.filesSkipped), Flag(o.truncated)])];
    var i := 0;
    assert o.hits[0..] == o.hits;
    while i < |o.hits|
      invariant 0 <= i <= |o.hits|
      invariant rows + HitRows(o.hits[i..]) == Printed(o)
    {
      assert o.hits[i..][1..] == o.hits[i + 1..];
      rows := rows + [HitRow(o.hits[i])];
      i := i + 1;
    }
  }

  function ParsedHit(row: string, lenient: LenientInt): Option<SearchHit> {
    var fields := Split(row, 2);
    if |fields| != 3 then None
    else
      match ReadInt(fields[1], lenient)
      case None => None
      case Some(n) => Some(SearchHit(fields[0], n, fields[2]))
  }

  /** None where Python raises. */
  function ParsedHits(rows: seq<string>, lenient: LenientInt): Option<seq<SearchHit>> {
    if rows == [] then Some([])
    else
      match ParsedHit(rows[0], lenient)
      case None => None
      case Some(h) =>
        match ParsedHits(rows[1..], lenient)
        case None => None
        case Some(rest) => Some([h] + rest)
  }

  function Parsed(rows: seq<string>, lenient: LenientInt): Option<SearchOutcome> {
    if rows == [] then None
    else
      var meta := Split(rows[0], |rows[0]|);
      match ParsedHits(rows[1..], lenient)
      case None => None
      case Some(hits) =>
        if |meta| < 4 then None
        else
          match (ReadInt(meta[1], lenient), ReadInt(meta[2], lenient))
          case (Some(scanned), Some(skipped)) => Some(SearchOutcome(hits, scanned, skipped, meta[3] == "true"))
          case _ => None
  }

  /** Hits already read, then what is left to read. */
  function After(hits: seq<SearchHit>, rest: Option<seq<SearchHit>>): Option<seq<SearchHit>> {
    match rest case None => None case Some(more) => Some(hits + more)
  }

  lemma AfterNothing(rest: Option<seq<SearchHit>>)
    ensures After([], rest) == rest
  {
    if rest.Some? {
      assert [] + rest.value == rest.value;
    }
  }

  lemma NoRows(hits: seq<SearchHit>, lenient: LenientInt)
    ensures After(hits, ParsedHits([], lenient)) == Some(hits)
  {
    assert hits + [] == hits;
  }

  lemma ParsedStep(hits: seq<SearchHit>, rows: seq<string>, lenient: LenientInt)
    requires rows != []
    ensures match ParsedHit(rows[0], lenient) {
              case None => After(hits, ParsedHits(rows, lenient)) == None
              case Some(h) => After(hits, ParsedHits(rows, lenient))
                  == After(hits + [h], ParsedHits(rows[1..], lenient))
            }
  {
    hide ParsedHit;
    var first, rest := ParsedHit(rows[0], lenient), ParsedHits(rows[1..], lenient);
    if first.Some? && rest.Some? {
      assert hits + ([first.value] + rest.value) == hits + [first.value] + rest.value;
    }
  }

  method ParseSearch(rows: seq<string>, lenient: LenientInt) returns (r: Option<SearchOutcome>)
    ensures r == Parsed(rows, lenient)
  {
    hide ParsedHits, Split, ReadInt;
    if rows == [] {
      return None;
    }
    var meta := Split(rows[0], |rows[0]|);
    var hits: seq<SearchHit> := [];
    var i := 1;
    AfterNothing(ParsedHits(rows[1..], lenient));
    while i < |rows|
      invariant 1 <= i <= |rows|
      invariant ParsedHits(rows[1..], lenient) == After(hits, ParsedHits(rows[i..], lenient))
    {
      ParsedStep(hits, rows[i..], lenient);
      assert rows[i..][1..] == rows[i + 1..];
      var fields := Split(rows[i], 2);
      if |fields| != 3 {
        return None;
      }
      var number := ReadInt(fields[1], lenient);
      if number == None {
        return None;
      }
      hits := hits + [SearchHit(fields[0], number.value, fields[2])];
      i := i + 1;
    }
    assert rows[i..] == [];
    NoRows(hits, lenient);
    if |meta| < 4 {
      return None;
    }
    var scanned, skipped := ReadInt(meta[1], lenient), ReadInt(meta[2], lenient);
    if scanned == None || skipped == None {
      return None;
    }
    r := Some(SearchOutcome(hits, scanned.value, skipped.value, meta[3] == "true"));
  }

  lemma HitRoundTrip(h: Hit, lenient: LenientInt)
    requires Clean(h.path)
    ensures ParsedHit(HitRow(h), lenient) == Some(SearchHit(h.path, h.lineNumber, h.lineText))
  {
    ReadPrinted(h.lineNumber, lenient);
    SplitJoin([h.path, Numeral(h.lineNumber), h.lineText], 2);
  }

  lemma DirtyHit(h: Hit, lenient: LenientInt)
    requires !Clean(h.path)
    ensures ParsedHit(HitRow(h), lenient).Some? ==> ParsedHit(HitRow(h), lenient).value.path != h.path
  {
    DirtyFieldIsCut(h.path, Join([h.path, Numeral(h.lineNumber), h.lineText][1..]), 2);
  }

  predicate CleanPaths(hits: seq<Hit>) {
    forall k :: 0 <= k < |hits| ==> Clean(hits[k].path)
  }

  lemma {:induction false} HitsRoundTrip(hits: seq<Hit>, lenient: LenientInt)
    ensures ParsedHits(HitRows(hits), lenient) == Some(SameHits(hits)) <==> CleanPaths(hits)
  {
    hide ParsedHit, Clean, HitRow;
    if hits != [] {
      HitsRoundTrip(hits[1..], lenient);
      assert CleanPaths(hits) <==> Clean(hits[0].path) && CleanPaths(hits[1..]) by {
        assert forall k :: 0 < k < |hits| ==> hits[k] == hits[1..][k - 1];
      }
      assert HitRows(hits)[1..] == HitRows(hits[1..]);
      var parsed := ParsedHits(HitRows(hits[1..]), lenient);
      if Clean(hits[0].path) {
        HitRoundTrip(hits[0], lenient);
        var first := SearchHit(hits[0].path, hits[0].lineNumber, hits[0].lineText);
        assert parsed.Some? ==> (([first] + parsed.value == [first] + SameHits(hits[1..])) <==>
            parsed.value == SameHits(hits[1..])) by {
          if parsed.Some? {
            assert ([first] + parsed.value)[1..] == parsed.value;
            assert ([first] + SameHits(hits[1..]))[1..] == SameHits(hits[1..]);
          }
        }
      } else {
        DirtyHit(hits[0], lenient);
      }
    }
  }

  lemma MetaRoundTrip(o: Outcome, lenient: LenientInt)
    ensures var meta := Split(Printed(o)[0], |Printed(o)[0]|);
            |meta| == 4 && ReadInt(meta[1], lenient) == Some(o.filesScanned)
                && ReadInt(meta[2], lenient) == Some(o.filesSkipped)
            && (meta[3] == "true" <==> o.truncated)
  {
    var fields := ["meta", Numeral(o.filesScanned), Numeral(o.filesSkipped), Flag(o.truncated)];
    ReadPrinted(o.filesScanned, lenient);
    ReadPrinted(o.filesSkipped, lenient);
    JoinLong(fields);
    SplitJoin(fields, |Join(fields)|);
  }

  lemma {:induction false} JoinLong(fields: seq<string>)
    requires fields != []
    ensures |Join(fields)| >= |fields| - 1
  {
    if |fields| > 1 {
      JoinLong(fields[1..]);
    }
  }

  /** The Python side sees the outcome of the kernel - every hit with its path, number and text, both
      counts and the flag - if and only if no path holds the separator. Line texts are free to. */
  lemma RoundTripExactly(o: Outcome, lenient: LenientInt)
    ensures Parsed(Printed(o), lenient) == Some(SameOutcome(o)) <==>
            forall k :: 0 <= k < |o.hits| ==> '\U{1F}' !in o.hits[k].path
  {
    MetaRoundTrip(o, lenient);
    HitsRoundTrip(o.hits, lenient);
    assert Printed(o)[1..] == HitRows(o.hits);
  }

  // ----- grouped results -----------------------------------------------------------------

  datatype TreeOutcome = TreeOutcome(files: seq<FileHits>, filesScanned: nat, truncated: bool)

  /** A pair of path and list, as the Python side builds them. */
  datatype FileMatches = FileMatches(path: string, matches: seq<(int, string)>)

  datatype TreeResult = TreeResult(files: seq<FileMatches>, filesScanned: int, truncated: bool)

  function SameMatches(matches: seq<(nat, string)>): (r: seq<(int, string)>)
    ensures |r| == |matches| && forall i :: 0 <= i < |matches| ==> r[i] == (matches[i].0, matches[i].1)
  {
    if matches == [] then [] else [(matches[0].0, matches[0].1)] + SameMatches(matches[1..])
  }

  function SameFiles(files: seq<FileHits>): (r: seq<FileMatches>)
    ensures |r| == |files| && forall i :: 0 <= i < |files| ==>
            r[i] == FileMatches(files[i].path, SameMatches(files[i].matches))
  {
    if files == [] then [] else [FileMatches(files[0].path, SameMatches(files[0].matches))] + SameFiles(files[1..])
  }

  function SameTree(o: TreeOutcome): TreeResult {
    TreeResult(SameFiles(o.files), o.filesScanned, o.truncated)
  }

  function MatchRow(m: (nat, string)): string {
    Join(["match", Numeral(m.0), m.1])
  }

  function MatchRows(matches: seq<(nat, string)>): seq<string> {
    if matches == [] then [] else [MatchRow(matches[0])] + MatchRows(matches[1..])
  }

  function FileRow(f: FileHits): string {
    Join(["file", f.path])
  }

  function FileRows(files: seq<FileHits>): seq<string> {
    if files == [] then [] else [FileRow(files[0])] + MatchRows(files[0].matches) + FileRows(files[1..])
  }

  function TreeMeta(o: TreeOutcome): string {
    Join(["meta", Numeral(o.filesScanned), Flag(o.truncated)])
  }

  function PrintedTree(o: TreeOutcome): seq<string> {
    [TreeMeta(o)] + FileRows(o.files)
  }

  lemma FileRowsStep(rows: seq<string>, files: seq<FileHits>, i: nat)
    requires i < |files|
    ensures rows + FileRows(files[i..]) == rows + [FileRow(files[i])] + MatchRows(files[i].matches)
            + FileRows(files[i + 1..])
  {
    assert files[i..][1..] == files[i + 1..];
  }

  lemma MatchRowsStep(rows: seq<string>, matches: seq<(nat, string)>, j: nat, rest: seq<string>)
    requires j < |matches|
    ensures rows + MatchRows(matches[j..]) + rest == rows + [MatchRow(matches[j])] + MatchRows(matches[j + 1..]) + rest
  {
    assert matches[j..][1..] == matches[j + 1..];
  }

  /** The rows of a grouped result spelled out: counts and flag, the path of each file, and behind it one row
      for each match. */
  lemma TreeRowsSpelled(o: TreeOutcome, f: FileHits, rest: seq<FileHits>)
    ensures PrintedTree(o) ==
            ["meta" + "\U{1F}" + Numeral(o.filesScanned) + "\U{1F}" + (if o.truncated then "true" else "false")]
            + FileRows(o.files)
    ensures FileRows([]) == []
    ensures FileRows([f] + rest) == ["file" + "\U{1F}" + f.path] + MatchRows(f.matches) + FileRows(rest)
    ensures |MatchRows(f.matches)| == |f.matches|
    ensures forall k :: 0 <= k < |f.matches| ==>
              MatchRows(f.matches)[k] == "match" + "\U{1F}" + Numeral(f.matches[k].0) + "\U{1F}" + f.matches[k].1
  {
    ThreeFields("meta", Numeral(o.filesScanned), Flag(o.truncated));
    assert ([f] + rest)[1..] == rest;
    TwoFields("file", f.path);
    MatchRowsAre(f.matches);
    forall k | 0 <= k < |f.matches|
      ensures MatchRow(f.matches[k]) == "match" + "\U{1F}" + Numeral(f.matches[k].0) + "\U{1F}" + f.matches[k].1
    {
      ThreeFields("match", Numeral(f.matches[k].0), f.matches[k].1);
    }
    hide Numeral, MatchRow, Join, MatchRows;
  }

  lemma {:induction false} MatchRowsAre(matches: seq<(nat, string)>)
    ensures |MatchRows(matches)| == |matches|
    ensures forall k :: 0 <= k < |matches| ==> MatchRows(matches)[k] == MatchRow(matches[k])
  {
    hide MatchRow;
    if matches != [] {
      MatchRowsAre(matches[1..]);
    }
  }

  method PrintTree(o: TreeOutcome) returns (rows: seq<string>)
    ensures rows == PrintedTree(o)
  {
    hide MatchRow, FileRow, TreeMeta, MatchRows, FileRows;
    rows := [TreeMeta(o)];
    var i := 0;
    assert o.files[0..] == o.files;
    NoMoreRows(o.files);
    while i < |o.files|
      invariant 0 <= i <= |o.files|
      invariant rows + FileRows(o.files[i..]) == PrintedTree(o)
    {
      var file := o.files[i];
      FileRowsStep(rows, o.files, i);
      rows := rows + [FileRow(file)];
      var j := 0;
      assert file.matches[0..] == file.matches;
      while j < |file.matches|
        invariant 0 <= j <= |file.matches|
        invariant rows + MatchRows(file.matches[j..]) + FileRows(o.files[i + 1..]) == PrintedTree(o)
      {
        MatchRowsStep(rows, file.matches, j, FileRows(o.files[i + 1..]));
        rows := rows + [MatchRow(file.matches[j])];
        j := j + 1;
      }
      NoMoreMatches(file.matches);
      i := i + 1;
    }
  }

  lemma NoMoreRows(files: seq<FileHits>)
    ensures FileRows(files[|files|..]) == []
  {
  }

  lemma NoMoreMatches(matches: seq<(nat, string)>)
    ensures MatchRows(matches[|matches|..]) == []
  {
  }

  /** What one row does to the files read so far; None where Python raises. A match before any file and
      a row of another kind are passed over. */
  function ParsedRow(files: seq<FileMatches>, row: string, lenient: LenientInt): Option<seq<FileMatches>> {
    var fields := Split(row, 2);
    if fields[0] == "file" then
      if |fields| < 2 then None else Some(files + [FileMatches(fields[1], [])])
    else if fields[0] == "match" && files != [] then
      if |fields| < 3 then None
      else
        match ReadInt(fields[1], lenient)
        case None => None
        case Some(n) =>
          var last := |files| - 1;
          Some(files[last := files[last].(matches := files[last].matches + [(n, fields[2])])])
    else Some(files)
  }

  function ParsedRows(files: seq<FileMatches>, rows: seq<string>, lenient: LenientInt): Option<seq<FileMatches>>
    decreases |rows|
  {
    if rows == [] then Some(files)
    else
      match ParsedRow(files, rows[0], lenient)
      case None => None
      case Some(more) => ParsedRows(more, rows[1..], lenient)
  }

  function ParsedTree(rows: seq<string>, lenient: LenientInt): Option<TreeResult> {
    if rows == [] then None
    else
      var meta := Split(rows[0], |rows[0]|);
      match ParsedRows([], rows[1..], lenient)
      case None => None
      case Some(files) =>
        if |meta| < 3 then None
        else
          match ReadInt(meta[1], lenient)
          case None => None
          case Some(scanned) => Some(TreeResult(files, scanned, meta[2] == "true"))
  }

  method ParseTree(rows: seq<string>, lenient: LenientInt) returns (r: Option<TreeResult>)
    ensures r == ParsedTree(rows, lenient)
  {
    if rows == [] {
      return None;
    }
    var meta := Split(rows[0], |rows[0]|);
    var files: seq<FileMatches> := [];
    var i := 1;
    while i < |rows|
      invariant 1 <= i <= |rows|
      invariant ParsedRows([], rows[1..], lenient) == ParsedRows(files, rows[i..], lenient)
    {
      hide Split, ReadInt;
      assert rows[i..][0] == rows[i] && rows[i..][1..] == rows[i + 1..];
      var fields := Split(rows[i], 2);
      if fields[0] == "file" {
        if |fields| < 2 {
          return None;
        }
        files := files + [FileMatches(fields[1], [])];
      } else if fields[0] == "match" && files != [] {
        if |fields| < 3 {
          return None;
        }
        var number := ReadInt(fields[1], lenient);
        if number == None {
          return None;
        }
        var last := |files| - 1;
        files := files[last := files[last].(matches := files[last].matches + [(number.value, fields[2])])];
      }
      i := i + 1;
    }
    assert rows[i..] == [];
    if |meta| < 3 {
      return None;
    }
    var scanned := ReadInt(meta[1], lenient);
    if scanned == None {
      return None;
    }
    r := Some(TreeResult(files, scanned.value, meta[2] == "true"));
  }

  /** The last file read, with more matches. */
  function WithMatches(files: seq<FileMatches>, matches: seq<(int, string)>): (r: seq<FileMatches>)
    requires files != []
    ensures |r| == |files|
  {
    var last := |files| - 1;
    files[last := files[last].(matches := files[last].matches + matches)]
  }

  lemma WithMatchesTwice(files: seq<FileMatches>, a: seq<(int, string)>, b: seq<(int, string)>)
    requires files != []
    ensures WithMatches(WithMatches(files, a), b) == WithMatches(files, a + b)
    ensures WithMatches(files, []) == files
  {
    var last := |files| - 1;
    assert files[last].matches + a + b == files[last].matches + (a + b);
    assert files[last].matches + [] == files[last].matches;
  }

  lemma MatchRowParsed(files: seq<FileMatches>, m: (nat, string), lenient: LenientInt)
    requires files != []
    ensures ParsedRow(files, MatchRow(m), lenient) == Some(WithMatches(files, [(m.0, m.1)]))
  {
    ReadPrinted(m.0, lenient);
    SplitJoin(["match", Numeral(m.0), m.1], 2);
  }

  lemma ParsedRowsCons(files: seq<FileMatches>, row: string, rest: seq<string>, lenient: LenientInt)
    ensures ParsedRows(files, [row] + rest, lenient) ==
            match ParsedRow(files, row, lenient)
            case None => None
            case Some(more) => ParsedRows(more, rest, lenient)
  {
    hide ParsedRow;
    assert ([row] + rest)[1..] == rest;
  }

  lemma {:induction false} MatchRowsParsed(files: seq<FileMatches>, matches: seq<(nat, string)>, rest: seq<string>,
      lenient: LenientInt)
    requires files != []
    ensures ParsedRows(files, MatchRows(matches) + rest, lenient)
            == ParsedRows(WithMatches(files, SameMatches(matches)), rest, lenient)
    decreases |matches|
  {
    hide ParsedRow, WithMatches, MatchRow;
    if matches == [] {
      assert MatchRows(matches) + rest == rest;
      WithMatchesTwice(files, [], []);
    } else {
      MatchRowParsed(files, matches[0], lenient);
      var m: (int, string) := (matches[0].0, matches[0].1);
      MatchRowsParsed(WithMatches(files, [m]), matches[1..], rest, lenient);
      assert MatchRows(matches) + rest == [MatchRow(matches[0])] + (MatchRows(matches[1..]) + rest);
      ParsedRowsCons(files, MatchRow(matches[0]), MatchRows(matches[1..]) + rest, lenient);
      hide ParsedRows, MatchRows;
      WithMatchesTwice(files, [m], SameMatches(matches[1..]));
    }
  }

  /** The path that comes out of a file row. */
  function ReadPath(path: string): string {
    path[..SeparatorIndex(path)]
  }

  lemma ReadPathExactly(path: string)
    ensures ReadPath(path) == path <==> Clean(path)
  {
    if Clean(path) {
      NoCut(path);
    }
    assert path[..|path|] == path;
  }

  lemma FileRowParsed(files: seq<FileMatches>, f: FileHits, lenient: LenientInt)
    ensures ParsedRow(files, FileRow(f), lenient) == Some(files + [FileMatches(ReadPath(f.path), [])])
  {
    var row := FileRow(f);
    assert Join(["file", f.path][1..]) == f.path;
    assert row == "file" + [SEPARATOR] + f.path;
    FirstField("file", f.path, 2);
    assert f.path[..|f.path|] == f.path;
  }

  /** Reading on never touches the paths of files already read. */
  lemma {:induction false} PathsStay(files: seq<FileMatches>, rows: seq<string>, lenient: LenientInt)
    ensures var r := ParsedRows(files, rows, lenient);
            r.Some? ==> |r.value| >= |files| && forall k :: 0 <= k < |files| ==> r.value[k].path == files[k].path
    decreases |rows|
  {
    if rows != [] {
      var more := ParsedRow(files, rows[0], lenient);
      if more.Some? {
        PathsStay(more.value, rows[1..], lenient);
      }
    }
  }

  predicate CleanFiles(files: seq<FileHits>) {
    forall k :: 0 <= k < |files| ==> Clean(files[k].path)
  }

  /** One file with its matches, read. */
  lemma FileRead(read: seq<FileMatches>, f: FileHits, rest: seq<string>, lenient: LenientInt)
    ensures ParsedRows(read, [FileRow(f)] + MatchRows(f.matches) + rest, lenient) ==
            ParsedRows(Read(read, f), rest, lenient)
  {
    FileRowParsed(read, f, lenient);
    hide ParsedRow, ReadPath;
    var begun := read + [FileMatches(ReadPath(f.path), [])];
    assert ([FileRow(f)] + MatchRows(f.matches) + rest)[1..] == MatchRows(f.matches) + rest;
    MatchRowsParsed(begun, f.matches, rest, lenient);
    assert [] + SameMatches(f.matches) == SameMatches(f.matches);
    assert WithMatches(begun, SameMatches(f.matches)) == read + [FileMatches(ReadPath(f.path), SameMatches(f.matches))];
  }

  lemma CleanFilesCons(f: FileHits, rest: seq<FileHits>)
    ensures CleanFiles([f] + rest) <==> Clean(f.path) && CleanFiles(rest)
  {
    hide Clean;
    var files := [f] + rest;
    assert files[0] == f && forall k :: 0 < k < |files| ==> files[k] == rest[k - 1];
    assert forall k :: 0 <= k < |rest| ==> rest[k] == files[k + 1];
  }

  lemma {:induction false} FilesRoundTrip(read: seq<FileMatches>, files: seq<FileHits>, lenient: LenientInt)
    ensures ParsedRows(read, FileRows(files), lenient) == Some(read + SameFiles(files)) <==> CleanFiles(files)
    decreases |files|
  {
    if files == [] {
      assert read + [] == read;
    } else {
      hide ReadPath, CleanFiles, FileRows, ParsedRows, SameFiles, SameMatches;
      var f, rest := files[0], files[1..];
      assert files == [f] + rest;
      FilesRoundTrip(Read(read, f), rest, lenient);
      FileRowsCons(f, rest);
      FileRead(read, f, FileRows(rest), lenient);
      PathStays(read, f, FileRows(rest), lenient);
      ReadPathExactly(f.path);
      CleanFilesCons(f, rest);
      CompareFiles(ParsedRows(Read(read, f), FileRows(rest), lenient), read, f, rest);
    }
  }

  function Read(read: seq<FileMatches>, f: FileHits): seq<FileMatches> {
    read + [FileMatches(ReadPath(f.path), SameMatches(f.matches))]
  }

  lemma FileRowsCons(f: FileHits, rest: seq<FileHits>)
    ensures FileRows([f] + rest) == [FileRow(f)] + MatchRows(f.matches) + FileRows(rest)
  {
    assert ([f] + rest)[1..] == rest;
  }

  lemma PathStays(read: seq<FileMatches>, f: FileHits, rows: seq<string>, lenient: LenientInt)
    ensures var r := ParsedRows(Read(read, f), rows, lenient);
            r.Some? ==> |r.value| > |read| && r.value[|read|].path == ReadPath(f.path)
  {
    hide ReadPath, ParsedRows;
    PathsStay(Read(read, f), rows, lenient);
  }

  lemma SameFilesCons(f: FileHits, rest: seq<FileHits>)
    ensures SameFiles([f] + rest) == [FileMatches(f.path, SameMatches(f.matches))] + SameFiles(rest)
  {
    hide SameMatches;
    assert ([f] + rest)[1..] == rest;
  }

  /** With its first path cut the list read cannot be the list printed. */
  lemma CompareFiles(r: Option<seq<FileMatches>>, read: seq<FileMatches>, f: FileHits, rest: seq<FileHits>)
    requires && (r == Some(Read(read, f) + SameFiles(rest)) <==> CleanFiles(rest))
             && (r.Some? ==> |r.value| > |read| && r.value[|read|].path == ReadPath(f.path))
    ensures r == Some(read + SameFiles([f] + rest)) <==> ReadPath(f.path) == f.path && CleanFiles(rest)
  {
    SameFilesCons(f, rest);
    hide ReadPath, CleanFiles, SameFiles, SameMatches;
    if ReadPath(f.path) == f.path {
      assert Read(read, f) + SameFiles(rest) == read + SameFiles([f] + rest);
    } else {
      assert (read + SameFiles([f] + rest))[|read|].path == f.path;
    }
  }

  lemma TreeMetaRoundTrip(o: TreeOutcome, lenient: LenientInt)
    ensures var meta := Split(TreeMeta(o), |TreeMeta(o)|);
            |meta| == 3 && ReadInt(meta[1], lenient) == Some(o.filesScanned) && (meta[2] == "true" <==> o.truncated)
  {
    var fields := ["meta", Numeral(o.filesScanned), Flag(o.truncated)];
    ReadPrinted(o.filesScanned, lenient);
    JoinLong(fields);
    SplitJoin(fields, |Join(fields)|);
  }

  /** The grouped rows give back the same files in the same order, each with its matches, the count and
      the flag, if and only if no path holds the separator. */
  lemma TreeRoundTripExactly(o: TreeOutcome, lenient: LenientInt)
    ensures ParsedTree(PrintedTree(o), lenient) == Some(SameTree(o)) <==>
            forall k :: 0 <= k < |o.files| ==> '\U{1F}' !in o.files[k].path
  {
    assert PrintedTree(o)[1..] == FileRows(o.files);
    TreeMetaRoundTrip(o, lenient);
    FilesRoundTrip([], o.files, lenient);
    hide ParsedRows, FileRows, Split, ReadInt, CleanFiles, TreeMeta;
    assert [] + SameFiles(o.files) == SameFiles(o.files);
  }
}
