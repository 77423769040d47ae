/** Naming the pattern constructs the regex subset refuses: a table of literals, then back-references
    found by counting the backslashes of a run. */
module EscapeScan {
  import opened Wrappers

  datatype Unsupported = Unsupported(construct: string, needle: string)

  /** The refused literals. Their order decides which one is named. */
  const UNSUPPORTED: seq<Unsupported> := [
    Unsupported("lookbehind", "(?<="),
    Unsupported("negative lookbehind", "(?<!"),
    Unsupported("lookahead", "(?="),
    Unsupported("negative lookahead", "(?!"),
    Unsupported("atomic group", "(?>"),
    Unsupported("named backreference", "(?P=")
  ]

  predicate OccursAt(text: string, needle: string, i: nat) {
    i + |needle| <= |text| && text[i..i + |needle|] == needle
  }

  predicate Contains(text: string, needle: string) {
    exists i :: 0 <= i <= |text| && OccursAt(text, needle, i)
  }

  // ----- patterns as a reader sees them: a backslash always takes the next character with it ----

  datatype Token = Escape(c: char) | Plain(c: char)

  function Tokens(pattern: string): seq<Token> {
    if pattern == "" then []
    else if pattern[0] == '\\' && |pattern| >= 2 then [Escape(pattern[1])] + Tokens(pattern[2..])
    else [Plain(pattern[0])] + Tokens(pattern[1..])
  }

  function Spelled(tokens: seq<Token>): string {
    if tokens == [] then ""
    else (match tokens[0] case Escape(c) => ['\\', c] case Plain(c) => [c]) + Spelled(tokens[1..])
  }

  /** The tokens are the whole pattern, nothing skipped and nothing read twice. */
  lemma {:induction false} TokensSpellPattern(pattern: string)
    ensures Spelled(Tokens(pattern)) == pattern
  {
    if pattern == "" {
    } else if pattern[0] == '\\' && |pattern| >= 2 {
      TokensSpellPattern(pattern[2..]);
    } else {
      TokensSpellPattern(pattern[1..]);
    }
  }

  predicate GroupDigit(c: char) {
    '1' <= c <= '9'
  }

  predicate BackReference(t: Token) {
    t.Escape? && GroupDigit(t.c)
  }

  /** Where the first back-reference token at or after `i` starts. */
  function FirstFrom(pattern: string, i: nat): Option<nat>
    decreases |pattern| - i
  {
    if i + 1 >= |pattern| then None
    else if pattern[i] != '\\' then FirstFrom(pattern, i + 1)
    else if GroupDigit(pattern[i + 1]) then Some(i)
    else FirstFrom(pattern, i + 2)
  }

  /** The first back-reference among the tokens. */
  function FirstToken(tokens: seq<Token>): (j: nat)
    ensures j <= |tokens| && (j < |tokens| ==> BackReference(tokens[j]))
    ensures forall k :: 0 <= k < j ==> !BackReference(tokens[k])
  {
    if tokens == [] || BackReference(tokens[0]) then 0 else 1 + FirstToken(tokens[1..])
  }

  /** The position is that of the first token that is a back-reference, and there is none if and only if
      no token is one. */
  lemma {:induction false} FirstFromMeaning(pattern: string, i: nat)
    requires i <= |pattern|
    ensures var tokens := Tokens(pattern[i..]);
            var j := FirstToken(tokens);
            FirstFrom(pattern, i) == if j < |tokens| then Some(i + |Spelled(tokens[..j])|) else None
    decreases |pattern| - i
  {
    hide Spelled, FirstToken, GroupDigit;
    var rest := pattern[i..];
    if rest == "" {
      NoTokens();
    } else if i + 1 == |pattern| {
      assert Tokens(rest) == [Plain(rest[0])] by { assert rest[1..] == ""; }
      NoTokens();
      TokenAhead(Plain(rest[0]), []);
    } else {
      var step := if rest[0] == '\\' then 2 else 1;
      FirstFromMeaning(pattern, i + step);
      var tail := Tokens(pattern[i + step..]);
      var head := if rest[0] == '\\' then Escape(rest[1]) else Plain(rest[0]);
      assert Tokens(rest) == [head] + tail by { assert rest[step..] == pattern[i + step..]; }
      hide Tokens;
      TokenAhead(head, tail);
    }
  }

  lemma NoTokens()
    ensures FirstToken([]) == 0 && Spelled([]) == ""
  {
  }

  lemma TokenAhead(t: Token, tail: seq<Token>)
    ensures var tokens := [t] + tail;
            if BackReference(t) then FirstToken(tokens) == 0 && Spelled(tokens[..0]) == ""
            else
              var j := FirstToken(tail);
              && FirstToken(tokens) == j + 1
              && |Spelled(tokens[..j + 1])| == (if t.Escape? then 2 else 1) + |Spelled(tail[..j])|
  {
    var tokens := [t] + tail;
    var j := FirstToken(tail);
    assert tokens[1..] == tail;
    assert tokens[..j + 1] == [t] + tail[..j];
    assert ([t] + tail[..j])[1..] == tail[..j];
  }

  /** Where the run of backslashes around position `k` starts. */
  function RunStart(pattern: string, k: nat): (i: nat)
    requires k < |pattern|
    ensures i <= k
  {
    if k > 0 && pattern[k - 1] == '\\' then RunStart(pattern, k - 1) else k
  }

  /** Pairs of backslashes are escapes of a backslash. */
  lemma {:induction false} EvenRun(pattern: string, i: nat, run: nat)
    requires i + run <= |pattern| && run % 2 == 0
    requires forall k :: i <= k < i + run ==> pattern[k] == '\\'
    ensures FirstFrom(pattern, i) == FirstFrom(pattern, i + run)
    decreases run
  {
    if run > 0 {
      EvenRun(pattern, i + 2, run - 2);
    }
  }

  lemma {:induction false} RunStartIs(pattern: string, i: nat, k: nat)
    requires i <= k < |pattern| && (i > 0 ==> pattern[i - 1] != '\\')
    requires forall j :: i <= j < k ==> pattern[j] == '\\'
    ensures RunStart(pattern, k) == i
  {
    if i < k {
      RunStartIs(pattern, i, k - 1);
    }
  }

  /** What the scanner reports: the first refused literal of the table, else the first back-reference
      token, named by its digit and the backslashes in front of it. */
  function Classified(pattern: string, table: seq<Unsupported>): Option<Unsupported> {
    if table == [] then
      match FirstFrom(pattern, 0)
      case None => None
      case Some(k) =>
        if k + 2 <= |pattern| then Some(Unsupported("backreference", pattern[RunStart(pattern, k)..k + 2])) else None
    else if Contains(pattern, table[0].needle) then Some(table[0])
    else Classified(pattern, table[1..])
  }

  /** A pattern is accepted if and only if it holds no refused literal and no back-reference token. */
  lemma AcceptedExactly(pattern: string)
    ensures Classified(pattern, UNSUPPORTED) == None <==>
            && (forall u :: u in UNSUPPORTED ==> !Contains(pattern, u.needle))
            && (forall t :: t in Tokens(pattern) ==> !BackReference(t))
  {
    TableSearch(pattern, UNSUPPORTED);
    assert pattern[0..] == pattern;
    FirstFromMeaning(pattern, 0);
    var tokens := Tokens(pattern);
    assert FirstToken(tokens) == |tokens| <==> forall t :: t in tokens ==> !BackReference(t);
    FirstFromBound(pattern, 0);
  }

  /** `literal` stands somewhere in the pattern. */
  ghost predicate Holds(pattern: string, literal: string) {
    exists a, b :: pattern == a + literal + b
  }

  lemma HoldsIsContains(pattern: string, literal: string)
    ensures Holds(pattern, literal) <==> Contains(pattern, literal)
  {
    if a, b :| pattern == a + literal + b {
      assert OccursAt(pattern, literal, |a|);
    }
    if i :| 0 <= i <= |pattern| && OccursAt(pattern, literal, i) {
      assert pattern == pattern[..i] + literal + pattern[i + |literal|..];
    }
  }

  /** What is refused, and by which name: the first of six literals that stands in the pattern, or else a
      backslash that is not itself escaped, with a digit from one to nine behind it. */
  lemma NamedExactly(pattern: string)
    ensures var r := Classified(pattern, UNSUPPORTED);
            if Holds(pattern, "(?<=") then r == Some(Unsupported("lookbehind", "(?<="))
            else if Holds(pattern, "(?<!") then r == Some(Unsupported("negative lookbehind", "(?<!"))
            else if Holds(pattern, "(?=") then r == Some(Unsupported("lookahead", "(?="))
            else if Holds(pattern, "(?!") then r == Some(Unsupported("negative lookahead", "(?!"))
            else if Holds(pattern, "(?>") then r == Some(Unsupported("atomic group", "(?>"))
            else if Holds(pattern, "(?P=") then r == Some(Unsupported("named backreference", "(?P="))
            else if exists t :: t in Tokens(pattern) && t.Escape? && t.c in "123456789" then
              r.Some? && r.value.construct == "backreference"
            else r == None
  {
    hide Contains, Holds, FirstFrom, Tokens;
    HoldsIsContains(pattern, "(?<=");
    HoldsIsContains(pattern, "(?<!");
    HoldsIsContains(pattern, "(?=");
    HoldsIsContains(pattern, "(?!");
    HoldsIsContains(pattern, "(?>");
    HoldsIsContains(pattern, "(?P=");
    SixSteps(pattern);
    AcceptedExactly(pattern);
    forall c: char ensures GroupDigit(c) <==> c in "123456789" {
      NineDigits(c);
    }
    FirstFromBound(pattern, 0);
    if t :| t in Tokens(pattern) && t.Escape? && t.c in "123456789" {
      assert GroupDigit(t.c) && BackReference(t);
    }
  }

  lemma NineDigits(c: char)
    ensures GroupDigit(c) <==> c in "123456789"
  {
    var digits := "123456789";
    if GroupDigit(c) {
      assert digits[(c as int) - 49] == c;
    }
  }

  lemma SixSteps(pattern: string)
    ensures var r := Classified(pattern, UNSUPPORTED);
            if Contains(pattern, "(?<=") then r == Some(Unsupported("lookbehind", "(?<="))
            else if Contains(pattern, "(?<!") then r == Some(Unsupported("negative lookbehind", "(?<!"))
            else if Contains(pattern, "(?=") then r == Some(Unsupported("lookahead", "(?="))
            else if Contains(pattern, "(?!") then r == Some(Unsupported("negative lookahead", "(?!"))
            else if Contains(pattern, "(?>") then r == Some(Unsupported("atomic group", "(?>"))
            else if Contains(pattern, "(?P=") then r == Some(Unsupported("named backreference", "(?P="))
            else r == Classified(pattern, [])
  {
    hide Contains, FirstFrom;
    TableStep(pattern, UNSUPPORTED, 0);
    TableStep(pattern, UNSUPPORTED, 1);
    TableStep(pattern, UNSUPPORTED, 2);
    TableStep(pattern, UNSUPPORTED, 3);
    TableStep(pattern, UNSUPPORTED, 4);
    TableStep(pattern, UNSUPPORTED, 5);
    hide Classified;
    assert UNSUPPORTED[0..] == UNSUPPORTED && UNSUPPORTED[6..] == [];
  }

  lemma TableStep(pattern: string, table: seq<Unsupported>, k: nat)
    requires k < |table|
    ensures Classified(pattern, table[k..]) ==
            if Contains(pattern, table[k].needle) then Some(table[k]) else Classified(pattern, table[k + 1..])
  {
    assert table[k..][1..] == table[k + 1..];
  }

  lemma {:induction false} TableSearch(pattern: string, table: seq<Unsupported>)
    ensures (forall u :: u in table ==> !Contains(pattern, u.needle)) ==>
            Classified(pattern, table) == Classified(pattern, [])
    ensures (exists u :: u in table && Contains(pattern, u.needle)) ==> Classified(pattern, table) != None
  {
    if table != [] {
      TableSearch(pattern, table[1..]);
      assert table == [table[0]] + table[1..];
    }
  }

  lemma {:induction false} FirstFromBound(pattern: string, i: nat)
    ensures FirstFrom(pattern, i).Some? ==>
            i <= FirstFrom(pattern, i).value && FirstFrom(pattern, i).value + 2 <= |pattern|
    decreases |pattern| - i
  {
    if i + 1 >= |pattern| {
    } else if pattern[i] != '\\' {
      FirstFromBound(pattern, i + 1);
    } else if !GroupDigit(pattern[i + 1]) {
      FirstFromBound(pattern, i + 2);
    }
  }

  /** One run of backslashes, counted: it hides a back-reference exactly when it is odd and a digit
      follows; otherwise the search goes on right behind it. */
  lemma OneRun(pattern: string, i: nat, run: nat)
    requires run > 0 && i + run <= |pattern| && forall k :: i <= k < i + run ==> pattern[k] == '\\'
    requires i + run < |pattern| ==> pattern[i + run] != '\\'
    ensures FirstFrom(pattern, i) ==
            if run % 2 == 1 && i + run < |pattern| && GroupDigit(pattern[i + run]) then Some(i + run - 1)
            else FirstFrom(pattern, i + run)
  {
    EvenRun(pattern, i, run - run % 2);
  }

  lemma PlainStep(pattern: string, i: nat)
    requires i < |pattern| && pattern[i] != '\\'
    ensures FirstFrom(pattern, i) == FirstFrom(pattern, i + 1)
  {
  }

  lemma TooShort(pattern: string, i: nat)
    requires i + 1 >= |pattern|
    ensures FirstFrom(pattern, i) == None
  {
  }

  /** The reported text: an odd number of backslashes and a group digit. */
  predicate OddRunAndDigit(needle: string) {
    && |needle| >= 2 && |needle| % 2 == 0 && GroupDigit(needle[|needle| - 1])
    && forall k :: 0 <= k < |needle| - 1 ==> needle[k] == '\\'
  }

  method ClassifyUnsupported(pattern: string) returns (r: Option<Unsupported>)
    ensures r == Classified(pattern, UNSUPPORTED)
  {
    hide Contains;
    for n := 0 to |UNSUPPORTED|
      invariant Classified(pattern, UNSUPPORTED) == Classified(pattern, UNSUPPORTED[n..])
    {
      if Contains(pattern, UNSUPPORTED[n].needle) {
        return Some(UNSUPPORTED[n]);
      }
      assert UNSUPPORTED[n..][1..] == UNSUPPORTED[n + 1..];
    }
    assert UNSUPPORTED[|UNSUPPORTED|..] == [];
    r := ScanBackReferences(pattern);
  }

  method ScanBackReferences(pattern: string) returns (r: Option<Unsupported>)
    ensures r == Classified(pattern, [])
    ensures r.Some? ==> OddRunAndDigit(r.value.needle)
  {
    hide FirstFrom, RunStart;
    var i := 0;
    while i + 1 < |pattern|
      invariant 0 <= i <= |pattern|
      invariant FirstFrom(pattern, 0) == FirstFrom(pattern, i)
      invariant 0 < i < |pattern| && pattern[i] == '\\' ==> pattern[i - 1] != '\\'
    {
      if pattern[i] == '\\' {
        var run := 0;
        while i + run < |pattern| && pattern[i + run] == '\\'
          invariant i + run <= |pattern|
          invariant forall k :: i <= k < i + run ==> pattern[k] == '\\'
        {
          run := run + 1;
        }
        var next := i + run;
        OneRun(pattern, i, run);
        if run % 2 == 1 && next < |pattern| && GroupDigit(pattern[next]) {
          RunStartIs(pattern, i, next - 1);
          return Some(Unsupported("backreference", pattern[i..next + 1]));
        }
        i := i + run;
      } else {
        PlainStep(pattern, i);
        i := i + 1;
      }
    }
    TooShort(pattern, i);
    return None;
  }
}
