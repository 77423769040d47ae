/** Text as Python trims it, and the check that every stored text goes through. */
module Texts {
  import opened Wrappers

  /** What Python takes for white space, in `str.split` and `str.strip`. */
  predicate IsSpace(c: char) {
    || '\t' <= c <= '\r' || '\U{1C}' <= c <= ' ' || c == '\U{85}' || c == '\U{A0}' || c == '\U{1680}'
    || '\U{2000}' <= c <= '\U{200A}' || c == '\U{2028}' || c == '\U{2029}' || c == '\U{202F}' || c == '\U{205F}'
    || c == '\U{3000}'
  }

  function Strip(text: string): string {
    if text == "" then ""
    else if IsSpace(text[0]) then Strip(text[1..])
    else if IsSpace(text[|text| - 1]) then Strip(text[..|text| - 1])
    else text
  }

  /** A text without its outer white space; None when nothing is left, or too much. */
  function RequireText(text: string, most: nat): Option<string> {
    var normalized := Strip(text);
    if normalized == "" || |normalized| > most then None else Some(normalized)
  }

  /** A text that went through the check. */
  predicate Checked(text: string, most: nat) {
    text != "" && |text| <= most && !IsSpace(text[0]) && !IsSpace(text[|text| - 1])
  }

  predicate Blank(text: string) {
    forall i :: 0 <= i < |text| ==> IsSpace(text[i])
  }

  /** What the check passes needs no second one, and nothing else stays as it is. */
  lemma {:induction false} StripChecks(text: string, most: nat)
    ensures RequireText(text, most).Some? ==> Checked(RequireText(text, most).value, most)
    ensures RequireText(text, most) == Some(text) <==> Checked(text, most)
    ensures Strip(text) == "" <==> Blank(text)
    decreases |text|
  {
    if text != "" && IsSpace(text[0]) {
      StripChecks(text[1..], most);
      StripShorter(text[1..]);
      assert Blank(text[1..]) ==> Blank(text) by {
        assert forall i :: 0 < i < |text| ==> text[i] == text[1..][i - 1];
      }
    } else if text != "" && IsSpace(text[|text| - 1]) {
      StripChecks(text[..|text| - 1], most);
      StripShorter(text[..|text| - 1]);
    }
  }

  /** What is stripped is white space around what is left. */
  lemma {:induction false} StripIsTrim(text: string) returns (before: string, after: string)
    ensures text == before + Strip(text) + after && Blank(before) && Blank(after)
    decreases |text|
  {
    if text == "" || (!IsSpace(text[0]) && !IsSpace(text[|text| - 1])) {
      before, after := "", "";
    } else if IsSpace(text[0]) {
      before, after := StripIsTrim(text[1..]);
      before := [text[0]] + before;
    } else {
      before, after := StripIsTrim(text[..|text| - 1]);
      after := after + [text[|text| - 1]];
      assert text == text[..|text| - 1] + [text[|text| - 1]];
    }
  }

  /** The white space of Unicode, by number. */
  lemma SpacesExactly(c: char)
    ensures IsSpace(c) <==>
            (c as int) in {9, 10, 11, 12, 13, 28, 29, 30, 31, 32, 133, 160, 5760, 8192, 8193, 8194, 8195, 8196, 8197,
                           8198, 8199, 8200, 8201, 8202, 8232, 8233, 8239, 8287, 12288}
  {
  }

  lemma {:induction false} StripShorter(text: string)
    ensures |Strip(text)| <= |text|
    decreases |text|
  {
    if text != "" && IsSpace(text[0]) {
      StripShorter(text[1..]);
    } else if text != "" && IsSpace(text[|text| - 1]) {
      StripShorter(text[..|text| - 1]);
    }
  }
}
