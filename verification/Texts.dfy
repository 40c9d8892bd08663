/** Whitespace as the source's string methods and its regular expressions' `\s` see it. */
module Texts {
  predicate IsBlank(c: char) {
    var n := c as int;
    9 <= n <= 13 || 28 <= n <= 32 || n in {133, 160, 5760, 8232, 8233, 8239, 8287, 12288} || 8192 <= n <= 8202
  }

  function TrimLeft(s: string): (r: string)
    ensures |r| <= |s|
  {
    if s != [] && IsBlank(s[0]) then TrimLeft(s[1..]) else s
  }

  function TrimRight(s: string): string {
    if s != [] && IsBlank(s[|s| - 1]) then TrimRight(s[..|s| - 1]) else s
  }

  function Trim(s: string): string { TrimRight(TrimLeft(s)) }

  predicate AllBlank(s: string) { forall i :: 0 <= i < |s| ==> IsBlank(s[i]) }

  /** The blanks around a text go, and nothing else. */
  lemma TrimIs(before: string, text: string, after: string)
    requires AllBlank(before) && AllBlank(after)
    requires text != [] ==> !IsBlank(text[0]) && !IsBlank(text[|text| - 1])
    ensures Trim(before + text + after) == text
  {
    assert before + text + after == before + (text + after);
    TrimLeftIs(before, text + after);
    if text == [] {
      assert text + after == after + [];
      TrimLeftIs(after, []);
    } else {
      assert TrimLeft(text + after) == text + after;
      TrimRightIs(text, after);
    }
  }

  lemma {:induction false} TrimLeftIs(before: string, rest: string)
    requires AllBlank(before)
    ensures TrimLeft(before + rest) == TrimLeft(rest)
  {
    if before == [] {
      assert before + rest == rest;
    } else {
      assert (before + rest)[1..] == before[1..] + rest;
      TrimLeftIs(before[1..], rest);
    }
  }

  lemma {:induction false} TrimRightIs(text: string, after: string)
    requires AllBlank(after) && text != [] && !IsBlank(text[|text| - 1])
    ensures TrimRight(text + after) == text
  {
    if after == [] {
      assert text + after == text;
    } else {
      var front := after[..|after| - 1];
      assert (text + after)[..|text + after| - 1] == text + front;
      TrimRightIs(text, front);
    }
  }

  /** So a text is blanks, what `Trim` leaves of it, and blanks. */
  lemma TrimParts(s: string) returns (before: string, after: string)
    ensures s == before + Trim(s) + after && AllBlank(before) && AllBlank(after)
    ensures Trim(s) != [] ==> !IsBlank(Trim(s)[0]) && !IsBlank(Trim(s)[|Trim(s)| - 1])
  {
    before := LeftPart(s);
    after := RightPart(TrimLeft(s));
    assert Trim(s) != [] ==> Trim(s)[0] == TrimLeft(s)[0];
  }

  lemma {:induction false} LeftPart(s: string) returns (before: string)
    ensures s == before + TrimLeft(s) && AllBlank(before)
    ensures TrimLeft(s) != [] ==> !IsBlank(TrimLeft(s)[0])
  {
    before := [];
    if s != [] && IsBlank(s[0]) {
      before := LeftPart(s[1..]);
      before := [s[0]] + before;
    }
  }

  lemma {:induction false} RightPart(s: string) returns (after: string)
    ensures s == TrimRight(s) + after && AllBlank(after)
    ensures TrimRight(s) != [] ==> !IsBlank(TrimRight(s)[|TrimRight(s)| - 1])
  {
    after := [];
    if s != [] && IsBlank(s[|s| - 1]) {
      after := RightPart(s[..|s| - 1]);
      after := after + [s[|s| - 1]];
    }
  }
}
