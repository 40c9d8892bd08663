/** Trailing-comma repair (`_strip_trailing_commas` in `engine/parse.py`). */
module Commas {
  import opened Wrappers
  import opened Scan
  import opened Json
  import opened Texts

  predicate IsCloser(c: char) { c == '}' || c == ']' }

  function SkipBlanks(text: string): (r: string)
    ensures |r| <= |text|
  {
    if text == [] || !IsBlank(text[0]) then text else SkipBlanks(text[1..])
  }

  /** Blanks, then a closing bracket. */
  predicate CloserNext(text: string) {
    var rest := SkipBlanks(text);
    rest != [] && IsCloser(rest[0])
  }

  /** The repaired text: a comma outside strings goes, with the blanks after it, when a closing bracket follows them. */
  function Strip(q: Quote, text: string): string
    decreases |text|
  {
    if text == [] then []
    else if Yields(q, text[0]) && text[0] == ',' && CloserNext(text[1..])
    then Strip(OUT, SkipBlanks(text[1..]))
    else [text[0]] + Strip(Next(q, text[0]), text[1..])
  }

  lemma {:induction false} SkipBlanksAt(text: string, i: nat, j: nat)
    requires i <= j <= |text| && forall k :: i <= k < j ==> IsBlank(text[k])
    requires j == |text| || !IsBlank(text[j])
    ensures SkipBlanks(text[i..]) == text[j..]
    decreases j - i
  {
    if i < j {
      SkipBlanksAt(text, i + 1, j);
      assert text[i..][1..] == text[i + 1..];
    }
  }

  /** Text inside a string literal that does not end it is copied. */
  lemma {:induction false} CopyInside(q: Quote, s: string, rest: string)
    requires q.inString && '"' !in s
    ensures After(q, s).inString && Strip(q, s + rest) == s + Strip(After(q, s), rest)
    decreases |s|
  {
    if s == [] {
      assert s + rest == rest;
    } else {
      CopyInside(Next(q, s[0]), s[1..], rest);
      assert (s + rest)[1..] == s[1..] + rest;
      Assoc([s[0]], s[1..], Strip(After(q, s), rest));
    }
  }

  /** Text outside strings without commas and quotes is copied. */
  lemma {:induction false} CopyOutside(s: string, rest: string)
    requires forall i :: 0 <= i < |s| ==> s[i] != '"' && s[i] != ','
    ensures Strip(OUT, s + rest) == s + Strip(OUT, rest)
    ensures After(OUT, s) == OUT
    decreases |s|
  {
    if s == [] {
      assert s + rest == rest;
    } else {
      CopyOutside(s[1..], rest);
      assert (s + rest)[1..] == s[1..] + rest;
      Assoc([s[0]], s[1..], Strip(OUT, rest));
    }
  }

  /** The expression matches at `i` and ends just after `j`: outside a string the comma goes, inside one nothing does. */
  lemma StripMatch(text: string, i: nat, j: nat)
    requires i < j < |text| && text[i] == ',' && IsCloser(text[j])
    requires forall k :: i < k < j ==> IsBlank(text[k])
    ensures var q, q' := After(OUT, text[..i]), After(OUT, text[..j + 1]);
            Strip(q, text[i..])
            == (if Outside(OUT, text)[i] then [text[j]] else text[i..j + 1]) + Strip(q', text[j + 1..])
  {
    hide *;
    var q, mid := After(OUT, text[..i]), text[i..j + 1];
    AfterMatch(text, i, j);
    if Outside(OUT, text)[i] {
      OutsideMatch(q, text, i, j);
    } else {
      MatchInString(q, text, i, j);
    }
  }

  lemma AfterMatch(text: string, i: nat, j: nat)
    requires i <= j < |text|
    ensures After(OUT, text[..j + 1]) == After(After(OUT, text[..i]), text[i..j + 1])
  {
    hide *;
    assert text[..j + 1] == text[..i] + text[i..j + 1];
    AfterConcat(OUT, text[..i], text[i..j + 1]);
  }

  lemma MatchInString(q: Quote, text: string, i: nat, j: nat)
    requires i < j < |text| && text[i] == ',' && IsCloser(text[j])
    requires forall k :: i < k < j ==> IsBlank(text[k])
    requires q == After(OUT, text[..i]) && !Outside(OUT, text)[i]
    ensures Strip(q, text[i..]) == text[i..j + 1] + Strip(After(q, text[i..j + 1]), text[j + 1..])
  {
    hide After, Outside, Strip;
    OutsideAt(OUT, text, i);
    MatchHasNoQuote(text, i, j);
    assert text[i..] == text[i..j + 1] + text[j + 1..];
    CopyInside(q, text[i..j + 1], text[j + 1..]);
  }

  lemma OutsideMatch(q: Quote, text: string, i: nat, j: nat)
    requires i < j < |text| && text[i] == ',' && IsCloser(text[j])
    requires forall k :: i < k < j ==> IsBlank(text[k])
    requires q == After(OUT, text[..i]) && Outside(OUT, text)[i]
    ensures Strip(q, text[i..]) == [text[j]] + Strip(OUT, text[j + 1..])
    ensures After(q, text[i..j + 1]) == OUT
  {
    hide After, Outside, Strip, SkipBlanks;
    OutsideAt(OUT, text, i);
    SkipBlanksAt(text, i + 1, j);
    CopyOutsideMatch(q, text, i, j);
  }

  lemma MatchHasNoQuote(text: string, i: nat, j: nat)
    requires i < j < |text| && text[i] == ',' && IsCloser(text[j])
    requires forall k :: i < k < j ==> IsBlank(text[k])
    ensures '"' !in text[i..j + 1]
  {
    if '"' in text[i..j + 1] {
      var k :| i <= k <= j && text[k] == '"';
      assert false;
    }
  }

  lemma CopyOutsideMatch(q: Quote, text: string, i: nat, j: nat)
    requires i < j < |text| && text[i] == ',' && IsCloser(text[j]) && !q.inString
    requires forall k :: i < k < j ==> IsBlank(text[k])
    requires SkipBlanks(text[i + 1..]) == text[j..]
    ensures Strip(q, text[i..]) == [text[j]] + Strip(OUT, text[j + 1..])
    ensures After(q, text[i..j + 1]) == OUT
  {
    assert text[i..][0] == ',' && text[i..][1..] == text[i + 1..];
    assert Strip(q, text[i..]) == Strip(OUT, text[j..]);
    assert text[j..] == [text[j]] + text[j + 1..];
    CopyOutside([text[j]], text[j + 1..]);
    assert text[i..j + 1][1..] == text[i + 1..j + 1];
    AfterPlain(text[i + 1..j + 1]);
  }

  lemma {:induction false} AfterPlain(s: string)
    requires forall i :: 0 <= i < |s| ==> s[i] != '"'
    ensures After(OUT, s) == OUT
    decreases |s|
  {
    if s != [] {
      AfterPlain(s[1..]);
    }
  }

  /** A comma with no closer after its blanks, and any other character, is copied. */
  lemma StripCopy(text: string, i: nat)
    requires i < |text| && (text[i] == ',' ==> !CloserNext(text[i + 1..]))
    ensures var q, q' := After(OUT, text[..i]), After(OUT, text[..i + 1]);
            Strip(q, text[i..]) == [text[i]] + Strip(q', text[i + 1..])
  {
    AfterSnoc(OUT, text, i);
    assert text[i..][1..] == text[i + 1..];
  }

  method StripTrailingCommas(text: string) returns (out: string)
    ensures out == Strip(OUT, text)
  {
    hide Strip, After, Outside, SkipBlanks, IsBlank, CloserNext;
    var outside := OutsideStrings(text);
    out := [];
    var i := 0;
    StartStrip(text);
    while i < |text|
      invariant 0 <= i <= |text|
      invariant out + Strip(After(OUT, text[..i]), text[i..]) == Strip(OUT, text)
    {
      var j := i + 1;
      if text[i] == ',' {
        while j < |text| && IsBlank(text[j])
          invariant i < j <= |text| && forall k :: i < k < j ==> IsBlank(text[k])
        {
          j := j + 1;
        }
        CloserNextAt(text, i, j);
        if j < |text| && IsCloser(text[j]) {
          StripMatch(text, i, j);
          var piece := if outside[i] then [text[j]] else text[i..j + 1];
          Assoc(out, piece, Strip(After(OUT, text[..j + 1]), text[j + 1..]));
          out := out + piece;
          i := j + 1;
          continue;
        }
      }
      StripCopy(text, i);
      Assoc(out, [text[i]], Strip(After(OUT, text[..i + 1]), text[i + 1..]));
      out := out + [text[i]];
      i := i + 1;
    }
    EndStrip(text, out);
  }

  lemma StartStrip(text: string)
    ensures [] + Strip(After(OUT, text[..0]), text[0..]) == Strip(OUT, text)
  {
    assert text[0..] == text;
  }

  lemma EndStrip(text: string, out: string)
    requires out + Strip(After(OUT, text[..|text|]), text[|text|..]) == Strip(OUT, text)
    ensures out == Strip(OUT, text)
  {
    assert text[|text|..] == [];
  }

  lemma CloserNextAt(text: string, i: nat, j: nat)
    requires i < j <= |text| && forall k :: i < k < j ==> IsBlank(text[k])
    requires j == |text| || !IsBlank(text[j])
    ensures CloserNext(text[i + 1..]) <==> j < |text| && IsCloser(text[j])
  {
    SkipBlanksAt(text, i + 1, j);
  }

  // ---------------------------------------------------------------------
  // Any text: nothing inside a string literal changes
  // ---------------------------------------------------------------------

  /** The characters of the text's string literals, quotes included. */
  function Literals(q: Quote, text: string): string
    decreases |text|
  {
    if text == [] then []
    else (if Yields(q, text[0]) then [] else [text[0]]) + Literals(Next(q, text[0]), text[1..])
  }

  /** The characters outside string literals that are neither commas nor blanks. */
  function Solids(q: Quote, text: string): string
    decreases |text|
  {
    if text == [] then []
    else (if Yields(q, text[0]) && text[0] != ',' && !IsBlank(text[0]) then [text[0]] else [])
         + Solids(Next(q, text[0]), text[1..])
  }

  lemma {:induction false} BlanksHoldNothing(text: string)
    ensures Literals(OUT, SkipBlanks(text)) == Literals(OUT, text)
    ensures Solids(OUT, SkipBlanks(text)) == Solids(OUT, text)
  {
    if text != [] && IsBlank(text[0]) {
      BlanksHoldNothing(text[1..]);
      assert Literals(OUT, text) == [] + Literals(OUT, text[1..]);
      assert Solids(OUT, text) == [] + Solids(OUT, text[1..]);
    }
  }

  /**
    On every text: each string literal survives byte for byte, and what is
    outside them differs at most in commas and blanks.
   */
  lemma {:induction false} RepairIsStringSafe(q: Quote, text: string)
    ensures Literals(q, Strip(q, text)) == Literals(q, text)
    ensures Solids(q, Strip(q, text)) == Solids(q, text)
    decreases |text|
  {
    if text != [] {
      var rest := text[1..];
      if Yields(q, text[0]) && text[0] == ',' && CloserNext(rest) {
        RepairIsStringSafe(OUT, SkipBlanks(rest));
        BlanksHoldNothing(rest);
        OutsideIsOut(q, Strip(OUT, SkipBlanks(rest)));
        assert Literals(q, text) == [] + Literals(OUT, rest);
        assert Solids(q, text) == [] + Solids(OUT, rest);
      } else {
        RepairIsStringSafe(Next(q, text[0]), rest);
        var out := Strip(q, text);
        assert out[0] == text[0] && out[1..] == Strip(Next(q, text[0]), rest);
      }
    }
  }

  /** The brackets of a text, added up. */
  function Depth(text: string): int {
    if text == [] then 0 else Weight(Either, text[0]) + Depth(text[1..])
  }

  lemma {:induction false} SolidsCarryDepth(q: Quote, text: string)
    ensures Sum(Weights(Either, q, text)) == Depth(Solids(q, text))
    decreases |text|
  {
    if text != [] {
      SolidsCarryDepth(Next(q, text[0]), text[1..]);
      var solids := Solids(Next(q, text[0]), text[1..]);
      DropFirst(text[0], solids);
      assert [] + solids == solids;
    }
  }

  /** A repaired text is cut off exactly when the text itself is. */
  lemma RepairKeepsCut(text: string)
    ensures Unterminated(Strip(OUT, text)) <==> Unterminated(text)
  {
    hide Strip, Weights, Solids, Depth;
    RepairIsStringSafe(OUT, text);
    SolidsCarryDepth(OUT, text);
    SolidsCarryDepth(OUT, Strip(OUT, text));
  }

  lemma OutsideIsOut(q: Quote, text: string)
    requires !q.inString
    ensures Literals(q, text) == Literals(OUT, text) && Solids(q, text) == Solids(OUT, text)
  {
    if text != [] {
      assert Next(q, text[0]) == Next(OUT, text[0]);
    }
  }

  // ---------------------------------------------------------------------
  // Printed JSON: exactly the trailing commas go
  // ---------------------------------------------------------------------

  /** The value without its trailing commas and the whitespace after them. */
  function Clean(v: Json): Json
    decreases v
  {
    match v
    case Box(curly, elems, tail) =>
      Box(curly, CleanElems(elems), if tail.TrailingComma? then NoComma([]) else tail)
    case _ => v
  }

  function CleanElems(elems: Elems): Elems
    decreases elems
  {
    match elems
    case NoElems => NoElems
    case Elem(lead, key, value, trail, rest) => Elem(lead, key, Clean(value), trail, CleanElems(rest))
  }

  /** The text's repair does not depend on what follows it. */
  ghost predicate Repairs(text: string, repaired: string, rest: string) {
    Strip(OUT, text + rest) == repaired + Strip(OUT, rest)
  }

  lemma RepairsConcat(a: string, a': string, b: string, b': string, rest: string)
    requires Repairs(a, a', b + rest) && Repairs(b, b', rest)
    ensures Repairs(a + b, a' + b', rest)
  {
    hide Strip;
    Assoc(a, b, rest);
    Assoc(a', b', Strip(OUT, rest));
  }

  lemma RepairsPlain(s: string, rest: string)
    requires forall i :: 0 <= i < |s| ==> s[i] != '"' && s[i] != ','
    ensures Repairs(s, s, rest)
  {
    CopyOutside(s, rest);
  }

  lemma {:induction false} CopyItems(items: seq<Item>, rest: string)
    requires ItemsOk(items)
    ensures Strip(IN, PrintItems(items) + rest) == PrintItems(items) + Strip(IN, rest)
  {
    if items == [] {
      assert PrintItems(items) + rest == rest;
    } else {
      var head := if items[0].Plain? then [items[0].c] else ['\\', items[0].c];
      var more := PrintItems(items[1..]);
      CopyItems(items[1..], rest);
      CopyHead(items[0], more + rest);
      Assoc(head, more, rest);
      Assoc(head, more, Strip(IN, rest));
    }
  }

  lemma CopyHead(item: Item, rest: string)
    requires item.Plain? ==> item.c != '"' && item.c != '\\'
    ensures var head := if item.Plain? then [item.c] else ['\\', item.c];
            Strip(IN, head + rest) == head + Strip(IN, rest)
  {
    if item.Plain? {
      DropFirst(item.c, rest);
    } else {
      var head := ['\\', item.c];
      assert head + rest == ['\\'] + ([item.c] + rest);
      DropFirst('\\', [item.c] + rest);
      DropFirst(item.c, rest);
      assert Strip(IN, head + rest) == ['\\'] + Strip(Quote(true, true), [item.c] + rest);
      assert Strip(Quote(true, true), [item.c] + rest) == [item.c] + Strip(IN, rest);
    }
  }

  lemma RepairsString(items: seq<Item>, rest: string)
    requires ItemsOk(items)
    ensures Repairs(PrintString(items), PrintString(items), rest)
  {
    var body := PrintItems(items);
    CopyItems(items, "\"" + rest);
    DropFirst('"', rest);
    DropFirst('"', body + ("\"" + rest));
    assert PrintString(items) + rest == ['"'] + (body + ("\"" + rest));
    assert Strip(OUT, PrintString(items) + rest) == ['"'] + Strip(IN, body + ("\"" + rest));
    assert Strip(IN, "\"" + rest) == ['"'] + Strip(OUT, rest);
  }

  /** A comma before something other than a closer stays. */
  lemma RepairsComma(rest: string)
    requires !CloserNext(rest)
    ensures Repairs(",", ",", rest)
  {
    DropFirst(',', rest);
  }

  lemma {:induction false} SkipSpaces(s: string, rest: string)
    requires Spaces(s)
    ensures SkipBlanks(s + rest) == SkipBlanks(rest)
  {
    if s == [] {
      assert s + rest == rest;
    } else {
      assert IsSpace(s[0]) && IsBlank(s[0]);
      assert (s + rest)[1..] == s[1..] + rest;
      SkipSpaces(s[1..], rest);
    }
  }

  /** A value starts with neither whitespace nor a closer. */
  lemma ValueStart(v: Json)
    requires Valid(v)
    ensures Print(v) != [] && !IsBlank(Print(v)[0]) && !IsCloser(Print(v)[0])
  {
    if v.Lit? {
      LitStart(v.text[0]);
    }
  }

  /** A literal's characters are not whitespace of any kind: JSON's numbers and names are ASCII. */
  lemma LitStart(c: char)
    requires IsLitChar(c)
    ensures !IsBlank(c) && !IsCloser(c)
  {
  }

  lemma ElemStart(lead: string, key: Option<Key>, v: Json, more: string)
    requires Spaces(lead) && Valid(v)
    ensures !CloserNext(lead + PrintKey(key) + Print(v) + more)
  {
    KeyStart(key);
    ValueStart(v);
    hide PrintKey, Print, Valid;
    var body := PrintKey(key) + Print(v) + more;
    Assoc(lead, PrintKey(key), Print(v));
    Assoc(lead, PrintKey(key) + Print(v), more);
    SkipSpaces(lead, body);
    NoBlankAhead(body);
  }

  lemma KeyStart(key: Option<Key>)
    ensures if key.None? then PrintKey(key) == [] else PrintKey(key) != [] && PrintKey(key)[0] == '"'
  {
    if key.Some? {
      var items := PrintItems(key.value.items);
      hide PrintItems;
      assert PrintString(key.value.items) == ['"'] + (items + "\"");
    }
  }

  lemma NoBlankAhead(text: string)
    requires text != [] && !IsBlank(text[0]) && !IsCloser(text[0])
    ensures SkipBlanks(text) == text && !CloserNext(text)
  {
  }

  lemma RepairsKey(key: Option<Key>, rest: string)
    requires key.Some? ==> ItemsOk(key.value.items) && Spaces(key.value.beforeColon) && Spaces(key.value.afterColon)
    ensures Repairs(PrintKey(key), PrintKey(key), rest)
  {
    if key.None? {
      RepairsPlain([], rest);
    } else {
      var after := key.value.beforeColon + ":" + key.value.afterColon;
      RepairsPlain(after, rest);
      RepairsString(key.value.items, after + rest);
      RepairsConcat(PrintString(key.value.items), PrintString(key.value.items), after, after, rest);
      assert PrintKey(key) == PrintString(key.value.items) + after;
    }
  }

  /** The closing bracket takes the comma before it, and the whitespace between them, away. */
  lemma RepairsTail(tail: Tail, curly: bool, rest: string)
    requires Spaces(tail.space)
    ensures var clean := if tail.TrailingComma? then NoComma([]) else tail;
            Repairs(PrintTail(tail) + Close(curly), PrintTail(clean) + Close(curly), rest)
  {
    hide Strip, SkipBlanks;
    RepairsPlain(Close(curly), rest);
    if tail.TrailingComma? {
      var more := Close(curly) + rest;
      SkipSpaces(tail.space, more);
      CloserStays(more);
      StripComma(tail.space + more);
      assert PrintTail(tail) + Close(curly) + rest == [','] + (tail.space + more);
      assert PrintTail(NoComma([])) + Close(curly) == Close(curly);
    } else {
      RepairsPlain(tail.space + Close(curly), rest);
    }
  }

  lemma CloserStays(text: string)
    requires text != [] && IsCloser(text[0])
    ensures SkipBlanks(text) == text
  {
  }

  lemma StripComma(rest: string)
    requires CloserNext(rest)
    ensures Strip(OUT, [','] + rest) == Strip(OUT, SkipBlanks(rest))
  {
    DropFirst(',', rest);
  }

  /** Comma repair on a printed value, whatever follows it. */
  lemma {:induction false} RepairsPrint(v: Json, rest: string)
    requires Valid(v)
    ensures Repairs(Print(v), Print(Clean(v)), rest)
    decreases v, 0
  {
    hide Repairs, Strip;
    match v
    case Lit(text) => RepairsPlain(text, rest);
    case Str(items) => RepairsString(items, rest);
    case Box(curly, elems, tail) =>
      RepairsElems(curly, elems, PrintTail(tail) + Close(curly) + rest);
      RepairsBox(curly, tail, PrintElems(elems), PrintElems(CleanElems(elems)), rest);
  }

  lemma RepairsBox(curly: bool, tail: Tail, body: string, body': string, rest: string)
    requires Spaces(tail.space) && Repairs(body, body', PrintTail(tail) + Close(curly) + rest)
    ensures var clean := if tail.TrailingComma? then NoComma([]) else tail;
            Repairs(Open(curly) + (body + PrintTail(tail)) + Close(curly),
                    Open(curly) + (body' + PrintTail(clean)) + Close(curly), rest)
  {
    hide Repairs, Strip, PrintTail;
    var clean := if tail.TrailingComma? then NoComma([]) else tail;
    var end, end' := PrintTail(tail) + Close(curly), PrintTail(clean) + Close(curly);
    RepairsTail(tail, curly, rest);
    RepairsConcat(body, body', end, end', rest);
    RepairsPlain(Open(curly), body + end + rest);
    RepairsConcat(Open(curly), Open(curly), body + end, body' + end', rest);
    assert Open(curly) + (body + PrintTail(tail)) + Close(curly) == Open(curly) + (body + end);
    assert Open(curly) + (body' + PrintTail(clean)) + Close(curly) == Open(curly) + (body' + end');
  }

  lemma {:induction false} RepairsElems(curly: bool, elems: Elems, rest: string)
    requires ValidElems(curly, elems)
    ensures Repairs(PrintElems(elems), PrintElems(CleanElems(elems)), rest)
    decreases elems, 0
  {
    hide Repairs, Strip;
    match elems
    case NoElems => RepairsPlain([], rest);
    case Elem(lead, key, value, trail, more) =>
      RepairsRest(curly, more, rest);
      var tail, tail' := RestOf(more), RestOf(CleanElems(more));
      RepairsPlain(trail, tail + rest);
      RepairsConcat(trail, trail, tail, tail', rest);
      RepairsPrint(value, trail + tail + rest);
      RepairsConcat(Print(value), Print(Clean(value)), trail + tail, trail + tail', rest);
      RepairsKey(key, Print(value) + (trail + tail) + rest);
      RepairsConcat(PrintKey(key), PrintKey(key), Print(value) + (trail + tail), Print(Clean(value)) + (trail + tail'), rest);
      RepairsPlain(lead, PrintKey(key) + (Print(value) + (trail + tail)) + rest);
      RepairsConcat(lead, lead, PrintKey(key) + (Print(value) + (trail + tail)),
                    PrintKey(key) + (Print(Clean(value)) + (trail + tail')), rest);
      ElemParts(lead, PrintKey(key), Print(value), trail, tail);
      ElemParts(lead, PrintKey(key), Print(Clean(value)), trail, tail');
  }

  lemma ElemParts(lead: string, key: string, value: string, trail: string, tail: string)
    ensures lead + key + value + trail + tail == lead + (key + (value + (trail + tail)))
  {
  }

  /** What follows an element: nothing, or a comma and the next ones. */
  function RestOf(more: Elems): string { if more.NoElems? then [] else "," + PrintElems(more) }

  lemma {:induction false} RepairsRest(curly: bool, more: Elems, rest: string)
    requires ValidElems(curly, more)
    ensures Repairs(RestOf(more), RestOf(CleanElems(more)), rest)
    decreases more, 1
  {
    hide Repairs, Strip;
    if more.NoElems? {
      RepairsPlain([], rest);
    } else {
      RepairsElems(curly, more, rest);
      var tail := more.trail + RestOf(more.rest) + rest;
      ElemStart(more.lead, more.key, more.value, tail);
      assert PrintElems(more) + rest == more.lead + PrintKey(more.key) + Print(more.value) + tail;
      RepairsComma(PrintElems(more) + rest);
      RepairsConcat(",", ",", PrintElems(more), PrintElems(CleanElems(more)), rest);
    }
  }

  /** On printed JSON the repair removes exactly the trailing commas and the whitespace after them. */
  lemma RepairIsExact(v: Json)
    requires Valid(v)
    ensures Strip(OUT, Print(v)) == Print(Clean(v))
  {
    RepairsPrint(v, []);
    assert Print(v) + [] == Print(v) && Strip(OUT, []) == [];
  }

  lemma {:induction false} CleanIsClean(v: Json)
    requires Valid(v)
    ensures Valid(Clean(v)) && Clean(Clean(v)) == Clean(v)
    decreases v
  {
    if v.Box? {
      CleanElemsAreClean(v.curly, v.elems);
    }
  }

  lemma {:induction false} CleanElemsAreClean(curly: bool, elems: Elems)
    requires ValidElems(curly, elems)
    ensures ValidElems(curly, CleanElems(elems)) && CleanElems(CleanElems(elems)) == CleanElems(elems)
    decreases elems
  {
    if elems.Elem? {
      CleanIsClean(elems.value);
      CleanElemsAreClean(curly, elems.rest);
    }
  }

  /** Repairing printed JSON once is enough. */
  lemma RepairIsStable(v: Json)
    requires Valid(v)
    ensures Strip(OUT, Strip(OUT, Print(v))) == Strip(OUT, Print(v))
  {
    hide Strip, Print, Clean, Valid;
    CleanIsClean(v);
    RepairIsExact(v);
    RepairIsExact(Clean(v));
  }
}
