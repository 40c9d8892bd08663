/**
  Printed JSON (RFC 8259, sections 2, 4, 5 and 7) against the delimiter walks:
  a container is found as one exact span, and truncation detection is exact.
 */
module Json {
  import opened Wrappers
  import opened Scan

  /** A character of a string literal: itself, or a backslash and the character it escapes. */
  datatype Item = Plain(c: char) | Escape(c: char)

  /** What stands between the last element and the closing bracket. */
  datatype Tail = NoComma(space: string) | TrailingComma(space: string)

  /**
    Concrete syntax. An object and an array are both a `Box`; a member of an
    object is an element with a key. A trailing comma is not JSON, but is what
    models write, so the syntax has a place for it.
   */
  datatype Json = Lit(text: string) | Str(items: seq<Item>) | Box(curly: bool, elems: Elems, tail: Tail)
  datatype Elems = NoElems | Elem(lead: string, key: Option<Key>, value: Json, trail: string, rest: Elems)
  datatype Key = Key(items: seq<Item>, beforeColon: string, afterColon: string)

  predicate IsSpace(c: char) { c == ' ' || c == '\t' || c == '\n' || c == '\r' }

  predicate Spaces(s: string) { forall i :: 0 <= i < |s| ==> IsSpace(s[i]) }

  /** A character that can stand in a number, `true`, `false` or `null`. */
  predicate IsLitChar(c: char) {
    33 <= c as int <= 126 && c != '"' && c != '\\' && c != ',' && !Opens(Either, c) && !Closes(Either, c)
  }

  predicate ItemsOk(items: seq<Item>) {
    forall i :: 0 <= i < |items| && items[i].Plain? ==> items[i].c != '"' && items[i].c != '\\'
  }

  predicate Valid(v: Json)
    decreases v
  {
    match v
    case Lit(text) => text != [] && forall i :: 0 <= i < |text| ==> IsLitChar(text[i])
    case Str(items) => ItemsOk(items)
    case Box(curly, elems, tail) => ValidElems(curly, elems) && Spaces(tail.space)
  }

  predicate ValidElems(curly: bool, elems: Elems)
    decreases elems
  {
    match elems
    case NoElems => true
    case Elem(lead, key, value, trail, rest) =>
      && Spaces(lead) && Spaces(trail) && Valid(value) && ValidElems(curly, rest)
      && (curly <==> key.Some?)
      && (key.Some? ==> ItemsOk(key.value.items) && Spaces(key.value.beforeColon) && Spaces(key.value.afterColon))
  }

  function PrintItems(items: seq<Item>): string {
    if items == [] then []
    else (if items[0].Plain? then [items[0].c] else ['\\', items[0].c]) + PrintItems(items[1..])
  }

  function PrintString(items: seq<Item>): string { "\"" + PrintItems(items) + "\"" }

  function PrintKey(key: Option<Key>): string {
    if key.None? then []
    else PrintString(key.value.items) + key.value.beforeColon + ":" + key.value.afterColon
  }

  function Open(curly: bool): string { if curly then "{" else "[" }
  function Close(curly: bool): string { if curly then "}" else "]" }

  function PrintTail(tail: Tail): string {
    if tail.TrailingComma? then "," + tail.space else tail.space
  }

  function Print(v: Json): string {
    match v
    case Lit(text) => text
    case Str(items) => PrintString(items)
    case Box(curly, elems, tail) => Open(curly) + (PrintElems(elems) + PrintTail(tail)) + Close(curly)
  }

  function PrintElems(elems: Elems): string {
    match elems
    case NoElems => []
    case Elem(lead, key, value, trail, rest) =>
      lead + PrintKey(key) + Print(value) + trail + (if rest.NoElems? then [] else "," + PrintElems(rest))
  }

  // ---------------------------------------------------------------------
  // Calm text: balanced, never below where it started, outside strings at the end
  // ---------------------------------------------------------------------

  ghost predicate Calm(k: Kind, text: string) {
    && After(OUT, text) == OUT
    && Sum(Weights(k, OUT, text)) == 0
    && forall c :: 0 <= c <= |text| ==> Sum(Weights(k, OUT, text)[..c]) >= 0
  }

  lemma PrefixOfConcat(ws: seq<int>, vs: seq<int>, c: nat)
    requires c <= |ws| + |vs|
    ensures (ws + vs)[..c] == if c <= |ws| then ws[..c] else ws + vs[..c - |ws|]
  {
  }

  lemma CalmConcat(k: Kind, a: string, b: string)
    requires Calm(k, a) && Calm(k, b)
    ensures Calm(k, a + b)
  {
    hide Weights, After, Sum;
    AfterConcat(OUT, a, b);
    WeightsConcat(k, OUT, a, b);
    var ws, vs := Weights(k, OUT, a), Weights(k, OUT, b);
    SumConcat(ws, vs);
    forall c | 0 <= c <= |a + b|
      ensures Sum((ws + vs)[..c]) >= 0
    {
      PrefixOfConcat(ws, vs, c);
      if c > |ws| {
        SumConcat(ws, vs[..c - |ws|]);
      }
    }
  }

  lemma CalmEmpty(k: Kind)
    ensures Calm(k, [])
  {
  }

  /** A character that opens no string and no bracket. */
  lemma CalmChar(k: Kind, c: char)
    requires c != '"' && !Opens(Either, c) && !Closes(Either, c)
    ensures Calm(k, [c])
  {
    var ws := Weights(k, OUT, [c]);
    assert ws == [0];
    forall n | 0 <= n <= 1
      ensures Sum(ws[..n]) >= 0
    {
      assert n == 1 ==> ws[..n] == [0];
      assert Sum([0]) == 0 + Sum([]);
    }
    assert Sum([0]) == 0 + Sum([]);
  }

  lemma {:induction false} CalmChars(k: Kind, s: string)
    requires forall i :: 0 <= i < |s| ==> s[i] != '"' && !Opens(Either, s[i]) && !Closes(Either, s[i])
    ensures Calm(k, s)
  {
    if s == [] {
      CalmEmpty(k);
    } else {
      CalmChar(k, s[0]);
      CalmChars(k, s[1..]);
      CalmConcat(k, [s[0]], s[1..]);
      assert s == [s[0]] + s[1..];
    }
  }

  const IN := Quote(true, false)

  /** The contents of a string literal leave the scanner in the string, with no depth. */
  lemma {:induction false} ItemsInside(k: Kind, items: seq<Item>)
    requires ItemsOk(items)
    ensures After(IN, PrintItems(items)) == IN
    ensures forall i :: 0 <= i < |PrintItems(items)| ==> Weights(k, IN, PrintItems(items))[i] == 0
  {
    if items != [] {
      var head := if items[0].Plain? then [items[0].c] else ['\\', items[0].c];
      var rest := PrintItems(items[1..]);
      ItemsInside(k, items[1..]);
      HeadInside(k, items[0]);
      AfterConcat(IN, head, rest);
      WeightsConcat(k, IN, head, rest);
    }
  }

  lemma HeadInside(k: Kind, item: Item)
    requires item.Plain? ==> item.c != '"' && item.c != '\\'
    ensures var head := if item.Plain? then [item.c] else ['\\', item.c];
            After(IN, head) == IN && forall i :: 0 <= i < |head| ==> Weights(k, IN, head)[i] == 0
  {
    if item.Plain? {
      assert After(IN, [item.c]) == After(Next(IN, item.c), []);
      assert Weights(k, IN, [item.c]) == [0] + Weights(k, IN, []);
    } else {
      var head := ['\\', item.c];
      assert head[1..] == [item.c];
      assert After(IN, head) == After(Quote(true, true), [item.c]);
      assert After(Quote(true, true), [item.c]) == After(IN, []);
      assert Weights(k, IN, head) == [0] + Weights(k, Quote(true, true), [item.c]);
      assert Weights(k, Quote(true, true), [item.c]) == [0] + Weights(k, IN, []);
    }
  }

  lemma {:induction false} ZeroSum(ws: seq<int>)
    requires forall i :: 0 <= i < |ws| ==> ws[i] == 0
    ensures Sum(ws) == 0
  {
    if ws != [] {
      ZeroSum(ws[1..]);
    }
  }

  lemma ZeroWeightsCalm(k: Kind, text: string)
    requires After(OUT, text) == OUT
    requires forall i :: 0 <= i < |text| ==> Weights(k, OUT, text)[i] == 0
    ensures Calm(k, text)
  {
    hide Weights, After;
    var ws := Weights(k, OUT, text);
    ZeroSum(ws);
    forall c | 0 <= c <= |text|
      ensures Sum(ws[..c]) >= 0
    {
      ZeroSum(ws[..c]);
    }
  }

  /** A string literal leaves no string open and has no depth anywhere. */
  lemma StringIsFlat(k: Kind, items: seq<Item>)
    requires ItemsOk(items)
    ensures After(OUT, PrintString(items)) == OUT
    ensures forall i :: 0 <= i < |PrintString(items)| ==> Weights(k, OUT, PrintString(items))[i] == 0
  {
    hide Weights;
    var body := PrintItems(items);
    ItemsInside(k, items);
    WeightsConcat(k, OUT, "\"", body);
    WeightsConcat(k, OUT, "\"" + body, "\"");
    AfterConcat(OUT, "\"", body);
    AfterConcat(OUT, "\"" + body, "\"");
    QuoteStep(k);
  }

  lemma CalmString(k: Kind, items: seq<Item>)
    requires ItemsOk(items)
    ensures Calm(k, PrintString(items))
  {
    StringIsFlat(k, items);
    ZeroWeightsCalm(k, PrintString(items));
  }

  lemma QuoteStep(k: Kind)
    ensures After(OUT, "\"") == IN && After(IN, "\"") == OUT
    ensures Weights(k, OUT, "\"") == [0] && Weights(k, IN, "\"") == [0]
  {
    assert After(OUT, "\"") == After(IN, []);
    assert After(IN, "\"") == After(OUT, []);
  }

  /** The depth stays positive through every non-empty proper prefix of a bracketed calm text. */
  ghost predicate Bracketed(k: Kind, text: string) {
    && Calm(k, text)
    && forall c :: 0 < c < |text| ==> Sum(Weights(k, OUT, text)[..c]) > 0
  }

  lemma BracketWeights(k: Kind, curly: bool)
    ensures After(OUT, Open(curly)) == OUT && After(OUT, Close(curly)) == OUT
    ensures var w := if Opens(k, Open(curly)[0]) then 1 else 0;
            Weights(k, OUT, Open(curly)) == [w] && Weights(k, OUT, Close(curly)) == [-w]
  {
  }

  lemma Wrap(k: Kind, curly: bool, inner: string)
    requires Calm(k, inner)
    ensures Calm(k, Open(curly) + inner + Close(curly))
    ensures Opens(k, Open(curly)[0]) ==> Bracketed(k, Open(curly) + inner + Close(curly))
  {
    hide Weights, After, Opens, Closes;
    var w := if Opens(k, Open(curly)[0]) then 1 else 0;
    var text := Open(curly) + inner + Close(curly);
    BracketWeights(k, curly);
    AfterConcat(OUT, Open(curly), inner);
    AfterConcat(OUT, Open(curly) + inner, Close(curly));
    WeightsConcat(k, OUT, Open(curly), inner);
    WeightsConcat(k, OUT, Open(curly) + inner, Close(curly));
    var vs, ws := Weights(k, OUT, inner), Weights(k, OUT, text);
    assert ws == ([w] + vs) + [-w];
    WrapSums(w, vs, ws);
  }

  lemma {:induction false} WrapSums(w: int, vs: seq<int>, ws: seq<int>)
    requires 0 <= w && ws == ([w] + vs) + [-w] && Sum(vs) == 0
    requires forall c :: 0 <= c <= |vs| ==> Sum(vs[..c]) >= 0
    ensures Sum(ws) == 0
    ensures forall c :: 0 <= c <= |ws| ==> Sum(ws[..c]) >= if 0 < c < |ws| then w else 0
  {
    One(w);
    One(-w);
    SumConcat([w], vs);
    SumConcat([w] + vs, [-w]);
    forall c | 0 <= c <= |ws|
      ensures Sum(ws[..c]) >= if 0 < c < |ws| then w else 0
    {
      if c == |ws| {
        assert ws[..c] == ws;
      } else if c > 0 {
        assert ws[..c] == [w] + vs[..c - 1];
        SumConcat([w], vs[..c - 1]);
      }
    }
  }

  lemma One(w: int)
    ensures Sum([w]) == w
  {
    assert Sum([w]) == w + Sum([]);
  }

  lemma CalmSpaces(k: Kind, s: string)
    requires Spaces(s)
    ensures Calm(k, s)
  {
    CalmChars(k, s);
  }

  lemma CalmKey(k: Kind, key: Option<Key>)
    requires key.Some? ==> ItemsOk(key.value.items) && Spaces(key.value.beforeColon) && Spaces(key.value.afterColon)
    ensures Calm(k, PrintKey(key))
  {
    hide Calm;
    CalmEmpty(k);
    if key.Some? {
      CalmString(k, key.value.items);
      CalmSpaces(k, key.value.beforeColon);
      CalmSpaces(k, key.value.afterColon);
      CalmChar(k, ':');
      CalmConcat(k, PrintString(key.value.items), key.value.beforeColon);
      CalmConcat(k, PrintString(key.value.items) + key.value.beforeColon, ":");
      CalmConcat(k, PrintString(key.value.items) + key.value.beforeColon + ":", key.value.afterColon);
    }
  }

  lemma CalmTail(k: Kind, tail: Tail)
    requires Spaces(tail.space)
    ensures Calm(k, PrintTail(tail))
  {
    hide Calm;
    CalmSpaces(k, tail.space);
    CalmChar(k, ',');
    CalmConcat(k, ",", tail.space);
  }

  /** A printed value is calm for every kind of bracket. */
  lemma {:induction false} CalmPrint(k: Kind, v: Json)
    requires Valid(v)
    ensures Calm(k, Print(v))
    decreases v
  {
    hide Calm, Weights, After, Sum;
    match v
    case Lit(text) => CalmChars(k, text);
    case Str(items) => CalmString(k, items);
    case Box(curly, elems, tail) =>
      CalmElems(k, curly, elems);
      CalmTail(k, tail);
      CalmConcat(k, PrintElems(elems), PrintTail(tail));
      Wrap(k, curly, PrintElems(elems) + PrintTail(tail));
  }

  lemma {:induction false} CalmElems(k: Kind, curly: bool, elems: Elems)
    requires ValidElems(curly, elems)
    ensures Calm(k, PrintElems(elems))
    decreases elems
  {
    hide Calm, Weights, After, Sum;
    match elems
    case NoElems => CalmEmpty(k);
    case Elem(lead, key, value, trail, rest) =>
      CalmSpaces(k, lead);
      CalmKey(k, key);
      CalmPrint(k, value);
      CalmSpaces(k, trail);
      CalmElems(k, curly, rest);
      CalmEmpty(k);
      CalmChar(k, ',');
      CalmConcat(k, ",", PrintElems(rest));
      CalmConcat(k, lead, PrintKey(key));
      CalmConcat(k, lead + PrintKey(key), Print(value));
      CalmConcat(k, lead + PrintKey(key) + Print(value), trail);
      CalmConcat(k, lead + PrintKey(key) + Print(value) + trail, if rest.NoElems? then [] else "," + PrintElems(rest));
  }

  /** A printed container is bracketed for its own kind and for both kinds together. */
  lemma BracketedPrint(k: Kind, v: Json)
    requires Valid(v) && v.Box? && Opens(k, Open(v.curly)[0])
    ensures Bracketed(k, Print(v))
  {
    hide Calm, Bracketed, Weights, After, Sum, PrintElems;
    CalmElems(k, v.curly, v.elems);
    CalmTail(k, v.tail);
    CalmConcat(k, PrintElems(v.elems), PrintTail(v.tail));
    Wrap(k, v.curly, PrintElems(v.elems) + PrintTail(v.tail));
  }

  // ---------------------------------------------------------------------
  // Truncation detection is exact
  // ---------------------------------------------------------------------

  lemma {:induction false} WeightsPrefix(k: Kind, text: string, c: nat)
    requires c <= |text|
    ensures Weights(k, OUT, text[..c]) == Weights(k, OUT, text)[..c]
  {
    hide Weights;
    WeightsConcat(k, OUT, text[..c], text[c..]);
    assert text == text[..c] + text[c..];
  }

  /** What `IsUnterminated` answers. */
  predicate Unterminated(text: string) { Sum(Weights(Either, OUT, text)) > 0 }

  /**
    On a printed container the test is false on the whole text and true on every
    non-empty proper prefix of it, wherever the cut falls: inside a string, inside
    an escape, or between tokens.
   */
  lemma TruncationIsExact(v: Json, c: nat)
    requires Valid(v) && v.Box? && c <= |Print(v)|
    ensures Unterminated(Print(v)[..c]) <==> 0 < c < |Print(v)|
  {
    hide Weights, After, Print;
    BracketedPrint(Either, v);
    WeightsPrefix(Either, Print(v), c);
    assert c == |Print(v)| ==> Print(v)[..c] == Print(v);
    assert Weights(Either, OUT, Print(v))[..0] == [];
  }

  // ---------------------------------------------------------------------
  // A printed container is one exact span
  // ---------------------------------------------------------------------

  lemma OutsideFirst(q: Quote, text: string, i: nat)
    requires i < |text| && After(OUT, text[..i]) == OUT
    ensures Outside(OUT, text)[i] <==> text[i] != '"'
  {
    OutsideAt(OUT, text, i);
  }

  lemma SliceWeights(k: Kind, before: string, mid: string, after: string, a: nat, b: nat)
    requires After(OUT, before) == OUT && a <= b <= |mid|
    ensures Weights(k, OUT, before + mid + after)[|before| + a..|before| + b] == Weights(k, OUT, mid)[a..b]
  {
    hide Weights, After;
    WeightsConcat(k, OUT, before, mid);
    WeightsConcat(k, OUT, before + mid, after);
  }

  /** The container's own bracket kind returns to its depth exactly at the container's end. */
  lemma ContainerReturns(before: string, v: Json, after: string)
    requires Valid(v) && v.Box? && After(OUT, before) == OUT
    ensures var k := if v.curly then Curly else Square;
            FirstReturn(Weights(k, OUT, before + Print(v) + after), |before|, |before| + |Print(v)|)
  {
    hide Weights, After, Sum, Print;
    var k := if v.curly then Curly else Square;
    var mid := Print(v);
    BracketedPrint(k, v);
    PrintIsLong(v);
    var ws, vs := Weights(k, OUT, before + mid + after), Weights(k, OUT, mid);
    forall c | |before| <= c <= |before| + |mid|
      ensures ws[|before|..c] == vs[..c - |before|]
    {
      SliceWeights(k, before, mid, after, 0, c - |before|);
      assert vs[0..c - |before|] == vs[..c - |before|];
    }
    assert vs[..|mid|] == vs;
  }

  lemma PrintIsLong(v: Json)
    requires v.Box?
    ensures |Print(v)| >= 2 && Print(v)[0] == Open(v.curly)[0]
  {
  }

  /**
    After any prefix that leaves the scanner outside a string, whatever stray
    brackets it holds, and whatever follows, the walk yields the printed
    container as one exact span at its opener.
   */
  lemma ContainerIsOneSpan(before: string, v: Json, after: string)
    requires Valid(v) && v.Box? && After(OUT, before) == OUT
    ensures SpanAt(before + Print(v) + after, |before|) == [Print(v)]
    ensures Print(v) in SpansBelow(before + Print(v) + after, |before + Print(v) + after|)
  {
    hide Weights, After, Sum, Print, Outside, FirstReturn, ScanOn;
    var text := before + Print(v) + after;
    var p := |before|;
    PrintIsLong(v);
    assert text[..p] == before;
    assert text[p] == Open(v.curly)[0];
    OutsideFirst(OUT, text, p);
    ContainerReturns(before, v, after);
    FirstReturnIsScan(Weights(KindOf(text[p]), OUT, text), p, p + |Print(v)|);
    assert text[p..p + |Print(v)|] == Print(v);
    SpansInclude(text, p, |text|);
  }

  lemma {:induction false} SpansInclude(text: string, p: nat, n: nat)
    requires p < n <= |text| && SpanAt(text, p) != []
    ensures SpanAt(text, p)[0] in SpansBelow(text, n)
  {
    hide SpanAt;
    if n > p + 1 {
      SpansInclude(text, p, n - 1);
    }
  }
}
