/**
  A printed JSON container cut anywhere: which containers nested in it the span
  walk still finds (`_balanced_spans` in `engine/parse.py`).
 */
module Truncation {
  import opened Wrappers
  import opened Scan
  import opened Json

  // ---------------------------------------------------------------------
  // The containers that close before the cut
  // ---------------------------------------------------------------------

  /** The containers of `v`, itself included, that end within the first `c` characters of its print, in opening order. */
  function Closed(v: Json, c: int): seq<Json>
    decreases v
  {
    match v
    case Box(_, elems, _) => (if |Print(v)| <= c then [v] else []) + ClosedElems(elems, c - 1)
    case _ => []
  }

  function ClosedElems(elems: Elems, c: int): seq<Json>
    decreases elems
  {
    match elems
    case NoElems => []
    case Elem(lead, key, value, trail, rest) =>
      var ahead := |lead| + |PrintKey(key)|;
      Closed(value, c - ahead) + ClosedElems(rest, c - ahead - |Print(value)| - |trail| - 1)
  }

  lemma ClosedElemsIs(elems: Elems, c: int)
    requires elems.Elem?
    ensures var ahead := |elems.lead + PrintKey(elems.key)|;
            ClosedElems(elems, c) == Closed(elems.value, c - ahead) + ClosedElems(elems.rest, c - ahead - |Print(elems.value)| - |elems.trail| - 1)
  {
    hide Print, PrintKey, Closed;
  }

  function Prints(vs: seq<Json>): (r: seq<string>)
    ensures |r| == |vs| && forall i :: 0 <= i < |r| ==> r[i] == Print(vs[i])
  {
    if vs == [] then [] else [Print(vs[0])] + Prints(vs[1..])
  }

  lemma {:induction false} PrintsConcat(a: seq<Json>, b: seq<Json>)
    ensures Prints(a + b) == Prints(a) + Prints(b)
  {
    if a == [] {
      assert a + b == b;
    } else {
      assert (a + b)[1..] == a[1..] + b;
      PrintsConcat(a[1..], b);
    }
  }

  /** Nothing closes before it opens. */
  lemma {:induction false} NoneClosed(v: Json, c: int)
    requires c <= 0
    ensures Closed(v, c) == []
    decreases v
  {
    hide ClosedElems;
    if v.Box? {
      PrintIsLong(v);
      NoneClosedElems(v.elems, c - 1);
    }
  }

  lemma {:induction false} NoneClosedElems(elems: Elems, c: int)
    requires c <= 0
    ensures ClosedElems(elems, c) == []
    decreases elems
  {
    hide Closed, Print, PrintKey;
    if elems.Elem? {
      var ahead := |elems.lead| + |PrintKey(elems.key)|;
      NoneClosed(elems.value, c - ahead);
      NoneClosedElems(elems.rest, c - ahead - |Print(elems.value)| - |elems.trail| - 1);
    }
  }

  /** They are well-formed containers. */
  lemma {:induction false} ClosedAreValid(v: Json, c: int)
    requires Valid(v)
    ensures forall u :: u in Closed(v, c) ==> Valid(u) && u.Box?
    decreases v
  {
    if v.Box? {
      ClosedElemsAreValid(v.curly, v.elems, c - 1);
    }
  }

  lemma {:induction false} ClosedElemsAreValid(curly: bool, elems: Elems, c: int)
    requires ValidElems(curly, elems)
    ensures forall u :: u in ClosedElems(elems, c) ==> Valid(u) && u.Box?
    decreases elems
  {
    hide Print, PrintKey, Closed;
    if elems.Elem? {
      var ahead := |elems.lead| + |PrintKey(elems.key)|;
      ClosedAreValid(elems.value, c - ahead);
      ClosedElemsAreValid(curly, elems.rest, c - ahead - |Print(elems.value)| - |elems.trail| - 1);
    }
  }

  // ---------------------------------------------------------------------
  // The spans that open in one stretch of a text
  // ---------------------------------------------------------------------

  /** The spans whose opener stands at `a` or later and before `b`, as far as the text goes. */
  function SpansIn(text: string, a: nat, b: nat): seq<string>
    decreases b - a
  {
    if a >= b || a >= |text| then [] else SpanAt(text, a) + SpansIn(text, a + 1, b)
  }

  lemma {:induction false} SpansInConcat(text: string, a: nat, m: nat, b: nat)
    requires a <= m <= b
    ensures SpansIn(text, a, b) == SpansIn(text, a, m) + SpansIn(text, m, b)
    decreases m - a
  {
    hide SpanAt;
    if a < m && a < |text| {
      SpansInConcat(text, a + 1, m, b);
      Assoc(SpanAt(text, a), SpansIn(text, a + 1, m), SpansIn(text, m, b));
    }
  }

  lemma {:induction false} SpansInAll(text: string, n: nat)
    requires n <= |text|
    ensures SpansIn(text, 0, n) == SpansBelow(text, n)
  {
    hide SpanAt;
    if n > 0 {
      SpansInAll(text, n - 1);
      SpansInConcat(text, 0, n - 1, n);
      assert SpansIn(text, n - 1, n) == SpanAt(text, n - 1) + SpansIn(text, n, n);
    }
  }

  /** No bracket opens in it, and no string is left open. */
  ghost predicate Flat(s: string) {
    After(OUT, s) == OUT && forall i :: 0 <= i < |s| ==> Weights(Either, OUT, s)[i] <= 0
  }

  lemma FlatConcat(a: string, b: string)
    requires Flat(a) && Flat(b)
    ensures Flat(a + b)
  {
    hide Weights, After;
    AfterConcat(OUT, a, b);
    WeightsConcat(Either, OUT, a, b);
  }

  lemma {:induction false} FlatChars(s: string)
    requires forall i :: 0 <= i < |s| ==> s[i] != '"' && !Opens(Either, s[i])
    ensures Flat(s)
  {
    if s != [] {
      FlatChars(s[1..]);
      assert Weights(Either, OUT, s) == [Weight(Either, s[0])] + Weights(Either, OUT, s[1..]);
    }
  }

  lemma FlatKey(key: Option<Key>)
    requires key.Some? ==> ItemsOk(key.value.items) && Spaces(key.value.beforeColon) && Spaces(key.value.afterColon)
    ensures Flat(PrintKey(key))
  {
    hide Flat;
    if key.None? {
      FlatChars([]);
    } else {
      var after := key.value.beforeColon + ":" + key.value.afterColon;
      FlatChars(after);
      FlatString(key.value.items);
      FlatConcat(PrintString(key.value.items), after);
      assert PrintKey(key) == PrintString(key.value.items) + after;
    }
  }

  lemma FlatString(items: seq<Item>)
    requires ItemsOk(items)
    ensures Flat(PrintString(items))
  {
    StringIsFlat(Either, items);
  }

  lemma OutsideWeight(text: string, p: nat)
    requires p < |text|
    ensures Weights(Either, OUT, text)[p] > 0 <==> Outside(OUT, text)[p] && IsOpener(text[p])
  {
    OutsideAt(OUT, text, p);
    WeightAt(Either, OUT, text, p);
  }

  lemma NothingOpens(before: string, s: string, after: string, c: nat, a: nat)
    requires After(OUT, before) == OUT && Flat(s) && c <= |before + s + after| && |before| <= a < |before| + |s| && a < c
    ensures Weights(Either, OUT, (before + s + after)[..c])[a] <= 0
  {
    hide Weights, After;
    var full, k := before + s + after, a - |before|;
    WeightsPrefix(Either, full, c);
    SliceWeights(Either, before, s, after, k, k + 1);
    var ws, vs := Weights(Either, OUT, full), Weights(Either, OUT, s);
    assert ws[|before| + k..|before| + (k + 1)][0] == ws[a] && vs[k..k + 1][0] == vs[k];
  }

  /** Flat text holds no span, wherever the text around it is cut. */
  lemma {:induction false} FlatSpans(before: string, s: string, after: string, c: nat, a: nat)
    requires After(OUT, before) == OUT && Flat(s) && c <= |before + s + after| && |before| <= a <= |before| + |s|
    ensures SpansIn((before + s + after)[..c], a, |before| + |s|) == []
    decreases |before| + |s| - a
  {
    hide SpanAt, Outside, Weights, After, SpansBelow;
    var full := before + s + after;
    var text := full[..c];
    if a < |before| + |s| && a < c {
      NothingOpens(before, s, after, c, a);
      OutsideWeight(text, a);
      NoSpanAt(text, a);
      FlatSpans(before, s, after, c, a + 1);
      assert SpansIn(text, a, |before| + |s|) == SpanAt(text, a) + SpansIn(text, a + 1, |before| + |s|);
    }
  }

  lemma OpenerKind(curly: bool)
    ensures IsOpener(Open(curly)[0]) && Opens(KindOf(Open(curly)[0]), Open(curly)[0])
  {
  }

  /** A container cut before its end has no span. */
  lemma CutHasNoSpan(before: string, v: Json, k: nat)
    requires Valid(v) && v.Box? && After(OUT, before) == OUT && 0 < k < |Print(v)|
    ensures SpanAt(before + Print(v)[..k], |before|) == []
  {
    hide Weights, After, Sum, Print, Outside, FirstReturn, ScanOn;
    var text, p := before + Print(v)[..k], |before|;
    PrintIsLong(v);
    assert text[p] == Print(v)[..k][0] == Open(v.curly)[0];
    OpenerKind(v.curly);
    var kind := KindOf(text[p]);
    BracketedPrint(kind, v);
    var ws, vs := Weights(kind, OUT, text), Weights(kind, OUT, Print(v));
    WeightsConcat(kind, OUT, before, Print(v)[..k]);
    WeightsPrefix(kind, Print(v), k);
    forall e | p < e <= |text|
      ensures Sum(ws[p..e]) > 0
    {
      assert ws[p..e] == vs[..e - p];
    }
    NoReturnIsScan(ws, p);
  }

  // ---------------------------------------------------------------------
  // The spans of a cut text are the prints of what closed before the cut
  // ---------------------------------------------------------------------

  /** Wherever the value stands outside strings, the spans that open in it are those of its containers that close by the cut. */
  ghost predicate SpansAreClosed(before: string, s: string, after: string, c: nat, closed: seq<Json>) {
    c <= |before + s + after| && SpansIn((before + s + after)[..c], |before|, |before| + |s|) == Prints(closed)
  }

  lemma ClosedConcat(before: string, s: string, t: string, after: string, c: nat, a: seq<Json>, b: seq<Json>)
    requires SpansAreClosed(before, s, t + after, c, a) && SpansAreClosed(before + s, t, after, c, b)
    ensures SpansAreClosed(before, s + t, after, c, a + b)
  {
    hide SpansIn, Prints;
    assert before + s + (t + after) == before + (s + t) + after == before + s + t + after;
    SpansInConcat((before + (s + t) + after)[..c], |before|, |before| + |s|, |before| + |s| + |t|);
    PrintsConcat(a, b);
  }

  lemma FlatClosed(before: string, s: string, after: string, c: nat)
    requires After(OUT, before) == OUT && Flat(s) && c <= |before + s + after|
    ensures SpansAreClosed(before, s, after, c, [])
  {
    hide SpansIn, After;
    FlatSpans(before, s, after, c, |before|);
  }

  /** The opener of a container has its print for a span if it closes by the cut, and no span otherwise. */
  lemma OpenerClosed(before: string, v: Json, after: string, c: nat)
    requires Valid(v) && v.Box? && After(OUT, before) == OUT && c <= |before + Print(v) + after|
    ensures SpansAreClosed(before, Open(v.curly), Print(v)[1..] + after, c, if |before| + |Print(v)| <= c then [v] else [])
  {
    hide SpanAt, After, Print;
    PrintIsLong(v);
    var full, p := before + Print(v) + after, |before|;
    assert Open(v.curly) + Print(v)[1..] == Print(v);
    assert before + Open(v.curly) + (Print(v)[1..] + after) == full;
    var text := full[..c];
    assert SpansIn(text, p + 1, p + 1) == [];
    if p + |Print(v)| <= c {
      var rest := after[..c - p - |Print(v)|];
      assert after == rest + after[c - p - |Print(v)|..];
      assert text == before + Print(v) + rest;
      ContainerIsOneSpan(before, v, rest);
      assert SpansIn(text, p, p + 1) == [Print(v)];
    } else if p < c {
      assert text == before + Print(v)[..c - p];
      CutHasNoSpan(before, v, c - p);
    }
  }

  lemma {:induction false} ValueClosed(before: string, v: Json, after: string, c: nat)
    requires Valid(v) && After(OUT, before) == OUT && c <= |before + Print(v) + after|
    ensures SpansAreClosed(before, Print(v), after, c, Closed(v, c - |before|))
    decreases v
  {
    hide SpansAreClosed, After, Flat, Closed, ClosedElems;
    match v
    case Lit(text) =>
      FlatChars(text);
      FlatClosed(before, text, after, c);
      ClosedIs(v, c - |before|);
    case Str(items) =>
      FlatString(items);
      FlatClosed(before, PrintString(items), after, c);
      ClosedIs(v, c - |before|);
    case Box(curly, elems, tail) =>
      BoxClosed(before, v, after, c);
  }

  lemma ClosedIs(v: Json, c: int)
    ensures Closed(v, c) == if v.Box? then (if |Print(v)| <= c then [v] else []) + ClosedElems(v.elems, c - 1) else []
  {
  }

  lemma FlatEnd(tail: Tail, curly: bool)
    requires Spaces(tail.space)
    ensures Flat(PrintTail(tail) + Close(curly))
  {
    FlatChars(PrintTail(tail) + Close(curly));
  }

  lemma {:induction false} BoxClosed(before: string, v: Json, after: string, c: nat)
    requires Valid(v) && v.Box? && After(OUT, before) == OUT && c <= |before + Print(v) + after|
    ensures SpansAreClosed(before, Print(v), after, c, Closed(v, c - |before|))
    decreases v, 0
  {
    hide SpansAreClosed, After, Flat, Closed, ClosedElems, PrintElems, PrintTail;
    var open, mid, end := Open(v.curly), PrintElems(v.elems), PrintTail(v.tail) + Close(v.curly);
    assert Print(v) == open + (mid + end);
    assert Print(v)[1..] == mid + end;
    ClosedIs(v, c - |before|);
    OpenerClosed(before, v, after, c);
    AfterOpen(before, v.curly);
    assert before + open + mid + (end + after) == before + Print(v) + after;
    ElemsClosed(before + open, v.curly, v.elems, end + after, c);
    CalmElems(Either, v.curly, v.elems);
    AfterCalm(before + open, mid);
    FlatEnd(v.tail, v.curly);
    FlatClosed(before + open + mid, end, after, c);
    var own := if |before| + |Print(v)| <= c then [v] else [];
    var inner := ClosedElems(v.elems, c - |before| - 1);
    ClosedConcat(before + open, mid, end, after, c, inner, []);
    assert inner + [] == inner;
    ClosedConcat(before, open, mid + end, after, c, own, inner);
  }

  lemma AfterOpen(before: string, curly: bool)
    requires After(OUT, before) == OUT
    ensures After(OUT, before + Open(curly)) == OUT && |Open(curly)| == 1
  {
    BracketWeights(Either, curly);
    AfterConcat(OUT, before, Open(curly));
  }

  lemma AfterCalm(before: string, s: string)
    requires After(OUT, before) == OUT && Calm(Either, s)
    ensures After(OUT, before + s) == OUT
  {
    AfterConcat(OUT, before, s);
  }

  lemma AfterFlat(before: string, s: string)
    requires After(OUT, before) == OUT && Flat(s)
    ensures After(OUT, before + s) == OUT
  {
    AfterConcat(OUT, before, s);
  }

  lemma {:induction false} ElemsClosed(before: string, curly: bool, elems: Elems, after: string, c: nat)
    requires ValidElems(curly, elems) && After(OUT, before) == OUT && c <= |before + PrintElems(elems) + after|
    ensures SpansAreClosed(before, PrintElems(elems), after, c, ClosedElems(elems, c - |before|))
    decreases elems, 0
  {
    hide SpansAreClosed, After, Flat, Closed, Calm, PrintKey, Print;
    if elems.NoElems? {
      FlatChars([]);
      FlatClosed(before, [], after, c);
      return;
    }
    var ahead, printed, behind := elems.lead + PrintKey(elems.key), Print(elems.value), elems.trail + RestOf(elems.rest);
    ElemShape(before, elems, ahead, printed, behind, after);
    FlatAhead(elems.lead, elems.key);
    AfterFlat(before, ahead);
    CalmPrint(Either, elems.value);
    AfterCalm(before + ahead, printed);
    FlatClosed(before, ahead, printed + behind + after, c);
    ValueClosed(before + ahead, elems.value, behind + after, c);
    RestClosed(before + ahead + printed, curly, elems.trail, elems.rest, after, c);
    ElemJoined(before, elems, ahead, printed, behind, after, c);
  }

  function RestOf(rest: Elems): string { if rest.NoElems? then [] else "," + PrintElems(rest) }

  lemma ElemShape(before: string, elems: Elems, ahead: string, printed: string, behind: string, after: string)
    requires elems.Elem? && ahead == elems.lead + PrintKey(elems.key) && printed == Print(elems.value)
    requires behind == elems.trail + RestOf(elems.rest)
    ensures PrintElems(elems) == ahead + (printed + behind)
    ensures before + PrintElems(elems) + after == before + ahead + (printed + behind + after)
    ensures before + PrintElems(elems) + after == before + ahead + printed + (behind + after)
    ensures before + PrintElems(elems) + after == before + ahead + printed + behind + after
  {
    hide Print, PrintKey, RestOf;
    assert PrintElems(elems) == ahead + printed + elems.trail + RestOf(elems.rest) by {
      ElemsAre(elems);
    }
    Assoc(ahead + printed, elems.trail, RestOf(elems.rest));
    Regroup(before, ahead, printed, behind, after);
  }

  lemma ElemsAre(elems: Elems)
    requires elems.Elem?
    ensures PrintElems(elems) == elems.lead + PrintKey(elems.key) + Print(elems.value) + elems.trail + RestOf(elems.rest)
  {
    hide Print, PrintKey;
  }

  lemma Regroup(before: string, ahead: string, printed: string, behind: string, after: string)
    ensures ahead + printed + behind == ahead + (printed + behind)
    ensures before + (ahead + printed + behind) + after == before + ahead + (printed + behind + after)
    ensures before + (ahead + printed + behind) + after == before + ahead + printed + (behind + after)
    ensures before + (ahead + printed + behind) + after == before + ahead + printed + behind + after
  {
    Assoc(ahead, printed, behind);
    Assoc(before, ahead, printed + behind);
    Assoc(before + ahead, printed, behind);
    Assoc(before + ahead, printed + behind, after);
    Assoc(before + ahead + printed, behind, after);
  }

  lemma FlatAhead(lead: string, key: Option<Key>)
    requires Spaces(lead)
    requires key.Some? ==> ItemsOk(key.value.items) && Spaces(key.value.beforeColon) && Spaces(key.value.afterColon)
    ensures Flat(lead + PrintKey(key))
  {
    hide Flat;
    FlatChars(lead);
    FlatKey(key);
    FlatConcat(lead, PrintKey(key));
  }

  /** The stretches of one element put together. */
  lemma ElemJoined(before: string, elems: Elems, ahead: string, printed: string, behind: string, after: string, c: nat)
    requires elems.Elem? && ahead == elems.lead + PrintKey(elems.key) && printed == Print(elems.value)
    requires PrintElems(elems) == ahead + (printed + behind)
    requires SpansAreClosed(before, ahead, printed + behind + after, c, [])
    requires SpansAreClosed(before + ahead, printed, behind + after, c, Closed(elems.value, c - |before + ahead|))
    requires SpansAreClosed(before + ahead + printed, behind, after, c,
                            ClosedElems(elems.rest, c - |before + ahead + printed| - |elems.trail| - 1))
    ensures SpansAreClosed(before, PrintElems(elems), after, c, ClosedElems(elems, c - |before|))
  {
    hide SpansAreClosed, Closed, ClosedElems, Print, PrintKey, PrintElems, RestOf;
    var own := Closed(elems.value, c - |before + ahead|);
    var others := ClosedElems(elems.rest, c - |before + ahead + printed| - |elems.trail| - 1);
    ClosedElemsIs(elems, c - |before|);
    assert c - |before + ahead| == c - |before| - |ahead|;
    assert c - |before + ahead + printed| == c - |before| - |ahead| - |printed|;
    ClosedConcat(before + ahead, printed, behind, after, c, own, others);
    ClosedConcat(before, ahead, printed + behind, after, c, [], own + others);
    assert [] + (own + others) == own + others;
  }

  lemma {:induction false} RestClosed(before: string, curly: bool, trail: string, rest: Elems, after: string, c: nat)
    requires ValidElems(curly, rest) && Spaces(trail) && After(OUT, before) == OUT
    requires c <= |before + (trail + RestOf(rest)) + after|
    ensures SpansAreClosed(before, trail + RestOf(rest), after, c, ClosedElems(rest, c - |before| - |trail| - 1))
    decreases rest, 1
  {
    hide SpansAreClosed, After, Flat, Closed, ClosedElems, PrintElems;
    FlatChars(trail);
    if rest.NoElems? {
      NoElemsClosed(c - |before| - |trail| - 1);
      assert trail + RestOf(rest) == trail;
      FlatClosed(before, trail, after, c);
    } else {
      var comma, others := trail + ",", PrintElems(rest);
      CommaShape(before, trail, others, after);
      FlatChars(comma);
      AfterFlat(before, comma);
      FlatClosed(before, comma, others + after, c);
      ElemsClosed(before + comma, curly, rest, after, c);
      var closed := ClosedElems(rest, c - |before + comma|);
      ClosedConcat(before, comma, others, after, c, [], closed);
      assert [] + closed == closed;
      assert c - |before + comma| == c - |before| - |trail| - 1;
    }
  }

  lemma NoElemsClosed(c: int)
    ensures ClosedElems(NoElems, c) == []
  {
  }

  lemma CommaShape(before: string, trail: string, others: string, after: string)
    ensures trail + ("," + others) == (trail + ",") + others
    ensures before + (trail + ("," + others)) + after == before + (trail + ",") + others + after == before + (trail + ",") + (others + after)
  {
  }

  /**
    The spans of a printed value cut after `c` characters are exactly the prints
    of the containers nested in it that close by then, in opening order.
   */
  lemma SpansOfCut(v: Json, c: nat)
    requires Valid(v) && c <= |Print(v)|
    ensures SpansBelow(Print(v)[..c], c) == Prints(Closed(v, c))
  {
    hide SpansIn, Print, Closed, SpansBelow;
    assert [] + Print(v) + [] == Print(v);
    ValueClosed([], v, [], c);
    var text := Print(v)[..c];
    SpansInAll(text, c);
    SpansInConcat(text, 0, c, |Print(v)|);
    BeyondText(text, c, |Print(v)|);
  }

  lemma BeyondText(text: string, a: nat, b: nat)
    requires a >= |text|
    ensures SpansIn(text, a, b) == []
  {
  }
}
