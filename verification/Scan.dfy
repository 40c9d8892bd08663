/** The quote/escape scanner and the delimiter walks built on it (`engine/parse.py`). */
module Scan {
  import opened Wrappers

  /** The scanner's two flags. */
  datatype Quote = Quote(inString: bool, escaped: bool)

  const OUT := Quote(false, false)

  function Next(q: Quote, ch: char): Quote {
    if q.inString then
      if q.escaped then Quote(true, false)
      else if ch == '\\' then Quote(true, true)
      else Quote(ch != '"', false)
    else Quote(ch == '"', false)
  }

  function After(q: Quote, text: string): Quote
    decreases |text|
  {
    if text == [] then q else After(Next(q, text[0]), text[1..])
  }

  lemma {:induction false} AfterConcat(q: Quote, a: string, b: string)
    ensures After(q, a + b) == After(After(q, a), b)
    decreases |a|
  {
    if a == [] {
      assert a + b == b;
    } else {
      assert (a + b)[1..] == a[1..] + b;
      AfterConcat(Next(q, a[0]), a[1..], b);
    }
  }

  /** The character is neither part of a string literal nor one of its quotes. */
  predicate Yields(q: Quote, ch: char) { !q.inString && ch != '"' }

  /** For each character whether `_outside_strings` yields it. */
  function Outside(q: Quote, text: string): (r: seq<bool>)
    ensures |r| == |text|
    decreases |text|
  {
    if text == [] then [] else [Yields(q, text[0])] + Outside(Next(q, text[0]), text[1..])
  }

  lemma {:induction false} OutsideAt(q: Quote, text: string, i: nat)
    requires i < |text|
    ensures Outside(q, text)[i] == Yields(After(q, text[..i]), text[i])
    decreases |text|
  {
    if i == 0 {
      assert text[..0] == [];
    } else {
      OutsideAt(Next(q, text[0]), text[1..], i - 1);
      assert text[1..][..i - 1] == text[..i][1..];
    }
  }

  lemma AfterSnoc(q: Quote, text: string, i: nat)
    requires i < |text|
    ensures After(q, text[..i + 1]) == Next(After(q, text[..i]), text[i])
  {
    TakeNext(text, i);
    AfterConcat(q, text[..i], [text[i]]);
    assert After(After(q, text[..i]), [text[i]]) == After(Next(After(q, text[..i]), text[i]), []);
  }

  method OutsideStrings(text: string) returns (outside: seq<bool>)
    ensures outside == Outside(OUT, text)
  {
    outside := [];
    var inString, escaped := false, false;
    for i := 0 to |text|
      invariant Quote(inString, escaped) == After(OUT, text[..i]) && (escaped ==> inString)
      invariant |outside| == i
      invariant forall k :: 0 <= k < i ==> outside[k] == Outside(OUT, text)[k]
    {
      var ch := text[i];
      AfterSnoc(OUT, text, i);
      OutsideAt(OUT, text, i);
      outside := outside + [!inString && ch != '"'];
      if inString {
        if escaped {
          escaped := false;
        } else if ch == '\\' {
          escaped := true;
        } else if ch == '"' {
          inString := false;
        }
      } else if ch == '"' {
        inString := true;
      }
    }
  }

  // ---------------------------------------------------------------------
  // Depth
  // ---------------------------------------------------------------------

  /** One kind of bracket, or both kinds together. */
  datatype Kind = Curly | Square | Either

  predicate Opens(k: Kind, ch: char) { (ch == '{' && k != Square) || (ch == '[' && k != Curly) }
  predicate Closes(k: Kind, ch: char) { (ch == '}' && k != Square) || (ch == ']' && k != Curly) }

  function Weight(k: Kind, ch: char): int {
    if Opens(k, ch) then 1 else if Closes(k, ch) then -1 else 0
  }

  /** Each character's step in nesting depth; a character inside a string has none. */
  function Weights(k: Kind, q: Quote, text: string): (r: seq<int>)
    ensures |r| == |text|
    decreases |text|
  {
    if text == [] then []
    else [if Yields(q, text[0]) then Weight(k, text[0]) else 0] + Weights(k, Next(q, text[0]), text[1..])
  }

  function Sum(ws: seq<int>): int {
    if ws == [] then 0 else ws[0] + Sum(ws[1..])
  }

  lemma {:induction false} SumConcat(a: seq<int>, b: seq<int>)
    ensures Sum(a + b) == Sum(a) + Sum(b)
  {
    if a == [] {
      assert a + b == b;
    } else {
      assert (a + b)[1..] == a[1..] + b;
      SumConcat(a[1..], b);
    }
  }

  lemma SumSnoc(ws: seq<int>, a: nat, b: nat)
    requires a <= b < |ws|
    ensures Sum(ws[a..b + 1]) == Sum(ws[a..b]) + ws[b]
  {
    assert ws[a..b + 1] == ws[a..b] + [ws[b]];
    SumConcat(ws[a..b], [ws[b]]);
    assert Sum([ws[b]]) == ws[b] + Sum([]);
  }

  lemma {:induction false} WeightsConcat(k: Kind, q: Quote, a: string, b: string)
    ensures Weights(k, q, a + b) == Weights(k, q, a) + Weights(k, After(q, a), b)
    decreases |a|
  {
    if a == [] {
      assert a + b == b;
    } else {
      assert (a + b)[1..] == a[1..] + b;
      WeightsConcat(k, Next(q, a[0]), a[1..], b);
    }
  }

  lemma {:induction false} WeightAt(k: Kind, q: Quote, text: string, i: nat)
    requires i < |text|
    ensures Weights(k, q, text)[i] == if Outside(q, text)[i] then Weight(k, text[i]) else 0
    decreases |text|
  {
    if i > 0 {
      WeightAt(k, Next(q, text[0]), text[1..], i - 1);
    }
  }

  // ---------------------------------------------------------------------
  // _is_unterminated
  // ---------------------------------------------------------------------

  method IsUnterminated(text: string) returns (r: bool)
    ensures r == (Sum(Weights(Either, OUT, text)) > 0)
  {
    var outside := OutsideStrings(text);
    var depth := 0;
    ghost var ws := Weights(Either, OUT, text);
    for i := 0 to |text|
      invariant depth == Sum(ws[0..i])
    {
      WeightAt(Either, OUT, text, i);
      SumSnoc(ws, 0, i);
      if outside[i] {
        if text[i] == '{' || text[i] == '[' {
          depth := depth + 1;
        } else if text[i] == '}' || text[i] == ']' {
          depth := depth - 1;
        }
      }
    }
    assert ws[0..|text|] == ws;
    r := depth > 0;
  }

  // ---------------------------------------------------------------------
  // _balanced_spans
  // ---------------------------------------------------------------------

  /** `e` is the first point after `p` at which the depth counted from `p` is back at zero. */
  ghost predicate FirstReturn(ws: seq<int>, p: nat, e: nat) {
    && p < e <= |ws|
    && Sum(ws[p..e]) == 0
    && forall c :: p < c < e ==> Sum(ws[p..c]) != 0
  }

  /** The plain scan from one opener: walk on with the depth so far until it is zero. */
  function ScanOn(ws: seq<int>, c: nat, depth: int): (r: Option<nat>)
    requires c <= |ws|
    ensures r.Some? ==> c < r.value <= |ws|
    decreases |ws| - c
  {
    if c == |ws| then None
    else if depth + ws[c] == 0 then Some(c + 1)
    else ScanOn(ws, c + 1, depth + ws[c])
  }

  lemma {:induction false} ScanOnIsFirstReturn(ws: seq<int>, p: nat, c: nat)
    requires p <= c <= |ws| && (p < c ==> Sum(ws[p..c]) != 0)
    requires forall d :: p < d < c ==> Sum(ws[p..d]) != 0
    ensures var r := ScanOn(ws, c, Sum(ws[p..c]));
            if r.Some? then FirstReturn(ws, p, r.value)
            else forall d :: p < d <= |ws| ==> Sum(ws[p..d]) != 0
    decreases |ws| - c
  {
    if c < |ws| {
      SumSnoc(ws, p, c);
      if Sum(ws[p..c + 1]) != 0 {
        ScanOnIsFirstReturn(ws, p, c + 1);
      }
    }
  }

  function KindOf(ch: char): Kind { if ch == '{' then Curly else Square }

  predicate IsOpener(ch: char) { ch == '{' || ch == '[' }

  /** The span of the opener at `p`, found by scanning on from it for its own kind of bracket. */
  function SpanAt(text: string, p: nat): seq<string>
    requires p < |text|
  {
    if !(Outside(OUT, text)[p] && IsOpener(text[p])) then []
    else
      var ws := Weights(KindOf(text[p]), OUT, text);
      var end := ScanOn(ws, p, 0);
      if end.None? then [] else [text[p..end.value]]
  }

  /** The naive scan: one walk per opener, in opening order. */
  function SpansBelow(text: string, n: nat): seq<string>
    requires n <= |text|
  {
    if n == 0 then [] else SpansBelow(text, n - 1) + SpanAt(text, n - 1)
  }

  lemma NoSpanAt(text: string, p: nat)
    requires p < |text| && !(Outside(OUT, text)[p] && IsOpener(text[p]))
    ensures SpanAt(text, p) == []
  {
    hide Outside;
  }

  lemma {:induction false} NoSpansBetween(text: string, a: nat, b: nat)
    requires a <= b <= |text|
    requires forall i :: a <= i < b ==> !(Outside(OUT, text)[i] && IsOpener(text[i]))
    ensures SpansBelow(text, a) == SpansBelow(text, b)
  {
    hide Outside, SpanAt;
    if a < b {
      NoSpansBetween(text, a, b - 1);
      NoSpanAt(text, b - 1);
      assert SpansBelow(text, b) == SpansBelow(text, b - 1) + [];
    }
  }

  /**
    The stack of one kind after `i` characters: the openers still open, each
    with a depth equal to the number of open ones from it on, never zero so far.
   */
  ghost predicate StackOk(ws: seq<int>, stack: seq<nat>, i: nat) {
    && i <= |ws|
    && (forall m, n :: 0 <= m < n < |stack| ==> stack[m] < stack[n])
    && (forall m :: 0 <= m < |stack| ==> stack[m] < i && Sum(ws[stack[m]..i]) == |stack| - m)
    && (forall m, c :: 0 <= m < |stack| && stack[m] < c <= i ==> Sum(ws[stack[m]..c]) > 0)
  }

  lemma StackSkip(ws: seq<int>, stack: seq<nat>, i: nat)
    requires StackOk(ws, stack, i) && i < |ws| && (ws[i] == 0 || stack == [])
    ensures StackOk(ws, stack, i + 1)
  {
    forall m | 0 <= m < |stack|
      ensures Sum(ws[stack[m]..i + 1]) == |stack| - m
    {
      SumSnoc(ws, stack[m], i);
    }
  }

  lemma StackPush(ws: seq<int>, stack: seq<nat>, i: nat)
    requires StackOk(ws, stack, i) && i < |ws| && ws[i] == 1
    ensures StackOk(ws, stack + [i], i + 1)
  {
    var s := stack + [i];
    assert ws[i..i] == [];
    forall m | 0 <= m < |s|
      ensures Sum(ws[s[m]..i + 1]) == |s| - m
    {
      SumSnoc(ws, s[m], i);
    }
    forall m, c | 0 <= m < |s| && s[m] < c <= i + 1
      ensures Sum(ws[s[m]..c]) > 0
    {
      if c <= i {
        assert s[m] == stack[m];
      }
    }
  }

  lemma StackPop(ws: seq<int>, stack: seq<nat>, i: nat)
    requires StackOk(ws, stack, i) && i < |ws| && ws[i] == -1 && stack != []
    ensures StackOk(ws, stack[..|stack| - 1], i + 1)
    ensures FirstReturn(ws, stack[|stack| - 1], i + 1)
  {
    forall m | 0 <= m < |stack|
      ensures Sum(ws[stack[m]..i + 1]) == |stack| - m - 1
    {
      SumSnoc(ws, stack[m], i);
    }
  }

  /** What the walk has recorded for the opener at `p` after `i` characters: its end, or its place on the stack. */
  ghost predicate Recorded(ws: seq<int>, stack: seq<nat>, ends: map<nat, nat>, p: nat) {
    if p in ends then FirstReturn(ws, p, ends[p]) else p in stack
  }

  lemma FirstReturnIsScan(ws: seq<int>, p: nat, e: nat)
    requires FirstReturn(ws, p, e)
    ensures ScanOn(ws, p, 0) == Some(e)
  {
    assert ws[p..p] == [];
    ScanOnIsFirstReturn(ws, p, p);
  }

  lemma NoReturnIsScan(ws: seq<int>, p: nat)
    requires p < |ws| && forall c :: p < c <= |ws| ==> Sum(ws[p..c]) > 0
    ensures ScanOn(ws, p, 0) == None
  {
    assert ws[p..p] == [];
    ScanOnIsFirstReturn(ws, p, p);
  }

  /** At the end of the text an opener's record tells what the plain scan from it finds. */
  lemma {:induction false} RecordIsScan(ws: seq<int>, stack: seq<nat>, ends: map<nat, nat>, p: nat)
    requires p < |ws| && StackOk(ws, stack, |ws|) && Recorded(ws, stack, ends, p)
    ensures ScanOn(ws, p, 0) == if p in ends then Some(ends[p]) else None
  {
    hide ScanOn, FirstReturn;
    if p in ends {
      FirstReturnIsScan(ws, p, ends[p]);
    } else {
      var m :| 0 <= m < |stack| && stack[m] == p;
      NoReturnIsScan(ws, p);
    }
  }

  /** An opener of the kind is on the stack or has an end, never both. */
  ghost predicate KeysOk(k: Kind, text: string, stack: seq<nat>, ends: map<nat, nat>, i: nat)
    requires i <= |text|
  {
    && (forall p :: p in stack ==> p < i && p !in ends && Opens(k, text[p]))
    && (forall p :: p in ends ==> p < i && Opens(k, text[p]))
  }

  /** The walk's state after `i` characters, for one kind of bracket. */
  ghost predicate Tracked(k: Kind, text: string, stack: seq<nat>, ends: map<nat, nat>, i: nat)
    requires i <= |text|
  {
    && StackOk(Weights(k, OUT, text), stack, i)
    && KeysOk(k, text, stack, ends, i)
    && (forall p :: 0 <= p < i && Outside(OUT, text)[p] && Opens(k, text[p]) ==>
          Recorded(Weights(k, OUT, text), stack, ends, p))
  }

  lemma {:induction false} TrackedSkip(k: Kind, text: string, stack: seq<nat>, ends: map<nat, nat>, i: nat)
    requires i < |text| && Tracked(k, text, stack, ends, i)
    requires !(Outside(OUT, text)[i] && (Opens(k, text[i]) || (Closes(k, text[i]) && stack != [])))
    ensures Tracked(k, text, stack, ends, i + 1)
  {
    hide FirstReturn, StackOk, Weights, Outside;
    WeightAt(k, OUT, text, i);
    StackSkip(Weights(k, OUT, text), stack, i);
  }

  lemma RecordedAfterPush(ws: seq<int>, stack: seq<nat>, ends: map<nat, nat>, i: nat, p: nat)
    requires i !in ends && (p == i || Recorded(ws, stack, ends, p))
    ensures Recorded(ws, stack + [i], ends, p)
  {
    hide FirstReturn;
    assert (stack + [i])[|stack|] == i;
  }

  lemma {:induction false} TrackedOpen(k: Kind, text: string, stack: seq<nat>, ends: map<nat, nat>, i: nat)
    requires i < |text| && Tracked(k, text, stack, ends, i)
    requires Outside(OUT, text)[i] && Opens(k, text[i])
    ensures Tracked(k, text, stack + [i], ends, i + 1)
  {
    hide FirstReturn, StackOk, Weights, Outside;
    WeightAt(k, OUT, text, i);
    var ws := Weights(k, OUT, text);
    StackPush(ws, stack, i);
    forall p: nat | p < i + 1 && Outside(OUT, text)[p] && Opens(k, text[p])
      ensures Recorded(ws, stack + [i], ends, p)
    {
      RecordedAfterPush(ws, stack, ends, i, p);
    }
  }

  lemma PopMembers(ws: seq<int>, stack: seq<nat>, i: nat, p: nat)
    requires StackOk(ws, stack, i) && stack != []
    ensures p in stack <==> p in stack[..|stack| - 1] || p == stack[|stack| - 1]
    ensures stack[|stack| - 1] !in stack[..|stack| - 1]
  {
    var front, top := stack[..|stack| - 1], stack[|stack| - 1];
    assert stack == front + [top];
    forall m | 0 <= m < |front|
      ensures front[m] != top
    {
      assert front[m] == stack[m];
    }
  }

  lemma RecordedAfterPop(ws: seq<int>, stack: seq<nat>, ends: map<nat, nat>, i: nat, p: nat)
    requires StackOk(ws, stack, i) && stack != [] && Recorded(ws, stack, ends, p)
    requires FirstReturn(ws, stack[|stack| - 1], i + 1)
    ensures Recorded(ws, stack[..|stack| - 1], ends[stack[|stack| - 1] := i + 1], p)
  {
    hide FirstReturn, StackOk;
    PopMembers(ws, stack, i, p);
  }

  lemma KeysAfterPop(k: Kind, text: string, stack: seq<nat>, ends: map<nat, nat>, i: nat)
    requires i < |text| && KeysOk(k, text, stack, ends, i) && StackOk(Weights(k, OUT, text), stack, i) && stack != []
    ensures KeysOk(k, text, stack[..|stack| - 1], ends[stack[|stack| - 1] := i + 1], i + 1)
  {
    hide StackOk, Weights;
    var ws, front, top := Weights(k, OUT, text), stack[..|stack| - 1], stack[|stack| - 1];
    assert top in stack;
    forall p: nat | p in front
      ensures p in stack && p != top
    {
      PopMembers(ws, stack, i, p);
    }
  }

  lemma {:induction false} TrackedClose(k: Kind, text: string, stack: seq<nat>, ends: map<nat, nat>, i: nat)
    requires i < |text| && Tracked(k, text, stack, ends, i) && stack != []
    requires Outside(OUT, text)[i] && Closes(k, text[i])
    ensures Tracked(k, text, stack[..|stack| - 1], ends[stack[|stack| - 1] := i + 1], i + 1)
  {
    hide FirstReturn, StackOk, Weights, Outside, Recorded, KeysOk;
    WeightAt(k, OUT, text, i);
    var ws := Weights(k, OUT, text);
    StackPop(ws, stack, i);
    KeysAfterPop(k, text, stack, ends, i);
    forall p: nat | p < i + 1 && Outside(OUT, text)[p] && Opens(k, text[p])
      ensures Recorded(ws, stack[..|stack| - 1], ends[stack[|stack| - 1] := i + 1], p)
    {
      assert p < i && Recorded(ws, stack, ends, p);
      RecordedAfterPop(ws, stack, ends, i, p);
    }
  }

  lemma {:induction false} TrackedScan(k: Kind, text: string, stack: seq<nat>, ends: map<nat, nat>, p: nat)
    requires Tracked(k, text, stack, ends, |text|)
    requires p < |text| && Outside(OUT, text)[p] && Opens(k, text[p])
    ensures ScanOn(Weights(k, OUT, text), p, 0) == if p in ends then Some(ends[p]) else None
  {
    hide FirstReturn, StackOk, Weights, Outside, ScanOn;
    RecordIsScan(Weights(k, OUT, text), stack, ends, p);
  }

  /** The openers outside strings, ascending, below `i`. */
  ghost predicate StartsOk(text: string, starts: seq<nat>, i: nat)
    requires i <= |text|
  {
    && (forall m, n :: 0 <= m < n < |starts| ==> starts[m] < starts[n])
    && (forall p :: p in starts <==> 0 <= p < i && Outside(OUT, text)[p] && IsOpener(text[p]))
  }

  lemma {:induction false} StartsNext(text: string, starts: seq<nat>, i: nat)
    requires i < |text| && StartsOk(text, starts, i)
    ensures StartsOk(text, if Outside(OUT, text)[i] && IsOpener(text[i]) then starts + [i] else starts, i + 1)
  {
    hide Outside;
    forall m | 0 <= m < |starts|
      ensures starts[m] < i
    {
      assert starts[m] in starts;
    }
  }

  /** The one pass: each kind of bracket is matched with a stack of its own. */
  method MatchBrackets(text: string) returns (starts: seq<nat>, ends: map<nat, nat>)
    ensures StartsOk(text, starts, |text|)
    ensures forall p :: p in starts ==>
              p < |text| && ScanOn(Weights(KindOf(text[p]), OUT, text), p, 0) == if p in ends then Some(ends[p]) else None
  {
    hide Outside, Weights, ScanOn, Tracked, StartsOk;
    starts, ends := [], map[];
    var curlies: seq<nat>, squares: seq<nat> := [], [];
    ghost var curlyEnds: map<nat, nat>, squareEnds: map<nat, nat> := map[], map[];
    var outside := OutsideStrings(text);
    NothingYet(text);
    for i := 0 to |text|
      invariant StartsOk(text, starts, i)
      invariant Tracked(Curly, text, curlies, curlyEnds, i)
      invariant Tracked(Square, text, squares, squareEnds, i)
      invariant ends == curlyEnds + squareEnds
    {
      var ch := text[i];
      StartsNext(text, starts, i);
      if outside[i] && ch == '{' {
        TrackedOpen(Curly, text, curlies, curlyEnds, i);
        TrackedSkip(Square, text, squares, squareEnds, i);
        starts := starts + [i];
        curlies := curlies + [i];
      } else if outside[i] && ch == '[' {
        TrackedOpen(Square, text, squares, squareEnds, i);
        TrackedSkip(Curly, text, curlies, curlyEnds, i);
        starts := starts + [i];
        squares := squares + [i];
      } else if outside[i] && ch == '}' && curlies != [] {
        var top := curlies[|curlies| - 1];
        MergeEnds(text, curlies, curlyEnds, squares, squareEnds, i, i + 1);
        TrackedClose(Curly, text, curlies, curlyEnds, i);
        TrackedSkip(Square, text, squares, squareEnds, i);
        curlies := curlies[..|curlies| - 1];
        ends := ends[top := i + 1];
        curlyEnds := curlyEnds[top := i + 1];
      } else if outside[i] && ch == ']' && squares != [] {
        TrackedClose(Square, text, squares, squareEnds, i);
        TrackedSkip(Curly, text, curlies, curlyEnds, i);
        var top := squares[|squares| - 1];
        squares := squares[..|squares| - 1];
        ends := ends[top := i + 1];
        squareEnds := squareEnds[top := i + 1];
      } else {
        TrackedSkip(Curly, text, curlies, curlyEnds, i);
        TrackedSkip(Square, text, squares, squareEnds, i);
      }
    }
    forall p | p in starts
      ensures p < |text| && ScanOn(Weights(KindOf(text[p]), OUT, text), p, 0) == if p in ends then Some(ends[p]) else None
    {
      EndsAreScans(text, starts, curlies, curlyEnds, squares, squareEnds, p);
    }
  }

  lemma NothingYet(text: string)
    ensures StartsOk(text, [], 0) && Tracked(Curly, text, [], map[], 0) && Tracked(Square, text, [], map[], 0)
  {
  }

  /** The two kinds record their ends at different openers, so one map serves both. */
  lemma MergeEnds(text: string, curlies: seq<nat>, curlyEnds: map<nat, nat>, squares: seq<nat>, squareEnds: map<nat, nat>, i: nat, e: nat)
    requires i <= |text| && curlies != []
    requires Tracked(Curly, text, curlies, curlyEnds, i) && Tracked(Square, text, squares, squareEnds, i)
    ensures var top := curlies[|curlies| - 1];
            (curlyEnds + squareEnds)[top := e] == curlyEnds[top := e] + squareEnds
  {
    hide StackOk, Recorded;
    assert curlies[|curlies| - 1] in curlies;
  }

  lemma {:induction false} EndsAreScans(text: string, starts: seq<nat>, curlies: seq<nat>, curlyEnds: map<nat, nat>,
                     squares: seq<nat>, squareEnds: map<nat, nat>, p: nat)
    requires StartsOk(text, starts, |text|) && p in starts
    requires Tracked(Curly, text, curlies, curlyEnds, |text|) && Tracked(Square, text, squares, squareEnds, |text|)
    ensures p < |text|
    ensures var ends := curlyEnds + squareEnds;
            ScanOn(Weights(KindOf(text[p]), OUT, text), p, 0) == if p in ends then Some(ends[p]) else None
  {
    hide StackOk, Recorded, Outside, Weights, ScanOn;
    if text[p] == '{' {
      TrackedScan(Curly, text, curlies, curlyEnds, p);
    } else {
      TrackedScan(Square, text, squares, squareEnds, p);
    }
  }

  lemma SpanOfStart(text: string, start: nat, ends: map<nat, nat>)
    requires start < |text| && Outside(OUT, text)[start] && IsOpener(text[start])
    requires ScanOn(Weights(KindOf(text[start]), OUT, text), start, 0) == if start in ends then Some(ends[start]) else None
    ensures start in ends ==> start < ends[start] <= |text|
    ensures SpanAt(text, start) == if start in ends then [text[start..ends[start]]] else []
  {
    hide Outside, Weights;
  }

  /** The stretch of text from `at` to just after the next opener. */
  lemma NextSpan(text: string, starts: seq<nat>, ends: map<nat, nat>, m: nat, at: nat)
    requires StartsOk(text, starts, |text|) && m < |starts|
    requires at == if m == 0 then 0 else starts[m - 1] + 1
    requires var p := starts[m];
             p < |text| && ScanOn(Weights(KindOf(text[p]), OUT, text), p, 0) == if p in ends then Some(ends[p]) else None
    ensures at <= starts[m] < |text|
    ensures starts[m] in ends ==> starts[m] < ends[starts[m]] <= |text|
    ensures SpansBelow(text, starts[m] + 1)
         == SpansBelow(text, at) + (if starts[m] in ends then [text[starts[m]..ends[starts[m]]]] else [])
  {
    hide Outside, Weights, ScanOn, SpanAt;
    var start := starts[m];
    assert start in starts;
    NoOpenersBetween(text, starts, m, at);
    NoSpansBetween(text, at, start);
    SpanOfStart(text, start, ends);
  }

  lemma LastSpans(text: string, starts: seq<nat>, at: nat)
    requires StartsOk(text, starts, |text|)
    requires at == if starts == [] then 0 else starts[|starts| - 1] + 1
    ensures at <= |text| && SpansBelow(text, at) == SpansBelow(text, |text|)
  {
    hide Outside, SpanAt;
    NoOpenersBetween(text, starts, |starts|, at);
    NoSpansBetween(text, at, |text|);
  }

  /** The one-pass matcher yields exactly the spans of the naive scan, in opening order. */
  method BalancedSpans(text: string) returns (spans: seq<string>)
    ensures spans == SpansBelow(text, |text|)
  {
    hide Weights, Outside, ScanOn, SpanAt, StartsOk;
    var starts, ends := MatchBrackets(text);
    spans := [];
    ghost var at: nat := 0;
    for m := 0 to |starts|
      invariant at <= |text| && spans == SpansBelow(text, at)
      invariant at == if m == 0 then 0 else starts[m - 1] + 1
    {
      var start := starts[m];
      assert start in starts;
      NextSpan(text, starts, ends, m, at);
      if start in ends {
        spans := spans + [text[start..ends[start]]];
      }
      at := start + 1;
    }
    LastSpans(text, starts, at);
  }

  lemma {:induction false} NoOpenersBetween(text: string, starts: seq<nat>, m: nat, at: nat)
    requires StartsOk(text, starts, |text|) && m <= |starts|
    requires at == if m == 0 then 0 else starts[m - 1] + 1
    ensures m < |starts| ==> at <= starts[m] < |text|
    ensures m == |starts| ==> at <= |text|
    ensures forall i :: at <= i < (if m < |starts| then starts[m] else |text|) ==> !(Outside(OUT, text)[i] && IsOpener(text[i]))
  {
    hide Outside;
    if m < |starts| {
      assert starts[m] in starts;
    }
    if m > 0 {
      assert starts[m - 1] in starts;
    }
    forall i | at <= i < (if m < |starts| then starts[m] else |text|)
      ensures !(Outside(OUT, text)[i] && IsOpener(text[i]))
    {
      if i in starts {
        var n :| 0 <= n < |starts| && starts[n] == i;
        assert false;
      }
    }
  }
}
