/** Cutting a sequence of lines in front of every header line. */
module Cuts {
  import opened Wrappers
  import opened DiffParse

  predicate Unheaded(ls: seq<Line>, isHead: Line -> bool) {
    forall i :: 0 <= i < |ls| ==> !isHead(ls[i])
  }

  /** The lines before the first header. */
  function Before(ls: seq<Line>, isHead: Line -> bool): (pre: seq<Line>)
    ensures pre <= ls && Unheaded(pre, isHead)
    ensures |pre| < |ls| ==> isHead(ls[|pre|])
  {
    if ls == [] || isHead(ls[0]) then [] else [ls[0]] + Before(ls[1..], isHead)
  }

  predicate IsPart(part: seq<Line>, isHead: Line -> bool) {
    part != [] && isHead(part[0]) && Unheaded(part[1..], isHead)
  }

  /** The pieces between headers, each starting with its header. */
  function Parts(ls: seq<Line>, isHead: Line -> bool): seq<seq<Line>>
    requires ls == [] || isHead(ls[0])
    decreases |ls|
  {
    if ls == [] then []
    else
      var body := Before(ls[1..], isHead);
      [[ls[0]] + body] + Parts(ls[1..][|body|..], isHead)
  }

  lemma {:induction false} BeforeUnique(pre: seq<Line>, rest: seq<Line>, isHead: Line -> bool)
    requires Unheaded(pre, isHead) && (rest == [] || isHead(rest[0]))
    ensures Before(pre + rest, isHead) == pre
  {
    if pre == [] {
      assert pre + rest == rest;
    } else {
      assert (pre + rest)[1..] == pre[1..] + rest;
      BeforeUnique(pre[1..], rest, isHead);
    }
  }

  lemma FlattenStart(parts: seq<seq<Line>>, isHead: Line -> bool)
    requires parts != [] && IsPart(parts[0], isHead)
    ensures Flatten(parts) != [] && Flatten(parts)[0] == parts[0][0]
    ensures Flatten(parts)[1..] == parts[0][1..] + Flatten(parts[1..])
  {
    var first, rest := parts[0], Flatten(parts[1..]);
    assert Flatten(parts) == first + rest;
    assert (first + rest)[1..] == first[1..] + rest;
  }

  /** There is one way to cut. */
  lemma {:induction false} PartsUnique(parts: seq<seq<Line>>, isHead: Line -> bool)
    requires forall i :: 0 <= i < |parts| ==> IsPart(parts[i], isHead)
    ensures Flatten(parts) == [] || isHead(Flatten(parts)[0])
    ensures Parts(Flatten(parts), isHead) == parts
    decreases |parts|
  {
    if parts != [] {
      assert IsPart(parts[0], isHead);
      FlattenStart(parts, isHead);
      var body, after := parts[0][1..], Flatten(parts[1..]);
      PartsUnique(parts[1..], isHead);
      BeforeUnique(body, after, isHead);
      assert (body + after)[|body|..] == after;
      assert [parts[0][0]] + body == parts[0];
      assert parts == [parts[0]] + parts[1..];
    }
  }

  lemma GrowPart(part: seq<Line>, l: Line, isHead: Line -> bool)
    requires IsPart(part, isHead) && !isHead(l)
    ensures IsPart(part + [l], isHead)
  {
    assert (part + [l])[1..] == part[1..] + [l];
  }

  /** A pass over `ls` has closed `parts` and is reading `open`; nothing is open before the first header. */
  ghost predicate Cutting(ls: seq<Line>, isHead: Line -> bool, i: nat, parts: seq<seq<Line>>, open: seq<Line>) {
    var pre := Before(ls, isHead);
    && i <= |ls|
    && (open == [] <==> i <= |pre|)
    && (open == [] ==> parts == [])
    && (open != [] ==> IsPart(open, isHead) && Flatten(parts) + open == ls[|pre|..i])
    && (forall k :: 0 <= k < |parts| ==> IsPart(parts[k], isHead))
  }

  lemma CutStart(ls: seq<Line>, isHead: Line -> bool)
    ensures Cutting(ls, isHead, 0, [], [])
  {
  }

  /** The first header line ends what comes before. */
  lemma FirstHead(ls: seq<Line>, isHead: Line -> bool, i: nat, parts: seq<seq<Line>>)
    requires Cutting(ls, isHead, i, parts, []) && i < |ls| && isHead(ls[i])
    ensures Before(ls, isHead) == ls[..i]
  {
    var pre := Before(ls, isHead);
    assert i >= |pre|;
  }

  lemma CutAtHead(ls: seq<Line>, isHead: Line -> bool, i: nat, parts: seq<seq<Line>>, open: seq<Line>)
    requires Cutting(ls, isHead, i, parts, open) && i < |ls| && isHead(ls[i])
    ensures Cutting(ls, isHead, i + 1, if open == [] then parts else parts + [open], [ls[i]])
  {
    var pre := Before(ls, isHead);
    var parts' := if open == [] then parts else parts + [open];
    assert i >= |pre|;
    assert ls[|pre|..i + 1] == ls[|pre|..i] + [ls[i]];
    if open != [] {
      FlattenSnoc(parts, open);
    }
    assert Flatten(parts') + [ls[i]] == ls[|pre|..i + 1];
  }

  lemma CutInside(ls: seq<Line>, isHead: Line -> bool, i: nat, parts: seq<seq<Line>>, open: seq<Line>)
    requires Cutting(ls, isHead, i, parts, open) && i < |ls| && !isHead(ls[i])
    ensures Cutting(ls, isHead, i + 1, parts, if open == [] then open else open + [ls[i]])
  {
    var pre := Before(ls, isHead);
    if open != [] {
      GrowPart(open, ls[i], isHead);
      assert ls[|pre|..i + 1] == ls[|pre|..i] + [ls[i]];
      assert Flatten(parts) + (open + [ls[i]]) == Flatten(parts) + open + [ls[i]];
    }
  }

  lemma {:induction false} CutEnd(ls: seq<Line>, isHead: Line -> bool, parts: seq<seq<Line>>, open: seq<Line>)
    requires Cutting(ls, isHead, |ls|, parts, open)
    ensures open == [] ==> Before(ls, isHead) == ls
    ensures open != [] ==> Before(ls, isHead) != ls
                           && Parts(ls[|Before(ls, isHead)|..], isHead) == parts + [open]
  {
    var pre := Before(ls, isHead);
    if open != [] {
      FlattenSnoc(parts, open);
      PartsUnique(parts + [open], isHead);
      assert ls[|pre|..] == ls[|pre|..|ls|];
    }
  }
}
