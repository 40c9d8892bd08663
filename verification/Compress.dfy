/**
  Token-aware patch fitting (`engine/compress.py`): cutting a patch at its
  hunks, cutting inside a hunk, and batching the pieces. `count` stands for
  `count_tokens`; nothing is assumed of it, least of all that it is additive.
 */
module Compress {
  import opened Wrappers
  import opened DiffParse
  import opened Patches
  import opened Cuts

  type Counter = seq<Line> -> nat

  // ---------------------------------------------------------------------
  // split_patch_into_hunks
  // ---------------------------------------------------------------------

  /** The line starts with `@@`. */
  predicate IsAt(l: Line) { l.HunkHead? || l.BadHead? }

  /** Every piece behind the same header lines. */
  function Prefixed(header: seq<Line>, parts: seq<seq<Line>>): (r: seq<seq<Line>>)
    ensures |r| == |parts| && forall i :: 0 <= i < |r| ==> r[i] == header + parts[i]
  {
    if parts == [] then [] else [header + parts[0]] + Prefixed(header, parts[1..])
  }

  method SplitPatchIntoHunks(patch: seq<Line>) returns (units: seq<seq<Line>>)
    ensures Before(patch, IsAt) == patch ==> units == [patch]
    ensures Before(patch, IsAt) != patch ==>
              var header := Before(patch, IsAt);
              units == Prefixed(header, Parts(patch[|header|..], IsAt))
  {
    hide Cutting, Before, Parts, Prefixed, IsAt;
    var header: seq<Line>, parts: seq<seq<Line>>, current: seq<Line> := [], [], [];
    CutStart(patch, IsAt);
    for i := 0 to |patch|
      invariant Cutting(patch, IsAt, i, parts, current)
      invariant header == if current == [] then patch[..i] else Before(patch, IsAt)
    {
      var line := patch[i];
      if IsAt(line) {
        CutAtHead(patch, IsAt, i, parts, current);
        if current != [] {
          parts := parts + [current];
        } else {
          FirstHead(patch, IsAt, i, parts);
        }
        current := [line];
      } else {
        CutInside(patch, IsAt, i, parts, current);
        if current != [] {
          current := current + [line];
        } else {
          header := header + [line];
        }
      }
    }
    CutEnd(patch, IsAt, parts, current);
    if current == [] {
      return [patch];
    }
    units := Prefixed(header, parts + [current]);
  }

  function HunkPieces(hs: seq<Hunk>): (r: seq<seq<Line>>)
    ensures |r| == |hs| && forall i :: 0 <= i < |r| ==> r[i] == HunkLines(hs[i])
  {
    if hs == [] then [] else [HunkLines(hs[0])] + HunkPieces(hs[1..])
  }

  lemma {:induction false} FlattenPieces(hs: seq<Hunk>)
    ensures Flatten(HunkPieces(hs)) == HunksLines(hs)
  {
    if hs != [] {
      FlattenPieces(hs[1..]);
    }
  }

  /** On a clean patch the pieces are its hunks, each behind the patch's own header lines. */
  lemma CleanPieces(path: string, patch: seq<Line>)
    requires CleanPatch(path, patch)
    ensures Before(patch, IsAt) == PreambleOf(patch)
    ensures HunksOf(patch) == [] <==> Before(patch, IsAt) == patch
    ensures Parts(patch[|PreambleOf(patch)|..], IsAt) == HunkPieces(HunksOf(patch))
  {
    var pre, hs := PreambleOf(patch), HunksOf(patch);
    ParseRender(patch);
    FlattenPieces(hs);
    HunksLinesStart(hs);
    var parts := HunkPieces(hs);
    PiecesAreParts(hs);
    hide PreambleOf, HunksOf, HunkPieces, HunksLines, BodiesOk;
    PartsUnique(parts, IsAt);
    HeadIsUnheaded(pre);
    BeforeUnique(pre, HunksLines(hs), IsAt);
  }

  lemma PiecesAreParts(hs: seq<Hunk>)
    requires BodiesOk(hs)
    ensures forall i :: 0 <= i < |HunkPieces(hs)| ==> IsPart(HunkPieces(hs)[i], IsAt)
  {
    var parts := HunkPieces(hs);
    forall i | 0 <= i < |parts|
      ensures IsPart(parts[i], IsAt)
    {
      assert parts[i][1..] == hs[i].body;
      assert BodyOk(hs[i].body);
      assert forall k :: 0 <= k < |hs[i].body| ==> IsBody(hs[i].body[k]);
    }
  }

  lemma HeadIsUnheaded(pre: seq<Line>)
    requires QuietHead(pre)
    ensures Unheaded(pre, IsAt)
  {
    assert forall i :: 1 <= i < |pre| ==> IsQuiet(pre[i]);
  }

  /** (path, piece) for every piece. */
  function UnitsFor(path: string, pieces: seq<seq<Line>>): (r: seq<Unit>)
    ensures |r| == |pieces| && forall i :: 0 <= i < |r| ==> r[i] == (path, pieces[i])
  {
    if pieces == [] then [] else [(path, pieces[0])] + UnitsFor(path, pieces[1..])
  }

  lemma {:induction false} UnitsForConcat(path: string, a: seq<seq<Line>>, b: seq<seq<Line>>)
    ensures UnitsFor(path, a + b) == UnitsFor(path, a) + UnitsFor(path, b)
  {
    if a == [] {
      assert a + b == b;
    } else {
      assert (a + b)[1..] == a[1..] + b;
      UnitsForConcat(path, a[1..], b);
    }
  }

  lemma OneHunkUnit(path: string, pre: seq<Line>, h: Hunk)
    requires QuietHead(pre) && BodyOk(h.body) && NameOf(pre) == Some(path)
    ensures CleanPatch(path, pre + HunkLines(h))
    ensures PreambleOf(pre + HunkLines(h)) == pre && HunksOf(pre + HunkLines(h)) == [h]
    ensures Changes(pre + HunkLines(h)) == HunkChanges(path, h)
  {
    assert HunksLines([h]) == HunkLines(h) by {
      assert HunksLines([h]) == HunkLines(h) + HunksLines([]);
    }
    MakeClean(path, pre, [h]);
    CleanChanges(INIT, path, pre + HunkLines(h));
    assert HunksChanges(path, [h]) == HunkChanges(path, h) + HunksChanges(path, []);
  }

  lemma {:induction false} PiecesKeepChanges(path: string, pre: seq<Line>, hs: seq<Hunk>)
    requires QuietHead(pre) && BodiesOk(hs) && NameOf(pre) == Some(path)
    ensures var units := UnitsFor(path, Prefixed(pre, HunkPieces(hs)));
            AllClean(units) && UnitsChanges(units) == HunksChanges(path, hs)
            && forall i :: 0 <= i < |units| ==> |HunksOf(units[i].1)| == 1
  {
    if hs != [] {
      assert BodyOk(hs[0].body);
      OneHunkUnit(path, pre, hs[0]);
      PiecesKeepChanges(path, pre, hs[1..]);
      var units := UnitsFor(path, Prefixed(pre, HunkPieces(hs)));
      assert units[0] == (path, pre + HunkLines(hs[0]));
      assert units[1..] == UnitsFor(path, Prefixed(pre, HunkPieces(hs[1..])));
    }
  }

  /**
    The contract of a lossless cut of one file's patch: every piece is a clean
    patch of that file and the pieces, in order, change exactly what it changed.
   */
  ghost predicate Lossless(path: string, patch: seq<Line>, pieces: seq<seq<Line>>) {
    && AllClean(UnitsFor(path, pieces))
    && UnitsChanges(UnitsFor(path, pieces)) == Changes(patch)
  }

  lemma WholeIsLossless(path: string, patch: seq<Line>)
    requires CleanPatch(path, patch)
    ensures Lossless(path, patch, [patch])
  {
    assert UnitsFor(path, [patch]) == [(path, patch)];
    assert UnitsChanges([(path, patch)]) == Changes(patch) + UnitsChanges([]);
  }

  /** Cutting a clean patch at its hunks loses, moves and renumbers no changed line. */
  lemma HunkSplitIsLossless(path: string, patch: seq<Line>, units: seq<seq<Line>>)
    requires CleanPatch(path, patch)
    requires Before(patch, IsAt) == patch ==> units == [patch]
    requires Before(patch, IsAt) != patch ==>
               var header := Before(patch, IsAt);
               units == Prefixed(header, Parts(patch[|header|..], IsAt))
    ensures Lossless(path, patch, units)
    ensures |units| == if HunksOf(patch) == [] then 1 else |HunksOf(patch)|
    ensures HunksOf(patch) != [] ==> forall i :: 0 <= i < |units| ==> |HunksOf(units[i])| == 1
  {
    CleanPieces(path, patch);
    var hs := HunksOf(patch);
    if hs == [] {
      WholeIsLossless(path, patch);
    } else {
      PiecesKeepChanges(path, PreambleOf(patch), hs);
      CleanChanges(INIT, path, patch);
      var us := UnitsFor(path, units);
      assert forall i :: 0 <= i < |units| ==> us[i].1 == units[i];
    }
  }

  // ---------------------------------------------------------------------
  // split_hunk_by_budget
  // ---------------------------------------------------------------------

  /** Body lines [a, b) of the hunk behind a header rewritten for just those lines. */
  function Slice(h: Hunk, a: nat, b: nat): Hunk
    requires a <= b <= |h.body|
  {
    Hunk(Header(h.header.oldStart + OldLen(h.body[..a]), OldLen(h.body[a..b]),
                h.header.newStart + NewLen(h.body[..a]), NewLen(h.body[a..b]),
                h.header.section),
         h.body[a..b])
  }

  lemma LenSplit(body: seq<Line>, a: nat, b: nat)
    requires a <= b <= |body|
    ensures OldLen(body[..b]) == OldLen(body[..a]) + OldLen(body[a..b])
    ensures NewLen(body[..b]) == NewLen(body[..a]) + NewLen(body[a..b])
  {
    assert body[..b] == body[..a] + body[a..b];
    LenConcat(body[..a], body[a..b]);
  }

  /** `cuts` runs from 0 to the end of the body in strictly ascending steps. */
  ghost predicate CutsOf(cuts: seq<nat>, n: nat) {
    && |cuts| >= 1 && cuts[0] == 0 && cuts[|cuts| - 1] == n
    && forall i, j :: 0 <= i < j < |cuts| ==> cuts[i] < cuts[j]
  }

  lemma CutsBound(cuts: seq<nat>, n: nat, i: nat)
    requires CutsOf(cuts, n) && i < |cuts|
    ensures cuts[i] <= n
  {
    assert i < |cuts| - 1 ==> cuts[i] < cuts[|cuts| - 1];
  }

  /** The pieces are the slices between the cuts, each within the budget unless it holds one line. */
  ghost predicate Slicing(pieces: seq<seq<Line>>, pre: seq<Line>, h: Hunk, cuts: seq<nat>, max: nat, count: Counter) {
    && (forall i :: 0 <= i < |cuts| ==> cuts[i] <= |h.body|)
    && (forall i, j :: 0 <= i < j < |cuts| ==> cuts[i] < cuts[j])
    && |pieces| == |cuts| - 1
    && forall i :: 0 <= i < |pieces| ==>
         && pieces[i] == pre + HunkLines(Slice(h, cuts[i], cuts[i + 1]))
         && (count(pieces[i]) <= max || cuts[i + 1] == cuts[i] + 1)
  }

  /** The proportional shrink always takes at least one line off. */
  lemma ShrinkDecreases(lines: nat, max: nat, actual: nat)
    requires lines > 1 && actual > max
    ensures lines * max / actual < lines
  {
    var q := lines * max / actual;
    assert q * actual <= lines * max < lines * actual;
  }

  function CostSum(costs: seq<nat>): nat {
    if costs == [] then 0 else CostSum(costs[..|costs| - 1]) + costs[|costs| - 1]
  }

  /** The most lines from `start` on whose separate costs fit the budget, and one line at least. */
  ghost predicate GreedyEnd(costs: seq<nat>, start: nat, max: nat, end: nat) {
    && start < end <= |costs|
    && (end == start + 1 || CostSum(costs[start..end]) <= max)
    && (end == |costs| || CostSum(costs[start..end + 1]) > max)
  }

  lemma CostNext(costs: seq<nat>, start: nat, end: nat)
    requires start <= end < |costs|
    ensures CostSum(costs[start..end + 1]) == CostSum(costs[start..end]) + costs[end]
    ensures start == end ==> CostSum(costs[start..end]) == 0
  {
    assert costs[start..end + 1][..end - start] == costs[start..end];
  }

  /** What each line costs by itself. */
  function Costs(body: seq<Line>, count: Counter): (r: seq<nat>)
    ensures |r| == |body| && forall i :: 0 <= i < |r| ==> r[i] == count([body[i]])
  {
    seq(|body|, i requires 0 <= i < |body| => count([body[i]]))
  }

  /** How far a slice grows from `end` on, having used so much of the budget. */
  function GrownEnd(costs: seq<nat>, end: nat, used: nat, max: nat): (r: nat)
    requires end <= |costs|
    ensures end <= r <= |costs|
    decreases |costs| - end
  {
    if end < |costs| && used + costs[end] <= max then GrownEnd(costs, end + 1, used + costs[end], max) else end
  }

  /** Where the proportional shrink takes a slice of the lines up to `e` that overran the budget. */
  function ShrunkEnd(start: nat, e: nat, max: nat, actual: nat): nat
    requires start < e && actual > 0
  {
    var shrunk := start + (e - start) * max / actual;
    if shrunk > start + 1 then shrunk else start + 1
  }

  /** The share is the most lines whose proportion of the cost fits the budget, and one at least. */
  lemma ShareIs(start: nat, e: nat, max: nat, actual: nat)
    requires start < e && actual > 0
    ensures var lines := ShrunkEnd(start, e, max, actual) - start;
            lines >= 1 && (lines > 1 ==> lines * actual <= (e - start) * max) && (e - start) * max < (lines + 1) * actual
  {
    var x := (e - start) * max;
    var q := x / actual;
    assert q * actual <= x < (q + 1) * actual;
    if q < 1 {
      assert (q + 1) * actual == actual <= 2 * actual;
    }
  }

  /** The slice up to `e` overran the budget, and `end` is its share. */
  ghost predicate SharesOverrun(pre: seq<Line>, h: Hunk, start: nat, e: nat, end: nat, max: nat, count: Counter) {
    start < e <= |h.body|
    && var actual := count(pre + HunkLines(Slice(h, start, e)));
       actual > max && end == ShrunkEnd(start, e, max, actual)
  }

  /** Where shrinking a slice of the lines up to `end` comes to rest. */
  function SettledEnd(pre: seq<Line>, h: Hunk, start: nat, end: nat, max: nat, count: Counter): (r: nat)
    requires start < end <= |h.body|
    ensures start < r <= end
    decreases end
  {
    var actual := count(pre + HunkLines(Slice(h, start, end)));
    if end == start + 1 || actual <= max then end
    else
      ShrinkDecreases(end - start, max, actual);
      SettledEnd(pre, h, start, ShrunkEnd(start, end, max, actual), max, count)
  }

  /** Where the slice from `start` on ends. */
  function EndFrom(pre: seq<Line>, h: Hunk, start: nat, max: nat, count: Counter): (r: nat)
    requires start < |h.body|
    ensures start < r <= |h.body|
  {
    var costs := Costs(h.body, count);
    SettledEnd(pre, h, start, GrownEnd(costs, start + 1, costs[start], max), max, count)
  }

  /** The slices of the body from `start` on. */
  function SlicesFrom(pre: seq<Line>, h: Hunk, start: nat, max: nat, count: Counter): seq<seq<Line>>
    requires start <= |h.body|
    decreases |h.body| - start
  {
    if start == |h.body| then []
    else
      var end := EndFrom(pre, h, start, max, count);
      [pre + HunkLines(Slice(h, start, end))] + SlicesFrom(pre, h, end, max, count)
  }

  /** What a unit is cut into: itself when there is no second slice. */
  function SlicesOf(unit: seq<Line>, max: nat, count: Counter): seq<seq<Line>> {
    if !Sliceable(unit) then [unit]
    else
      var slices := SlicesFrom(UnitHead(unit), UnitHunk(unit), 0, max, count);
      if |slices| <= 1 then [unit] else slices
  }

  /**
    Grows a slice on the lines' separate costs, then shrinks it in proportion
    until it renders within the budget or holds one line. A grown slice that fits is taken whole.
   */
  method SliceEnd(pre: seq<Line>, h: Hunk, costs: seq<nat>, start: nat, max: nat, count: Counter)
    returns (end: nat, ghost grown: nat)
    requires start < |h.body| && costs == Costs(h.body, count)
    ensures start < end <= |h.body|
    ensures end == EndFrom(pre, h, start, max, count)
    ensures end == start + 1 || count(pre + HunkLines(Slice(h, start, end))) <= max
    ensures GreedyEnd(costs, start, max, grown) && end <= grown
    ensures count(pre + HunkLines(Slice(h, start, grown))) <= max ==> end == grown
    ensures end < grown ==> exists e :: end < e <= grown && SharesOverrun(pre, h, start, e, end, max, count)
  {
    hide HunkLines, Slice, Costs, SettledEnd, EndFrom, CostSum;
    EndFromIs(pre, h, start, max, count);
    end := start + 1;
    var used := costs[start];
    CostNext(costs, start, start);
    while end < |h.body| && used + costs[end] <= max
      invariant start < end <= |h.body|
      invariant used == CostSum(costs[start..end]) && (end == start + 1 || used <= max)
      invariant GrownEnd(costs, end, used, max) == GrownEnd(costs, start + 1, costs[start], max)
    {
      CostNext(costs, start, end);
      used := used + costs[end];
      end := end + 1;
    }
    if end < |h.body| {
      CostNext(costs, start, end);
    }
    grown := end;
    assert GrownEnd(costs, end, used, max) == end;
    hide GrownEnd;
    while end > start + 1
      invariant start < end <= grown
      invariant SettledEnd(pre, h, start, end, max, count) == EndFrom(pre, h, start, max, count)
      invariant end < grown ==> exists e :: end < e <= grown && SharesOverrun(pre, h, start, e, end, max, count)
      invariant count(pre + HunkLines(Slice(h, start, grown))) <= max ==> end == grown
      decreases end
    {
      var actual := count(pre + HunkLines(Slice(h, start, end)));
      SettledNext(pre, h, start, end, max, count);
      if actual <= max {
        break;
      }
      ShrinkDecreases(end - start, max, actual);
      var shrunk := start + (end - start) * max / actual;
      assert SharesOverrun(pre, h, start, end, if shrunk > start + 1 then shrunk else start + 1, max, count);
      end := if shrunk > start + 1 then shrunk else start + 1;
    }
    SettledNext(pre, h, start, end, max, count);
  }

  lemma EndFromIs(pre: seq<Line>, h: Hunk, start: nat, max: nat, count: Counter)
    requires start < |h.body|
    ensures var costs := Costs(h.body, count);
            EndFrom(pre, h, start, max, count)
            == SettledEnd(pre, h, start, GrownEnd(costs, start + 1, costs[start], max), max, count)
  {
  }

  lemma SettledNext(pre: seq<Line>, h: Hunk, start: nat, end: nat, max: nat, count: Counter)
    requires start < end <= |h.body|
    ensures var actual := count(pre + HunkLines(Slice(h, start, end)));
            if end == start + 1 || actual <= max then SettledEnd(pre, h, start, end, max, count) == end
            else start < ShrunkEnd(start, end, max, actual) < end
                 && SettledEnd(pre, h, start, end, max, count)
                    == SettledEnd(pre, h, start, ShrunkEnd(start, end, max, actual), max, count)
  {
    hide HunkLines, Slice;
    if end > start + 1 && count(pre + HunkLines(Slice(h, start, end))) > max {
      ShrinkDecreases(end - start, max, count(pre + HunkLines(Slice(h, start, end))));
    }
  }

  /** The running position of each body line on both sides, and the cost of each line. */
  method Positions(h: Hunk, count: Counter) returns (oldAt: seq<nat>, newAt: seq<nat>, costs: seq<nat>)
    ensures |oldAt| == |newAt| == |h.body| + 1 && costs == Costs(h.body, count)
    ensures forall k :: 0 <= k <= |h.body| ==> oldAt[k] == h.header.oldStart + OldLen(h.body[..k])
    ensures forall k :: 0 <= k <= |h.body| ==> newAt[k] == h.header.newStart + NewLen(h.body[..k])
  {
    var body := h.body;
    oldAt, newAt, costs := [h.header.oldStart], [h.header.newStart], [];
    for i := 0 to |body|
      invariant |oldAt| == |newAt| == i + 1
      invariant |costs| == i && forall k :: 0 <= k < i ==> costs[k] == count([body[k]])
      invariant forall k :: 0 <= k <= i ==> oldAt[k] == h.header.oldStart + OldLen(body[..k])
      invariant forall k :: 0 <= k <= i ==> newAt[k] == h.header.newStart + NewLen(body[..k])
    {
      LenSnoc(body[..i], body[i]);
      assert body[..i + 1] == body[..i] + [body[i]];
      oldAt := oldAt + [oldAt[i] + OldCount(body[i])];
      newAt := newAt + [newAt[i] + NewCount(body[i])];
      costs := costs + [count([body[i]])];
    }
  }

  lemma LenSnoc(a: seq<Line>, l: Line)
    ensures OldLen(a + [l]) == OldLen(a) + OldCount(l)
    ensures NewLen(a + [l]) == NewLen(a) + NewCount(l)
  {
    LenConcat(a, [l]);
    assert OldLen([l]) == OldCount(l) + OldLen([]);
    assert NewLen([l]) == NewCount(l) + NewLen([]);
  }

  lemma SlicingSnoc(pieces: seq<seq<Line>>, pre: seq<Line>, h: Hunk, cuts: seq<nat>, max: nat, count: Counter,
                    end: nat, piece: seq<Line>)
    requires |cuts| >= 1 && CutsOf(cuts, cuts[|cuts| - 1]) && Slicing(pieces, pre, h, cuts, max, count)
    requires cuts[|cuts| - 1] < end <= |h.body|
    requires piece == pre + HunkLines(Slice(h, cuts[|cuts| - 1], end))
    requires count(piece) <= max || end == cuts[|cuts| - 1] + 1
    ensures CutsOf(cuts + [end], end) && Slicing(pieces + [piece], pre, h, cuts + [end], max, count)
  {
    hide Slice, HunkLines;
    var cuts', pieces' := cuts + [end], pieces + [piece];
    forall i | 0 <= i < |pieces'|
      ensures pieces'[i] == pre + HunkLines(Slice(h, cuts'[i], cuts'[i + 1]))
              && (count(pieces'[i]) <= max || cuts'[i + 1] == cuts'[i] + 1)
    {
      if i < |pieces| {
        assert pieces'[i] == pieces[i] && cuts'[i] == cuts[i] && cuts'[i + 1] == cuts[i + 1];
      }
    }
  }

  lemma SliceIs(h: Hunk, a: nat, b: nat)
    requires a <= b <= |h.body|
    ensures Slice(h, a, b)
         == Hunk(Header(h.header.oldStart + OldLen(h.body[..a]), OldLen(h.body[a..b]),
                        h.header.newStart + NewLen(h.body[..a]), NewLen(h.body[a..b]), h.header.section),
                 h.body[a..b])
  {
  }

  /** `split_hunk_by_budget` on a unit already split at its header. */
  method SliceHunk(pre: seq<Line>, h: Hunk, max: nat, count: Counter)
    returns (slices: seq<seq<Line>>, cuts: seq<nat>)
    ensures CutsOf(cuts, |h.body|) && Slicing(slices, pre, h, cuts, max, count)
    ensures slices == SlicesFrom(pre, h, 0, max, count)
  {
    hide Slice, HunkLines, EndFrom;
    var body := h.body;
    var oldAt, newAt, costs := Positions(h, count);
    slices, cuts := [], [0];
    var start := 0;
    while start < |body|
      invariant 0 <= start <= |body|
      invariant CutsOf(cuts, start)
      invariant Slicing(slices, pre, h, cuts, max, count)
      invariant slices + SlicesFrom(pre, h, start, max, count) == SlicesFrom(pre, h, 0, max, count)
    {
      var end, _ := SliceEnd(pre, h, costs, start, max, count);
      LenSplit(body, start, end);
      var header := Header(oldAt[start], oldAt[end] - oldAt[start], newAt[start], newAt[end] - newAt[start],
                           h.header.section);
      SliceIs(h, start, end);
      assert Hunk(header, body[start..end]) == Slice(h, start, end);
      var piece := pre + HunkLines(Hunk(header, body[start..end]));
      Assoc(slices, [piece], SlicesFrom(pre, h, end, max, count));
      SlicingSnoc(slices, pre, h, cuts, max, count, end, piece);
      slices := slices + [piece];
      cuts := cuts + [end];
      start := end;
    }
  }

  /** The first line starting with `@@`, if it is a hunk header with a body after it. */
  predicate Sliceable(unit: seq<Line>) {
    var at := |Before(unit, IsAt)|;
    at < |unit| && unit[at].HunkHead? && at + 1 < |unit|
  }

  /** What a sliceable unit is cut into: the header lines and the hunk made of all the rest. */
  function UnitHead(unit: seq<Line>): seq<Line> { Before(unit, IsAt) }

  function UnitHunk(unit: seq<Line>): Hunk
    requires Sliceable(unit)
  {
    var at := |Before(unit, IsAt)|;
    Hunk(unit[at].header, unit[at + 1..])
  }

  /**
    A unit comes back whole, or as two or more slices whose bodies are the
    unit's body cut in order, each within the budget or a single line long.
   */
  method SplitHunkByBudget(unit: seq<Line>, max: nat, count: Counter)
    returns (slices: seq<seq<Line>>, cuts: seq<nat>)
    ensures slices == SlicesOf(unit, max, count)
    ensures slices == [unit] || |slices| >= 2
    ensures !Sliceable(unit) ==> slices == [unit]
    ensures |slices| >= 2 ==>
              && Sliceable(unit)
              && CutsOf(cuts, |UnitHunk(unit).body|)
              && Slicing(slices, UnitHead(unit), UnitHunk(unit), cuts, max, count)
    ensures slices == [unit] && Sliceable(unit) ==>
              var h := UnitHunk(unit);
              |h.body| == 1 || count(UnitHead(unit) + HunkLines(Slice(h, 0, |h.body|))) <= max
  {
    cuts := [];
    var header: seq<Line> := Before(unit, IsAt);
    var at := |header|;
    if at == |unit| || unit[at].BadHead? || unit[at + 1..] == [] {
      return [unit], cuts;
    }
    var h := Hunk(unit[at].header, unit[at + 1..]);
    slices, cuts := SliceHunk(header, h, max, count);
    if |slices| <= 1 {
      assert |cuts| == 2;
      slices := [unit];
    }
  }

  /** The changes of a body are those of its first `a` lines and then of the rest, numbered on from there. */
  lemma SliceStep(path: string, h: Hunk, a: nat, b: nat)
    requires BodyOk(h.body) && a <= b <= |h.body|
    ensures var s := At(path, h.header.oldStart, h.header.newStart);
            Changed(s, h.body[..b]) == Changed(s, h.body[..a]) + HunkChanges(path, Slice(h, a, b))
  {
    var s := At(path, h.header.oldStart, h.header.newStart);
    assert h.body[..b] == h.body[..a] + h.body[a..b];
    ChangedConcat(s, h.body[..a], h.body[a..b]);
    RunBody(path, h.header.oldStart, h.header.newStart, h.body[..a]);
  }

  lemma SliceBodyOk(h: Hunk, a: nat, b: nat)
    requires BodyOk(h.body) && a <= b <= |h.body|
    ensures BodyOk(Slice(h, a, b).body)
  {
  }

  lemma LastSlice(path: string, pre: seq<Line>, h: Hunk, front: seq<seq<Line>>, a: nat, b: nat)
    requires QuietHead(pre) && NameOf(pre) == Some(path) && BodyOk(h.body) && a <= b <= |h.body|
    requires AllClean(UnitsFor(path, front))
    requires UnitsChanges(UnitsFor(path, front)) == Changed(At(path, h.header.oldStart, h.header.newStart), h.body[..a])
    ensures var units := UnitsFor(path, front + [pre + HunkLines(Slice(h, a, b))]);
            AllClean(units)
            && UnitsChanges(units) == Changed(At(path, h.header.oldStart, h.header.newStart), h.body[..b])
  {
    var slice := Slice(h, a, b);
    var last := pre + HunkLines(slice);
    SliceStep(path, h, a, b);
    SliceBodyOk(h, a, b);
    OneHunkUnit(path, pre, slice);
    hide CleanPatch, QuietHead, NameOf, Changed, HunkChanges, Slice, HunkLines, BodyOk;
    UnitsForConcat(path, front, [last]);
    assert UnitsFor(path, [last]) == [(path, last)];
    UnitsChangesSnoc(UnitsFor(path, front), (path, last));
  }

  lemma NoPieces(path: string, s: State)
    ensures AllClean(UnitsFor(path, [])) && UnitsChanges(UnitsFor(path, [])) == Changed(s, [])
  {
  }

  lemma {:induction false} SlicesKeepChanges(path: string, pre: seq<Line>, h: Hunk, pieces: seq<seq<Line>>,
                                             cuts: seq<nat>, max: nat, count: Counter)
    requires QuietHead(pre) && NameOf(pre) == Some(path) && BodyOk(h.body)
    requires |cuts| >= 1 && cuts[0] == 0 && Slicing(pieces, pre, h, cuts, max, count)
    ensures AllClean(UnitsFor(path, pieces))
    ensures UnitsChanges(UnitsFor(path, pieces))
         == Changed(At(path, h.header.oldStart, h.header.newStart), h.body[..cuts[|cuts| - 1]])
    decreases |cuts|
  {
    hide CleanPatch, Changed, UnitsChanges, Slice, QuietHead, NameOf, BodyOk, UnitsFor;
    var k := |pieces|;
    if k == 0 {
      NoPieces(path, At(path, h.header.oldStart, h.header.newStart));
      assert h.body[..0] == [];
    } else {
      SlicesKeepChanges(path, pre, h, pieces[..k - 1], cuts[..k], max, count);
      LastSlice(path, pre, h, pieces[..k - 1], cuts[k - 1], cuts[k]);
      assert pieces == pieces[..k - 1] + [pieces[k - 1]];
    }
  }

  /** In-hunk slicing with fresh headers is lossless on a clean one-hunk unit. */
  lemma SlicingIsLossless(path: string, unit: seq<Line>, slices: seq<seq<Line>>, cuts: seq<nat>, max: nat, count: Counter)
    requires CleanPatch(path, unit) && |HunksOf(unit)| == 1 && Sliceable(unit)
    requires CutsOf(cuts, |UnitHunk(unit).body|)
    requires Slicing(slices, UnitHead(unit), UnitHunk(unit), cuts, max, count)
    ensures Lossless(path, unit, slices)
  {
    OneHunkIs(path, unit);
    var h := UnitHunk(unit);
    SlicesKeepChanges(path, UnitHead(unit), h, slices, cuts, max, count);
    assert h.body[..|h.body|] == h.body;
    CleanChanges(INIT, path, unit);
    assert HunksChanges(path, [h]) == HunkChanges(path, h) + HunksChanges(path, []);
  }

  lemma OneHunkIs(path: string, unit: seq<Line>)
    requires CleanPatch(path, unit) && |HunksOf(unit)| == 1 && Sliceable(unit)
    ensures UnitHead(unit) == PreambleOf(unit) && HunksOf(unit) == [UnitHunk(unit)]
    ensures BodyOk(UnitHunk(unit).body) && QuietHead(UnitHead(unit)) && NameOf(UnitHead(unit)) == Some(path)
  {
    CleanPieces(path, unit);
    ParseRender(unit);
    var h := HunksOf(unit)[0];
    assert HunksOf(unit) == [h];
    assert HunksLines([h]) == HunkLines(h) + HunksLines([]);
    assert unit == PreambleOf(unit) + HunkLines(h);
    assert BodyOk(h.body);
  }
}
