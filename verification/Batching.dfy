/** Greedy batching, with the recursive walk that cuts over-budget files first (`batch_files`). */
module Batching {
  import opened Wrappers
  import opened DiffParse
  import opened Patches
  import opened Cuts
  import opened Compress

  function Total(units: seq<Unit>, count: Counter): nat {
    if units == [] then 0 else count(units[0].1) + Total(units[1..], count)
  }

  lemma {:induction false} TotalConcat(a: seq<Unit>, b: seq<Unit>, count: Counter)
    ensures Total(a + b, count) == Total(a, count) + Total(b, count)
  {
    if a == [] {
      assert a + b == b;
    } else {
      assert (a + b)[1..] == a[1..] + b;
      TotalConcat(a[1..], b, count);
    }
  }

  lemma TotalSnoc(a: seq<Unit>, u: Unit, count: Counter)
    ensures Total(a + [u], count) == Total(a, count) + count(u.1)
  {
    TotalConcat(a, [u], count);
    assert Total([u], count) == count(u.1) + Total([], count);
  }

  /** No batch is empty, and a batch of two or more fits the budget. */
  ghost predicate Bounded(batches: seq<seq<Unit>>, max: nat, count: Counter) {
    forall i :: 0 <= i < |batches| ==>
      batches[i] != [] && (|batches[i]| >= 2 ==> Total(batches[i], count) <= max)
  }

  /** Two consecutive batches fill at least one budget between them. */
  ghost predicate Dense(batches: seq<seq<Unit>>, max: nat, count: Counter) {
    forall i, j :: 0 <= i < j < |batches| && j == i + 1 ==>
      Total(batches[i], count) + Total(batches[j], count) >= max
  }

  /** `batches` are closed and `current`, worth `tokens`, is being filled. */
  ghost predicate Filling(units: seq<Unit>, batches: seq<seq<Unit>>, current: seq<Unit>, tokens: nat,
                          max: nat, count: Counter) {
    && Flatten(batches) + current == units
    && Bounded(batches, max, count) && Dense(batches, max, count)
    && tokens == Total(current, count)
    && (|current| >= 2 ==> tokens <= max)
    && (batches != [] ==> Total(batches[|batches| - 1], count) + tokens >= max)
  }

  lemma CloseBatch(units: seq<Unit>, batches: seq<seq<Unit>>, current: seq<Unit>, tokens: nat, max: nat, count: Counter)
    requires Filling(units, batches, current, tokens, max, count) && current != []
    ensures Flatten(batches + [current]) == units
    ensures Bounded(batches + [current], max, count) && Dense(batches + [current], max, count)
  {
    FlattenSnoc(batches, current);
  }

  /** The unit joins the batch being filled. */
  lemma PutUnit(units: seq<Unit>, batches: seq<seq<Unit>>, current: seq<Unit>, tokens: nat, u: Unit, max: nat, count: Counter)
    requires Filling(units, batches, current, tokens, max, count)
    requires current == [] || tokens + count(u.1) <= max
    ensures Filling(units + [u], batches, current + [u], tokens + count(u.1), max, count)
  {
    TotalSnoc(current, u, count);
    assert Flatten(batches) + (current + [u]) == units + [u];
  }

  /** The unit starts the next batch, which is why the last one is closed. */
  lemma NextBatch(units: seq<Unit>, batches: seq<seq<Unit>>, current: seq<Unit>, tokens: nat, u: Unit, max: nat, count: Counter)
    requires Filling(units, batches, current, tokens, max, count) && current != []
    requires tokens + count(u.1) > max
    ensures Filling(units + [u], batches + [current], [u], count(u.1), max, count)
  {
    CloseBatch(units, batches, current, tokens, max, count);
    TotalSnoc([], u, count);
    assert [] + [u] == [u];
  }

  /** An oversize unit closes the batch being filled and is a batch of its own. */
  lemma OwnBatch(units: seq<Unit>, batches: seq<seq<Unit>>, current: seq<Unit>, tokens: nat, closed: seq<seq<Unit>>, u: Unit,
                 max: nat, count: Counter)
    requires Filling(units, batches, current, tokens, max, count)
    requires count(u.1) >= max && closed == if current == [] then batches else batches + [current]
    ensures Filling(units + [u], closed + [[u]], [], 0, max, count)
  {
    hide Bounded, Dense;
    if current != [] {
      CloseBatch(units, batches, current, tokens, max, count);
    } else {
      assert Flatten(batches) + [] == Flatten(batches);
    }
    AddOwn(units, closed, u, max, count);
  }

  lemma AddOwn(units: seq<Unit>, closed: seq<seq<Unit>>, u: Unit, max: nat, count: Counter)
    requires Flatten(closed) == units && Bounded(closed, max, count) && Dense(closed, max, count) && count(u.1) >= max
    ensures Filling(units + [u], closed + [[u]], [], 0, max, count)
  {
    TotalSnoc([], u, count);
    assert [] + [u] == [u];
    FlattenSnoc(closed, [u]);
    assert Flatten(closed + [[u]]) + [] == units + [u];
  }

  /** Batch `b` could not have taken the unit: it would overrun the budget, or one of the two fills the budget by itself. */
  ghost predicate NoRoomFor(b: seq<Unit>, u: Unit, max: nat, count: Counter) {
    b != [] && (count(u.1) >= max || count(b[0].1) >= max || Total(b, count) + count(u.1) > max)
  }

  /** A unit that fills the budget is alone, and no batch had room for the first unit of the next. */
  ghost predicate Greedy(batches: seq<seq<Unit>>, max: nat, count: Counter) {
    && (forall i, u :: 0 <= i < |batches| && |batches[i]| >= 2 && u in batches[i] ==> count(u.1) < max)
    && (forall i, j :: 0 <= i < j < |batches| && j == i + 1 && batches[j] != [] ==> NoRoomFor(batches[i], batches[j][0], max, count))
  }

  /** The closed batches and the one being filled are so far. */
  ghost predicate Packing(batches: seq<seq<Unit>>, current: seq<Unit>, max: nat, count: Counter) {
    && (forall u :: u in current ==> count(u.1) < max)
    && Greedy(if current == [] then batches else batches + [current], max, count)
    && (current == [] && batches != [] ==> var last := batches[|batches| - 1]; last != [] && count(last[0].1) >= max)
  }

  lemma GreedySnoc(batches: seq<seq<Unit>>, b: seq<Unit>, max: nat, count: Counter)
    requires Greedy(batches, max, count) && (|b| >= 2 ==> forall u :: u in b ==> count(u.1) < max)
    requires batches != [] && b != [] ==> NoRoomFor(batches[|batches| - 1], b[0], max, count)
    ensures Greedy(batches + [b], max, count)
  {
    hide NoRoomFor;
  }

  lemma GreedyFront(batches: seq<seq<Unit>>, b: seq<Unit>, max: nat, count: Counter)
    requires Greedy(batches + [b], max, count)
    ensures Greedy(batches, max, count)
    ensures batches != [] && b != [] ==> NoRoomFor(batches[|batches| - 1], b[0], max, count)
  {
    hide NoRoomFor;
    var all, k := batches + [b], |batches|;
    assert forall i :: 0 <= i < k ==> all[i] == batches[i];
    assert all[k] == b;
    if k > 0 && b != [] {
      assert NoRoomFor(all[k - 1], all[k][0], max, count);
    }
  }

  lemma PackOwn(batches: seq<seq<Unit>>, current: seq<Unit>, closed: seq<seq<Unit>>, u: Unit, max: nat, count: Counter)
    requires Packing(batches, current, max, count) && count(u.1) >= max
    requires closed == if current == [] then batches else batches + [current]
    ensures Packing(closed + [[u]], [], max, count)
  {
    hide Total, Greedy;
    LastIsSome(batches, current, u, max, count);
    GreedySnoc(closed, [u], max, count);
  }

  lemma PackNext(batches: seq<seq<Unit>>, current: seq<Unit>, u: Unit, max: nat, count: Counter)
    requires Packing(batches, current, max, count) && count(u.1) < max && current != [] && Total(current, count) + count(u.1) > max
    ensures Packing(batches + [current], [u], max, count)
  {
    hide Total, Greedy;
    LastIsSome(batches, current, u, max, count);
    GreedySnoc(batches + [current], [u], max, count);
  }

  lemma PackPut(batches: seq<seq<Unit>>, current: seq<Unit>, u: Unit, max: nat, count: Counter)
    requires Packing(batches, current, max, count) && count(u.1) < max
    ensures Packing(batches, current + [u], max, count)
  {
    hide Total, Greedy;
    if current == [] {
      assert batches != [] ==> NoRoomFor(batches[|batches| - 1], u, max, count);
    } else {
      GreedyFront(batches, current, max, count);
    }
    GreedySnoc(batches, current + [u], max, count);
  }

  lemma LastIsSome(batches: seq<seq<Unit>>, current: seq<Unit>, u: Unit, max: nat, count: Counter)
    requires Packing(batches, current, max, count)
    requires count(u.1) >= max || (current != [] && Total(current, count) + count(u.1) > max)
    ensures var closed := if current == [] then batches else batches + [current];
            closed != [] ==> NoRoomFor(closed[|closed| - 1], u, max, count)
  {
    hide Total, Greedy;
  }

  lemma PackedOpen(batches: seq<seq<Unit>>, current: seq<Unit>, max: nat, count: Counter)
    requires Packing(batches, current, max, count) && current != []
    ensures Greedy(batches + [current], max, count)
  {
    hide Greedy;
  }

  lemma PackedShut(batches: seq<seq<Unit>>, max: nat, count: Counter)
    requires Packing(batches, [], max, count)
    ensures Greedy(batches, max, count)
  {
    hide Greedy;
  }

  lemma NothingBatched(units: seq<Unit>, max: nat, count: Counter)
    ensures Packed(units, 0, [], [], 0, max, count)
  {
    assert units[..0] == [];
  }

  lemma Filled(units: seq<Unit>, batches: seq<seq<Unit>>, tokens: nat, max: nat, count: Counter)
    requires Filling(units, batches, [], tokens, max, count)
    ensures Flatten(batches) == units && Bounded(batches, max, count) && Dense(batches, max, count)
  {
    hide Bounded, Dense, Total;
    assert Flatten(batches) + [] == Flatten(batches);
  }

  lemma FillingIs(units: seq<Unit>, batches: seq<seq<Unit>>, current: seq<Unit>, tokens: nat, max: nat, count: Counter)
    requires Filling(units, batches, current, tokens, max, count)
    ensures tokens == Total(current, count)
  {
  }

  /** Everything known after the first `i` units. */
  ghost predicate Packed(units: seq<Unit>, i: nat, batches: seq<seq<Unit>>, current: seq<Unit>, tokens: nat, max: nat, count: Counter)
    requires i <= |units|
  {
    Filling(units[..i], batches, current, tokens, max, count) && Packing(batches, current, max, count)
  }

  lemma BatchingOwn(units: seq<Unit>, i: nat, batches: seq<seq<Unit>>, current: seq<Unit>, tokens: nat, closed: seq<seq<Unit>>,
                    max: nat, count: Counter)
    requires i < |units| && Packed(units, i, batches, current, tokens, max, count)
    requires count(units[i].1) >= max && closed == if current == [] then batches else batches + [current]
    ensures Packed(units, i + 1, closed + [[units[i]]], [], 0, max, count)
  {
    hide Filling, Packing;
    OwnBatch(units[..i], batches, current, tokens, closed, units[i], max, count);
    PackOwn(batches, current, closed, units[i], max, count);
    TakeNext(units, i);
  }

  lemma BatchingNext(units: seq<Unit>, i: nat, batches: seq<seq<Unit>>, current: seq<Unit>, tokens: nat, max: nat, count: Counter)
    requires i < |units| && Packed(units, i, batches, current, tokens, max, count)
    requires count(units[i].1) < max && current != [] && tokens + count(units[i].1) > max
    ensures Packed(units, i + 1, batches + [current], [units[i]], count(units[i].1), max, count)
  {
    hide Filling, Packing;
    FillingIs(units[..i], batches, current, tokens, max, count);
    NextBatch(units[..i], batches, current, tokens, units[i], max, count);
    PackNext(batches, current, units[i], max, count);
    TakeNext(units, i);
  }

  lemma BatchingOn(units: seq<Unit>, i: nat, batches: seq<seq<Unit>>, current: seq<Unit>, tokens: nat, max: nat, count: Counter)
    requires i < |units| && Packed(units, i, batches, current, tokens, max, count)
    requires count(units[i].1) < max && (current == [] || tokens + count(units[i].1) <= max)
    ensures Packed(units, i + 1, batches, current + [units[i]], tokens + count(units[i].1), max, count)
  {
    hide Filling, Packing;
    PutUnit(units[..i], batches, current, tokens, units[i], max, count);
    PackPut(batches, current, units[i], max, count);
    TakeNext(units, i);
  }

  lemma BatchingEnds(units: seq<Unit>, batches: seq<seq<Unit>>, current: seq<Unit>, tokens: nat, all: seq<seq<Unit>>, max: nat, count: Counter)
    requires Packed(units, |units|, batches, current, tokens, max, count)
    requires all == if current == [] then batches else batches + [current]
    ensures Flatten(all) == units && Bounded(all, max, count) && Dense(all, max, count) && Greedy(all, max, count)
  {
    hide Filling, Packing;
    assert units[..|units|] == units;
    if current == [] {
      Filled(units, batches, tokens, max, count);
      PackedShut(batches, max, count);
    } else {
      CloseBatch(units, batches, current, tokens, max, count);
      PackedOpen(batches, current, max, count);
    }
  }

  method BatchUnits(units: seq<Unit>, max: nat, count: Counter) returns (batches: seq<seq<Unit>>)
    ensures Flatten(batches) == units
    ensures Bounded(batches, max, count) && Dense(batches, max, count) && Greedy(batches, max, count)
  {
    batches := [];
    var current: seq<Unit>, tokens: nat := [], 0;
    NothingBatched(units, max, count);
    hide *;
    for i := 0 to |units|
      invariant Packed(units, i, batches, current, tokens, max, count)
    {
      var u := units[i];
      var cost := count(u.1);
      ghost var was := batches;
      if cost >= max {
        if current != [] {
          batches := batches + [current];
        }
        BatchingOwn(units, i, was, current, tokens, batches, max, count);
        batches := batches + [[u]];
        current, tokens := [], 0;
      } else if tokens + cost > max && current != [] {
        BatchingNext(units, i, batches, current, tokens, max, count);
        batches := batches + [current];
        current, tokens := [u], cost;
      } else {
        BatchingOn(units, i, batches, current, tokens, max, count);
        current, tokens := current + [u], tokens + cost;
      }
    }
    ghost var was := batches;
    if current != [] {
      batches := batches + [current];
    }
    BatchingEnds(units, was, current, tokens, batches, max, count);
  }

  lemma {:induction false} PairsFill(batches: seq<seq<Unit>>, max: nat, count: Counter)
    requires Dense(batches, max, count)
    ensures |batches| / 2 * max <= Total(Flatten(batches), count)
    decreases |batches|
  {
    if |batches| >= 2 {
      var rest := batches[2..];
      assert Dense(rest, max, count);
      PairsFill(rest, max, count);
      assert batches[1..][1..] == rest;
      assert Flatten(batches) == batches[0] + (batches[1] + Flatten(rest));
      TotalConcat(batches[0], batches[1] + Flatten(rest), count);
      TotalConcat(batches[1], Flatten(rest), count);
      assert Total(batches[0], count) + Total(batches[1], count) >= max;
      assert |batches| / 2 == |rest| / 2 + 1;
      assert (|rest| / 2 + 1) * max == |rest| / 2 * max + max;
    }
  }

  lemma ProductMonotone(a: nat, b: nat, c: nat)
    requires a <= b
    ensures a * c <= b * c
  {
  }

  lemma {:induction false} QuotientBound(k: nat, max: nat, total: nat)
    requires max > 0 && k * max <= total
    ensures k <= total / max
  {
    var q := total / max;
    assert total < (q + 1) * max;
    if q < k {
      ProductMonotone(q + 1, k, max);
    }
  }

  /** Total work bounds the number of batches, whatever the sizes of the units. */
  lemma {:induction false} BatchCountBound(batches: seq<seq<Unit>>, max: nat, count: Counter)
    requires max > 0 && Dense(batches, max, count)
    ensures |batches| <= 2 * (Total(Flatten(batches), count) / max) + 1
  {
    PairsFill(batches, max, count);
    QuotientBound(|batches| / 2, max, Total(Flatten(batches), count));
  }

  // ---------------------------------------------------------------------
  // The recursive walk
  // ---------------------------------------------------------------------

  /**
    The unit fits, or there is nothing smaller to cut it into: it has no body to
    cut, its body is one line, or rewriting its header alone made it fit.
   */
  ghost predicate Respects(unit: seq<Line>, max: nat, count: Counter) {
    || count(unit) <= max
    || !Sliceable(unit)
    || |UnitHunk(unit).body| == 1
    || count(UnitHead(unit) + HunkLines(Slice(UnitHunk(unit), 0, |UnitHunk(unit).body|))) <= max
  }

  lemma PieceRespects(pre: seq<Line>, h: Hunk, piece: seq<Line>, max: nat, count: Counter)
    requires Unheaded(pre, IsAt) && piece == pre + HunkLines(h)
    requires count(piece) <= max || |h.body| == 1
    ensures Respects(piece, max, count)
  {
    BeforeUnique(pre, HunkLines(h), IsAt);
    assert piece[|pre| + 1..] == h.body;
  }

  lemma {:induction false} AllCleanConcat(a: seq<Unit>, b: seq<Unit>)
    requires AllClean(a) && AllClean(b)
    ensures AllClean(a + b)
  {
  }

  /** One over-budget hunk unit: left whole when it fits, otherwise cut inside. */
  method CutUnit(ghost path: string, hunk: seq<Line>, max: nat, count: Counter) returns (pieces: seq<seq<Line>>)
    ensures CleanPatch(path, hunk) && (Sliceable(hunk) ==> |HunksOf(hunk)| == 1) ==> Lossless(path, hunk, pieces)
    ensures forall i :: 0 <= i < |pieces| ==> Respects(pieces[i], max, count)
  {
    if count(hunk) < max {
      if CleanPatch(path, hunk) {
        WholeIsLossless(path, hunk);
      }
      return [hunk];
    }
    var cuts;
    pieces, cuts := SplitHunkByBudget(hunk, max, count);
    if |pieces| < 2 {
      assert pieces == [hunk];
      if CleanPatch(path, hunk) {
        WholeIsLossless(path, hunk);
      }
      return;
    }
    var h := UnitHunk(hunk);
    forall i | 0 <= i < |pieces|
      ensures Respects(pieces[i], max, count)
    {
      CutsBound(cuts, |h.body|, i + 1);
      PieceRespects(UnitHead(hunk), Slice(h, cuts[i], cuts[i + 1]), pieces[i], max, count);
    }
    if CleanPatch(path, hunk) && |HunksOf(hunk)| == 1 {
      SlicingIsLossless(path, hunk, pieces, cuts, max, count);
    }
  }

  lemma AppendPieces(path: string, units: seq<Unit>, hunks: seq<seq<Line>>, i: nat, pieces: seq<seq<Line>>)
    requires i < |hunks| && Lossless(path, hunks[i], pieces)
    requires AllClean(units) && UnitsChanges(units) == UnitsChanges(UnitsFor(path, hunks[..i]))
    ensures AllClean(units + UnitsFor(path, pieces))
    ensures UnitsChanges(units + UnitsFor(path, pieces)) == UnitsChanges(UnitsFor(path, hunks[..i + 1]))
  {
    AllCleanConcat(units, UnitsFor(path, pieces));
    UnitsChangesConcat(units, UnitsFor(path, pieces));
    assert hunks[..i + 1] == hunks[..i] + [hunks[i]];
    UnitsForConcat(path, hunks[..i], [hunks[i]]);
    assert UnitsFor(path, [hunks[i]]) == [(path, hunks[i])];
    UnitsChangesSnoc(UnitsFor(path, hunks[..i]), (path, hunks[i]));
  }

  /** Each unit of a clean patch cut at its hunks is clean, and has one hunk if it has a body to slice. */
  lemma {:induction false} UnitsOfCleanPatch(path: string, patch: seq<Line>, hunks: seq<seq<Line>>)
    requires CleanPatch(path, patch)
    requires Before(patch, IsAt) == patch ==> hunks == [patch]
    requires Before(patch, IsAt) != patch ==>
               hunks == Prefixed(Before(patch, IsAt), Parts(patch[|Before(patch, IsAt)|..], IsAt))
    ensures UnitsChanges(UnitsFor(path, hunks)) == Changes(patch)
    ensures forall i :: 0 <= i < |hunks| ==>
              CleanPatch(path, hunks[i]) && (Sliceable(hunks[i]) ==> |HunksOf(hunks[i])| == 1)
  {
    HunkSplitIsLossless(path, patch, hunks);
    CleanPieces(path, patch);
    var us := UnitsFor(path, hunks);
    forall i | 0 <= i < |hunks|
      ensures CleanPatch(path, hunks[i]) && (Sliceable(hunks[i]) ==> |HunksOf(hunks[i])| == 1)
    {
      assert CleanPatch(us[i].0, us[i].1);
      assert HunksOf(patch) == [] ==> !Sliceable(patch);
    }
  }

  /** One over-budget file: its hunks, and inside every hunk that is still too big. */
  method CutFile(path: string, patch: seq<Line>, max: nat, count: Counter) returns (units: seq<Unit>)
    ensures CleanPatch(path, patch) ==> AllClean(units) && UnitsChanges(units) == Changes(patch)
    ensures forall i :: 0 <= i < |units| ==> units[i].0 == path && Respects(units[i].1, max, count)
  {
    var hunks := SplitPatchIntoHunks(patch);
    ghost var clean := CleanPatch(path, patch);
    if clean {
      UnitsOfCleanPatch(path, patch, hunks);
    }
    units := [];
    for i := 0 to |hunks|
      invariant clean ==> AllClean(units) && UnitsChanges(units) == UnitsChanges(UnitsFor(path, hunks[..i]))
      invariant forall k :: 0 <= k < |units| ==> units[k].0 == path && Respects(units[k].1, max, count)
    {
      var pieces := CutUnit(path, hunks[i], max, count);
      if clean {
        AppendPieces(path, units, hunks, i, pieces);
      }
      units := units + UnitsFor(path, pieces);
    }
    assert hunks[..|hunks|] == hunks;
  }

  lemma {:induction false} AppendFile(files: seq<Unit>, i: nat, units: seq<Unit>, more: seq<Unit>)
    requires i < |files| && AllClean(units) && UnitsChanges(units) == UnitsChanges(files[..i])
    requires AllClean(more) && UnitsChanges(more) == Changes(files[i].1)
    ensures AllClean(units + more) && UnitsChanges(units + more) == UnitsChanges(files[..i + 1])
  {
    AllCleanConcat(units, more);
    UnitsChangesConcat(units, more);
    UnitsChangesSnoc(files[..i], files[i]);
    TakeNext(files, i);
  }

  method CutFiles(files: seq<Unit>, max: nat, count: Counter) returns (units: seq<Unit>)
    ensures forall u :: u in files && count(u.1) < max ==> u in units
    ensures AllClean(files) ==> AllClean(units) && UnitsChanges(units) == UnitsChanges(files)
    ensures forall i :: 0 <= i < |units| ==> Respects(units[i].1, max, count)
  {
    units := [];
    for i := 0 to |files|
      invariant AllClean(files) ==> AllClean(units) && UnitsChanges(units) == UnitsChanges(files[..i])
      invariant forall k :: 0 <= k < i && count(files[k].1) < max ==> files[k] in units
      invariant forall k :: 0 <= k < |units| ==> Respects(units[k].1, max, count)
    {
      var path, patch := files[i].0, files[i].1;
      var more := [(path, patch)];
      if count(patch) >= max {
        more := CutFile(path, patch, max, count);
      }
      if AllClean(files) {
        assert CleanPatch(files[i].0, files[i].1);
        assert count(patch) < max ==> UnitsChanges(more) == Changes(patch) + UnitsChanges(more[1..]);
        AppendFile(files, i, units, more);
      }
      units := units + more;
    }
    assert files[..|files|] == files;
  }

  /** The batches are the files in order, or their pieces where a file that overruns the budget may be cut. */
  ghost predicate Batched(files: seq<Unit>, batches: seq<seq<Unit>>, max: nat, recursive: bool, count: Counter) {
    && (!recursive ==> Flatten(batches) == files)
    && (recursive ==> forall u :: u in Flatten(batches) ==> Respects(u.1, max, count))
    && (recursive ==> forall u :: u in files && count(u.1) < max ==> u in Flatten(batches))
    && Bounded(batches, max, count) && Dense(batches, max, count) && Greedy(batches, max, count)
  }

  /**
    `batch_files`. Batching is lossless with or without the recursive walk, and
    with it no unit overruns the budget that could still have been cut smaller.
   */
  method BatchFiles(files: seq<Unit>, max: nat, recursive: bool, count: Counter) returns (batches: seq<seq<Unit>>)
    ensures !recursive ==> Flatten(batches) == files
    ensures AllClean(files) ==>
              AllClean(Flatten(batches)) && UnitsChanges(Flatten(batches)) == UnitsChanges(files)
    ensures recursive ==> forall i :: 0 <= i < |Flatten(batches)| ==> Respects(Flatten(batches)[i].1, max, count)
    ensures Bounded(batches, max, count) && Dense(batches, max, count)
    ensures max > 0 ==> |batches| <= 2 * (Total(Flatten(batches), count) / max) + 1
    ensures Batched(files, batches, max, recursive, count)
  {
    hide Total, Respects;
    var units := files;
    if recursive {
      units := CutFiles(files, max, count);
    }
    batches := BatchUnits(units, max, count);
    if max > 0 {
      BatchCountBound(batches, max, count);
    }
  }
}
