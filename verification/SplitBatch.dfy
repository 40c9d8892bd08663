/** Splitting an oversized batch into smaller review units (`_split_batch` in `engine/engine.py`). */
module SplitBatch {
  import opened Wrappers
  import opened DiffParse
  import opened Patches
  import opened Cuts
  import opened Compress

  /** How many pieces a batch can be split into at most. */
  function Width(batch: seq<Unit>): nat {
    if |batch| == 1 && |batch[0].1| > 2 then |batch[0].1| else 2
  }

  /** The pieces cover the batch: clean patches that together change exactly what it changes. */
  ghost predicate CoversBatch(pieces: seq<seq<Unit>>, batch: seq<Unit>) {
    AllClean(Flatten(pieces)) && UnitsChanges(Flatten(pieces)) == UnitsChanges(batch)
  }

  lemma TwoPieces(a: seq<Unit>, b: seq<Unit>)
    ensures Flatten([a, b]) == a + b
  {
    assert [a, b][1..] == [b];
    assert Flatten([b]) == b + Flatten<Unit>([]);
  }

  function Singletons(units: seq<Unit>): (r: seq<seq<Unit>>)
    ensures |r| == |units| && forall i :: 0 <= i < |r| ==> r[i] == [units[i]]
  {
    if units == [] then [] else [[units[0]]] + Singletons(units[1..])
  }

  lemma {:induction false} FlattenSingletons(units: seq<Unit>)
    ensures Flatten(Singletons(units)) == units
  {
    if units != [] {
      FlattenSingletons(units[1..]);
    }
  }

  lemma {:induction false} CutsAreFew(cuts: seq<nat>, i: nat)
    requires i < |cuts| && forall a, b :: 0 <= a < b < |cuts| ==> cuts[a] < cuts[b]
    ensures cuts[i] >= i
  {
    if i > 0 {
      CutsAreFew(cuts, i - 1);
    }
  }

  lemma HalvesCover(path: string, patch: seq<Line>, hunks: seq<seq<Line>>, middle: nat)
    requires middle <= |hunks| && Lossless(path, patch, hunks)
    ensures CoversBatch([UnitsFor(path, hunks[..middle]), UnitsFor(path, hunks[middle..])], [(path, patch)])
  {
    hide Lossless, AllClean;
    TwoPieces(UnitsFor(path, hunks[..middle]), UnitsFor(path, hunks[middle..]));
    assert hunks[..middle] + hunks[middle..] == hunks;
    UnitsForConcat(path, hunks[..middle], hunks[middle..]);
    LosslessCovers(path, patch, hunks);
  }

  lemma LosslessCovers(path: string, patch: seq<Line>, pieces: seq<seq<Line>>)
    requires Lossless(path, patch, pieces)
    ensures AllClean(UnitsFor(path, pieces)) && UnitsChanges(UnitsFor(path, pieces)) == UnitsChanges([(path, patch)])
  {
    hide AllClean;
    assert UnitsChanges([(path, patch)]) == Changes(patch) + UnitsChanges([]);
  }

  lemma {:induction false} CleanHunks(path: string, patch: seq<Line>, hunks: seq<seq<Line>>)
    requires CleanPatch(path, patch)
    requires Before(patch, IsAt) == patch ==> hunks == [patch]
    requires Before(patch, IsAt) != patch ==>
               hunks == Prefixed(Before(patch, IsAt), Parts(patch[|Before(patch, IsAt)|..], IsAt))
    ensures Lossless(path, patch, hunks)
    ensures |hunks| == 1 ==> CleanPatch(path, hunks[0]) && Changes(hunks[0]) == Changes(patch)
                             && (Sliceable(hunks[0]) ==> |HunksOf(hunks[0])| == 1)
  {
    hide CleanPatch, Sliceable, HunksOf, Parts, Before, Prefixed;
    HunkSplitIsLossless(path, patch, hunks);
    if |hunks| == 1 {
      OneUnit(path, patch, hunks);
      CleanOneHunk(path, patch, hunks);
    }
  }

  lemma CleanOneHunk(path: string, patch: seq<Line>, hunks: seq<seq<Line>>)
    requires CleanPatch(path, patch) && |hunks| == 1
    requires HunksOf(patch) != [] ==> |HunksOf(hunks[0])| == 1
    requires Before(patch, IsAt) == patch ==> hunks == [patch]
    ensures Sliceable(hunks[0]) ==> |HunksOf(hunks[0])| == 1
  {
    CleanPieces(path, patch);
  }

  lemma OneUnit(path: string, patch: seq<Line>, hunks: seq<seq<Line>>)
    requires |hunks| == 1 && Lossless(path, patch, hunks)
    ensures CleanPatch(path, hunks[0]) && Changes(hunks[0]) == Changes(patch)
  {
    hide CleanPatch;
    var units := UnitsFor(path, hunks);
    assert units == [(path, hunks[0])];
    assert CleanPatch(units[0].0, units[0].1);
    assert UnitsChanges(units) == Changes(hunks[0]) + UnitsChanges([]);
  }

  /** A patch's hunks, each behind the lines before the first; a patch without one is its own. */
  function HunkUnits(patch: seq<Line>): seq<seq<Line>> {
    var header := Before(patch, IsAt);
    if header == patch then [patch] else Prefixed(header, Parts(patch[|header|..], IsAt))
  }

  /** A lone hunk cut inside, at half its size. */
  function HalfSlices(path: string, hunk: seq<Line>, count: Counter): seq<seq<Unit>> {
    var half := count(hunk) / 2;
    var slices := SlicesOf(hunk, if half < 1 then 1 else half, count);
    if |slices| < 2 then [] else Singletons(UnitsFor(path, slices))
  }

  /** What a batch is split into: halves of its files, or of a lone file's hunks, or the slices of a lone hunk; none if nothing is smaller. */
  function PiecesOf(batch: seq<Unit>, sliceHunks: bool, count: Counter): seq<seq<Unit>> {
    if |batch| > 1 then [batch[..|batch| / 2], batch[|batch| / 2..]]
    else if batch == [] then []
    else
      var path, hunks := batch[0].0, HunkUnits(batch[0].1);
      if |hunks| >= 2 then [UnitsFor(path, hunks[..|hunks| / 2]), UnitsFor(path, hunks[|hunks| / 2..])]
      else if !sliceHunks || hunks == [] then []
      else HalfSlices(path, hunks[0], count)
  }

  /** The header counts the lines of the body. */
  predicate CountsItself(h: Hunk) {
    h.header.oldLen == OldLen(h.body) && h.header.newLen == NewLen(h.body)
  }

  /** The slice that takes everything is the unit itself. */
  lemma WholeSlice(unit: seq<Line>)
    requires Sliceable(unit) && CountsItself(UnitHunk(unit))
    ensures var h := UnitHunk(unit); UnitHead(unit) + HunkLines(Slice(h, 0, |h.body|)) == unit
  {
    var h := UnitHunk(unit);
    assert h.body[..0] == [] && h.body[0..|h.body|] == h.body;
    assert Slice(h, 0, |h.body|) == h;
    assert unit == UnitHead(unit) + [unit[|UnitHead(unit)|]] + h.body;
  }

  /** The one hunk of a batch cut inside, at half its size; each slice is a piece. */
  method SliceAlone(path: string, hunk: seq<Line>, count: Counter) returns (pieces: seq<seq<Unit>>)
    ensures pieces == HalfSlices(path, hunk, count)
    ensures pieces == [] || |pieces| >= 2
    ensures |pieces| <= |hunk|
    ensures CleanPatch(path, hunk) && (Sliceable(hunk) ==> |HunksOf(hunk)| == 1) && pieces != [] ==>
              CoversBatch(pieces, [(path, hunk)])
    ensures pieces == [] && Sliceable(hunk) && |UnitHunk(hunk).body| > 1 && CountsItself(UnitHunk(hunk)) ==>
              count(hunk) <= 1
  {
    var half := count(hunk) / 2;
    var slices, cuts := SplitHunkByBudget(hunk, if half < 1 then 1 else half, count);
    if |slices| < 2 {
      if Sliceable(hunk) && CountsItself(UnitHunk(hunk)) {
        WholeSlice(hunk);
      }
      return [];
    }
    CutsAreFew(cuts, |cuts| - 1);
    pieces := Singletons(UnitsFor(path, slices));
    FlattenSingletons(UnitsFor(path, slices));
    if CleanPatch(path, hunk) && |HunksOf(hunk)| == 1 {
      SlicingIsLossless(path, hunk, slices, cuts, if half < 1 then 1 else half, count);
      LosslessCovers(path, hunk, slices);
    }
  }

  /** A hunk of two lines or more that costs more than one token. */
  predicate TooLong(hunk: seq<Line>, count: Counter) {
    Sliceable(hunk) && |UnitHunk(hunk).body| > 1 && CountsItself(UnitHunk(hunk)) && count(hunk) > 1
  }

  lemma TooLongIs(hunk: seq<Line>, count: Counter)
    ensures TooLong(hunk, count) <==> Sliceable(hunk) && |UnitHunk(hunk).body| > 1 && CountsItself(UnitHunk(hunk)) && count(hunk) > 1
  {
    hide Sliceable, CountsItself;
  }

  /**
    Fewer than two pieces means there is nothing smaller to try. Otherwise the
    pieces cover the batch; a lone hunk is cut inside only when `sliceHunks` asks for it.
   */
  method SplitBatch(batch: seq<Unit>, sliceHunks: bool, count: Counter) returns (pieces: seq<seq<Unit>>)
    ensures pieces == PiecesOf(batch, sliceHunks, count)
    ensures pieces == [] || 2 <= |pieces| <= Width(batch)
    ensures |batch| > 1 ==> pieces == [batch[..|batch| / 2], batch[|batch| / 2..]]
    ensures |pieces| > 2 ==> sliceHunks && |batch| == 1
    ensures AllClean(batch) && pieces != [] ==> CoversBatch(pieces, batch)
    ensures |batch| == 1 && |HunkUnits(batch[0].1)| >= 2 ==>
              var units := UnitsFor(batch[0].0, HunkUnits(batch[0].1));
              |pieces| == 2 && |pieces[0]| == |units| / 2 && pieces[0] + pieces[1] == units
    ensures sliceHunks && |batch| == 1 && |HunkUnits(batch[0].1)| == 1 && TooLong(HunkUnits(batch[0].1)[0], count) ==> |pieces| >= 2
  {
    hide CleanPatch, Sliceable, HunksOf, Parts, Before, Prefixed, Lossless, CoversBatch, HalfSlices, HunkUnits, UnitsFor, TooLong, CountsItself;
    if |batch| > 1 {
      var middle := |batch| / 2;
      if AllClean(batch) {
        FilesHalved(batch, middle);
      }
      return [batch[..middle], batch[middle..]];
    }
    if batch == [] {
      return [];
    }
    hide PiecesOf;
    LonePieces(batch, sliceHunks, count);
    var path, patch := batch[0].0, batch[0].1;
    assert batch == [(path, patch)];
    var hunks := SplitPatchIntoHunks(patch);
    HunkUnitsAre(patch, hunks);
    if AllClean(batch) {
      assert CleanPatch(batch[0].0, batch[0].1);
      CleanHunks(path, patch, hunks);
    }
    HunksFit(patch, hunks);
    if |hunks| < 2 {
      if hunks != [] {
        TooLongIs(hunks[0], count);
      }
      if !sliceHunks || hunks == [] {
        return [];
      }
      pieces := SliceAlone(path, hunks[0], count);
      if AllClean(batch) && pieces != [] {
        SameCover(pieces, path, hunks[0], patch);
      }
      return;
    }
    var middle := |hunks| / 2;
    pieces := [UnitsFor(path, hunks[..middle]), UnitsFor(path, hunks[middle..])];
    assert hunks == hunks[..middle] + hunks[middle..];
    UnitsForConcat(path, hunks[..middle], hunks[middle..]);
    UnitsForMany(path, hunks[..middle]);
    UnitsForMany(path, hunks);
    if AllClean(batch) {
      HalvesCover(path, patch, hunks, middle);
    }
  }

  lemma UnitsForMany(path: string, hunks: seq<seq<Line>>)
    ensures |UnitsFor(path, hunks)| == |hunks|
  {
  }

  lemma FilesHalved(batch: seq<Unit>, middle: nat)
    requires middle <= |batch| && AllClean(batch)
    ensures CoversBatch([batch[..middle], batch[middle..]], batch)
  {
    hide CleanPatch, UnitsChanges;
    TwoPieces(batch[..middle], batch[middle..]);
    assert batch[..middle] + batch[middle..] == batch;
  }

  lemma HunkUnitsAre(patch: seq<Line>, hunks: seq<seq<Line>>)
    requires Before(patch, IsAt) == patch ==> hunks == [patch]
    requires Before(patch, IsAt) != patch ==>
               hunks == Prefixed(Before(patch, IsAt), Parts(patch[|Before(patch, IsAt)|..], IsAt))
    ensures hunks == HunkUnits(patch)
  {
  }

  lemma LonePieces(batch: seq<Unit>, sliceHunks: bool, count: Counter)
    requires |batch| == 1
    ensures var path, hunks := batch[0].0, HunkUnits(batch[0].1);
            PiecesOf(batch, sliceHunks, count)
            == if |hunks| >= 2 then [UnitsFor(path, hunks[..|hunks| / 2]), UnitsFor(path, hunks[|hunks| / 2..])]
               else if !sliceHunks || hunks == [] then []
               else HalfSlices(path, hunks[0], count)
  {
    hide HunkUnits, HalfSlices;
  }

  /** A patch cut into one piece is that piece, line for line. */
  lemma HunksFit(patch: seq<Line>, hunks: seq<seq<Line>>)
    requires Before(patch, IsAt) == patch ==> hunks == [patch]
    requires Before(patch, IsAt) != patch ==>
               hunks == Prefixed(Before(patch, IsAt), Parts(patch[|Before(patch, IsAt)|..], IsAt))
    ensures |hunks| == 1 ==> |hunks[0]| <= |patch|
  {
    var header := Before(patch, IsAt);
    if header != patch {
      var rest := patch[|header|..];
      assert Parts(rest, IsAt)[0] == [rest[0]] + Before(rest[1..], IsAt);
    }
  }

  lemma SameCover(pieces: seq<seq<Unit>>, path: string, hunk: seq<Line>, patch: seq<Line>)
    requires CoversBatch(pieces, [(path, hunk)]) && Changes(hunk) == Changes(patch)
    ensures CoversBatch(pieces, [(path, patch)])
  {
    assert UnitsChanges([(path, patch)]) == Changes(patch) + UnitsChanges([]);
    assert UnitsChanges([(path, hunk)]) == Changes(hunk) + UnitsChanges([]);
  }
}
