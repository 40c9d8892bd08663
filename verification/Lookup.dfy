/**
  The lookups over a multi-file diff: how many lines changed, which patch a
  path has, which hunk covers a line (`core/diffparse.py`), and which lines a
  comment can attach to (`core/diff.py`).
 */
module Lookup {
  import opened Wrappers
  import opened DiffParse
  import opened Patches
  import opened Cuts

  // ---------------------------------------------------------------------
  // changed_line_count
  // ---------------------------------------------------------------------

  lemma ChangedSnoc(s: State, a: seq<Line>, l: Line)
    ensures Run(s, a + [l]) == Step(Run(s, a), l)
    ensures |Changed(s, a + [l])|
         == |Changed(s, a)| + (if IsContent(Run(s, a), l) && (MarkOf(l) == Plus || MarkOf(l) == Minus) then 1 else 0)
  {
    WalkSnoc(s, a, l);
    var e := Emit(Run(s, a), l);
    ChangesOfConcat(Walk(s, a), e);
    if e != [] {
      assert e == [e[0]];
      assert ChangesOf(e) == ChangeOf(e[0]) + ChangesOf([]);
    }
  }

  /** The line stands under a hunk header, with no file header between. */
  predicate UnderHead(diff: seq<Line>, i: nat)
    requires i < |diff|
  {
    exists h :: 0 <= h < i && diff[h].HunkHead? && forall k :: h < k < i ==> !diff[k].FileHeader?
  }

  /** The line starts with `+` or `-` where the count looks for changes. */
  predicate CountedLine(diff: seq<Line>, i: nat)
    requires i < |diff|
  {
    UnderHead(diff, i) && (MarkOf(diff[i]) == Plus || MarkOf(diff[i]) == Minus)
  }

  /** The walk has an open hunk at the line, of a file it knows. */
  predicate Open(diff: seq<Line>, i: nat)
    requires i < |diff|
  {
    var s := Run(INIT, diff[..i]);
    s.file.Some? && s.inHunk
  }

  /** How many of the first `n` lines the count takes for a change where the walk has no open hunk. */
  function Surplus(diff: seq<Line>, n: nat): nat
    requires n <= |diff|
  {
    if n == 0 then 0 else Surplus(diff, n - 1) + if CountedLine(diff, n - 1) && !Open(diff, n - 1) then 1 else 0
  }

  lemma {:induction false} NoSurplus(diff: seq<Line>, n: nat)
    requires n <= |diff|
    ensures Surplus(diff, n) == 0 <==> forall i :: 0 <= i < n && CountedLine(diff, i) ==> Open(diff, i)
  {
    hide CountedLine, Open;
    if n > 0 {
      NoSurplus(diff, n - 1);
    }
  }

  /** An open hunk of the walk is under a hunk header. */
  lemma {:induction false} OpenIsUnderHead(diff: seq<Line>, i: nat)
    requires i < |diff|
    ensures Run(INIT, diff[..i]).inHunk ==> Open(diff, i) && UnderHead(diff, i)
  {
    if i > 0 {
      OpenIsUnderHead(diff, i - 1);
      TakeNext(diff, i - 1);
      WalkSnoc(INIT, diff[..i - 1], diff[i - 1]);
      UnderHeadNext(diff, i - 1);
    }
  }

  lemma UnderHeadNext(diff: seq<Line>, i: nat)
    requires i + 1 < |diff|
    ensures UnderHead(diff, i + 1) <==> diff[i].HunkHead? || (!diff[i].FileHeader? && UnderHead(diff, i))
  {
    if diff[i].HunkHead? {
      assert UnderHead(diff, i + 1);
    } else if UnderHead(diff, i) && !diff[i].FileHeader? {
      var h :| 0 <= h < i && diff[h].HunkHead? && forall k :: h < k < i ==> !diff[k].FileHeader?;
      assert forall k :: h < k < i + 1 ==> !diff[k].FileHeader?;
    }
  }

  /** One line of the count against one line of the walk. */
  lemma CountStep(diff: seq<Line>, i: nat)
    requires i < |diff|
    ensures |Changes(diff[..i + 1])| + Surplus(diff, i + 1)
         == |Changes(diff[..i])| + Surplus(diff, i) + (if CountedLine(diff, i) then 1 else 0)
  {
    hide UnderHead, Run, Walk, ChangesOf;
    TakeNext(diff, i);
    ChangedSnoc(INIT, diff[..i], diff[i]);
    OpenIsUnderHead(diff, i);
  }

  /** The count is the number of changed lines the walk sees, and one more for each change it counts outside the walk's hunks. */
  method ChangedLineCount(diff: seq<Line>) returns (count: nat)
    ensures count == |Changes(diff)| + Surplus(diff, |diff|)
  {
    hide UnderHead, Surplus, Changed;
    count := 0;
    var inHunk := false;
    CountNone(diff);
    for i := 0 to |diff|
      invariant i < |diff| ==> (inHunk <==> UnderHead(diff, i))
      invariant count == |Changes(diff[..i])| + Surplus(diff, i)
    {
      var line := diff[i];
      CountStep(diff, i);
      if i + 1 < |diff| {
        UnderHeadNext(diff, i);
      }
      if line.HunkHead? {
        inHunk := true;
      } else if line.FileHeader? {
        inHunk := false;
      } else if inHunk && (MarkOf(line) == Plus || MarkOf(line) == Minus) {
        count := count + 1;
      }
    }
    assert diff[..|diff|] == diff;
  }

  lemma CountNone(diff: seq<Line>)
    ensures |Changes(diff[..0])| + Surplus(diff, 0) == 0
    ensures diff != [] ==> !UnderHead(diff, 0)
  {
    assert diff[..0] == [];
  }

  /**
    The count is exact if and only if the walk has an open hunk at every `+` or
    `-` line that stands under a hunk header with no file header between.
   */
  lemma CountIsExactIff(diff: seq<Line>, count: nat)
    requires count == |Changes(diff)| + Surplus(diff, |diff|)
    ensures count >= |Changes(diff)|
    ensures count == |Changes(diff)| <==> forall i :: 0 <= i < |diff| && CountedLine(diff, i) ==> Open(diff, i)
  {
    NoSurplus(diff, |diff|);
  }

  /** A file whose quoted name no header expression reads: the walk sees no change, the count sees one. */
  lemma CountOverrunsTheWalk(h: Header, text: string)
    ensures var diff := [FileHeader(None), HunkHead(h), Added(text)];
            Changes(diff) == [] && |Changes(diff)| + Surplus(diff, |diff|) == 1
  {
    var diff := [FileHeader(None), HunkHead(h), Added(text)];
    assert diff[..3] == diff;
    NamelessMeansNothing(h, text);
    assert diff[1].HunkHead? && UnderHead(diff, 2);
    hide Run, Walk, ChangesOf, Surplus, Open;
    CountNone(diff);
    CountStep(diff, 0);
    CountStep(diff, 1);
    CountStep(diff, 2);
  }

  lemma NamelessMeansNothing(h: Header, text: string)
    ensures Changes([FileHeader(None), HunkHead(h), Added(text)]) == []
  {
    var diff := [FileHeader(None), HunkHead(h), Added(text)];
    var rest := [HunkHead(h), Added(text)];
    assert diff[1..] == rest && rest[1..] == [Added(text)] && [Added(text)][1..] == [];
    assert Step(INIT, diff[0]) == INIT && Step(INIT, rest[0]) == INIT && Step(INIT, Added(text)) == INIT;
    assert Walk(INIT, diff) == [] + Walk(INIT, rest);
    assert Walk(INIT, rest) == [] + Walk(INIT, [Added(text)]);
    assert Walk(INIT, [Added(text)]) == [] + Walk(INIT, []);
  }

  // ---------------------------------------------------------------------
  // split_by_file
  // ---------------------------------------------------------------------

  function FirstNewName(ls: seq<Line>): Option<string> {
    if ls == [] then None else if ls[0].NewName? then Some(ls[0].path) else FirstNewName(ls[1..])
  }

  function FirstRename(ls: seq<Line>): Option<string> {
    if ls == [] then None else if ls[0].RenameTo? then Some(ls[0].path) else FirstRename(ls[1..])
  }

  function FirstOldName(ls: seq<Line>): Option<string> {
    if ls == [] then None else if ls[0].OldName? then Some(ls[0].path) else FirstOldName(ls[1..])
  }

  /** The path a patch is filed under: new name, rename target, old name, `diff --git` path, or its place in the list. */
  function PathOf(patch: seq<Line>, i: nat, changedFiles: seq<string>): string {
    if FirstNewName(patch).Some? then FirstNewName(patch).value
    else if FirstRename(patch).Some? then FirstRename(patch).value
    else if FirstOldName(patch).Some? then FirstOldName(patch).value
    else if patch != [] && patch[0].FileHeader? && patch[0].fallback.Some? then patch[0].fallback.value
    else if i < |changedFiles| then changedFiles[i]
    else "unknown"
  }

  /** Line `k` is the first that names the new file. */
  predicate NamesNew(patch: seq<Line>, k: nat) {
    k < |patch| && patch[k].NewName? && forall j :: 0 <= j < k ==> !patch[j].NewName?
  }

  predicate NamesRename(patch: seq<Line>, k: nat) {
    k < |patch| && patch[k].RenameTo? && forall j :: 0 <= j < k ==> !patch[j].RenameTo?
  }

  predicate NamesOld(patch: seq<Line>, k: nat) {
    k < |patch| && patch[k].OldName? && forall j :: 0 <= j < k ==> !patch[j].OldName?
  }

  lemma {:induction false} FirstNames(patch: seq<Line>)
    ensures forall k: nat :: NamesNew(patch, k) ==> FirstNewName(patch) == Some(patch[k].path)
    ensures forall k: nat :: NamesRename(patch, k) ==> FirstRename(patch) == Some(patch[k].path)
    ensures forall k: nat :: NamesOld(patch, k) ==> FirstOldName(patch) == Some(patch[k].path)
    ensures FirstNewName(patch).None? <==> forall l :: l in patch ==> !l.NewName?
    ensures FirstRename(patch).None? <==> forall l :: l in patch ==> !l.RenameTo?
    ensures FirstOldName(patch).None? <==> forall l :: l in patch ==> !l.OldName?
  {
    if patch != [] {
      var rest := patch[1..];
      FirstNames(rest);
      assert patch == [patch[0]] + rest;
      forall k: nat | NamesNew(patch, k)
        ensures FirstNewName(patch) == Some(patch[k].path)
      {
        assert k > 0 ==> NamesNew(rest, k - 1);
      }
      forall k: nat | NamesRename(patch, k)
        ensures FirstRename(patch) == Some(patch[k].path)
      {
        assert k > 0 ==> NamesRename(rest, k - 1);
      }
      forall k: nat | NamesOld(patch, k)
        ensures FirstOldName(patch) == Some(patch[k].path)
      {
        assert k > 0 ==> NamesOld(rest, k - 1);
      }
    }
  }

  /**
    A patch goes by the first name its lines give the new file; without one by the
    first it is renamed to; without one by the first of the old file; without any
    by the path of its `diff --git` line, and without that by its place.
   */
  lemma PathIs(patch: seq<Line>, i: nat, changedFiles: seq<string>, k: nat)
    ensures NamesNew(patch, k) ==> PathOf(patch, i, changedFiles) == patch[k].path
    ensures (forall l :: l in patch ==> !l.NewName?) ==>
              && (NamesRename(patch, k) ==> PathOf(patch, i, changedFiles) == patch[k].path)
              && ((forall l :: l in patch ==> !l.RenameTo?) ==> NamesOld(patch, k) ==> PathOf(patch, i, changedFiles) == patch[k].path)
    ensures (forall l :: l in patch ==> !l.NewName? && !l.RenameTo? && !l.OldName?) ==>
              && (forall p :: patch != [] && patch[0] == FileHeader(Some(p)) ==> PathOf(patch, i, changedFiles) == p)
              && (patch == [] || !patch[0].FileHeader? || patch[0].fallback.None? ==>
                    PathOf(patch, i, changedFiles) == if i < |changedFiles| then changedFiles[i] else "unknown")
  {
    FirstNames(patch);
    hide FirstNewName, FirstRename, FirstOldName;
  }

  predicate IsFileHeader(l: Line) { l.FileHeader? }

  /** The diff from its first file header on, cut at every file header. */
  function FileParts(diff: seq<Line>): seq<seq<Line>> {
    Parts(diff[|Before(diff, IsFileHeader)|..], IsFileHeader)
  }

  method NamePatches(parts: seq<seq<Line>>, changedFiles: seq<string>) returns (result: seq<Unit>)
    ensures |result| == |parts|
    ensures forall i :: 0 <= i < |parts| ==> result[i] == (PathOf(parts[i], i, changedFiles), parts[i])
  {
    result := [];
    for i := 0 to |parts|
      invariant |result| == i
      invariant forall k :: 0 <= k < i ==> result[k] == (PathOf(parts[k], k, changedFiles), parts[k])
    {
      result := result + [(PathOf(parts[i], i, changedFiles), parts[i])];
    }
  }

  method SplitByFile(diff: seq<Line>, changedFiles: seq<string>) returns (result: seq<Unit>)
    ensures Before(diff, IsFileHeader) == diff ==>
              result == [(if changedFiles != [] then changedFiles[0] else "unknown", diff)]
    ensures Before(diff, IsFileHeader) != diff ==>
              && |result| == |FileParts(diff)|
              && forall i :: 0 <= i < |result| ==>
                   result[i] == (PathOf(FileParts(diff)[i], i, changedFiles), FileParts(diff)[i])
  {
    var parts: seq<seq<Line>>, open: seq<Line> := [], [];  // the closed patches and the one being read
    for i := 0 to |diff|
      invariant Cutting(diff, IsFileHeader, i, parts, open)
    {
      if diff[i].FileHeader? {
        CutAtHead(diff, IsFileHeader, i, parts, open);
        if open != [] {
          parts := parts + [open];
        }
        open := [diff[i]];
      } else {
        CutInside(diff, IsFileHeader, i, parts, open);
        if open != [] {
          open := open + [diff[i]];
        }
      }
    }
    CutEnd(diff, IsFileHeader, parts, open);
    if open == [] {
      return [(if changedFiles != [] then changedFiles[0] else "unknown", diff)];
    }
    result := NamePatches(parts + [open], changedFiles);
  }

  // ---------------------------------------------------------------------
  // hunk_for_line
  // ---------------------------------------------------------------------

  /** The header's range on that side contains the line. */
  predicate Covers(h: Hunk, line: nat, side: Side) {
    if side == LEFT
    then h.header.oldStart <= line <= h.header.oldStart + h.header.oldLen - 1
    else h.header.newStart <= line <= h.header.newStart + h.header.newLen - 1
  }

  function FirstCovering(hs: seq<Hunk>, line: nat, side: Side): Option<Hunk> {
    if hs == [] then None
    else if Covers(hs[0], line, side) then Some(hs[0])
    else FirstCovering(hs[1..], line, side)
  }

  /** The first patch filed under the path, cut down to its first covering hunk. */
  function HunkAmong(units: seq<Unit>, path: string, line: nat, side: Side): Option<seq<Line>> {
    if units == [] then None
    else if units[0].0 != path then HunkAmong(units[1..], path, line, side)
    else
      var hit := FirstCovering(HunksOf(units[0].1), line, side);
      if hit.None? then None else Some(PreambleOf(units[0].1) + HunkLines(hit.value))
  }

  lemma {:induction false} CoveringSnoc(hs: seq<Hunk>, i: nat, line: nat, side: Side)
    requires i <= |hs|
    requires forall k :: 0 <= k < i ==> !Covers(hs[k], line, side)
    ensures FirstCovering(hs, line, side) == FirstCovering(hs[i..], line, side)
    decreases i
  {
    if i > 0 {
      CoveringSnoc(hs[1..], i - 1, line, side);
      assert hs[1..][i - 1..] == hs[i..];
    } else {
      assert hs[0..] == hs;
    }
  }

  lemma {:induction false} AmongSkips(units: seq<Unit>, i: nat, path: string, line: nat, side: Side)
    requires i <= |units|
    requires forall k :: 0 <= k < i ==> units[k].0 != path
    ensures HunkAmong(units, path, line, side) == HunkAmong(units[i..], path, line, side)
    decreases i
  {
    if i > 0 {
      AmongSkips(units[1..], i - 1, path, line, side);
      assert units[1..][i - 1..] == units[i..];
    } else {
      assert units[0..] == units;
    }
  }

  /** `hunk_for_line` over the patches of a diff. */
  method HunkForLine(units: seq<Unit>, path: string, line: nat, side: Side) returns (r: Option<seq<Line>>)
    ensures r == HunkAmong(units, path, line, side)
  {
    for u := 0 to |units|
      invariant forall k :: 0 <= k < u ==> units[k].0 != path
    {
      if units[u].0 != path {
        continue;
      }
      AmongSkips(units, u, path, line, side);
      var header, hunks := ParseHunks(units[u].1);
      for i := 0 to |hunks|
        invariant forall k :: 0 <= k < i ==> !Covers(hunks[k], line, side)
      {
        if Covers(hunks[i], line, side) {
          CoveringSnoc(hunks, i, line, side);
          return Some(header + HunkLines(hunks[i]));
        }
      }
      CoveringSnoc(hunks, |hunks|, line, side);
      return None;
    }
    AmongSkips(units, |units|, path, line, side);
    return None;
  }

  /** A hunk's changes carry its path and numbers inside its header's range. */
  lemma {:induction false} ChangesInRange(path: string, o: nat, n: nat, body: seq<Line>, c: Change)
    requires BodyOk(body) && c in Changed(At(path, o, n), body)
    ensures c.path == path
    ensures c.side == LEFT ==> o <= c.line < o + OldLen(body)
    ensures c.side == RIGHT ==> n <= c.line < n + NewLen(body)
    decreases |body|
  {
    if body != [] {
      var l := body[0];
      assert IsBody(l);
      ChangedCons(At(path, o, n), body);
      var e := Emit(At(path, o, n), l);
      assert Step(At(path, o, n), l) == At(path, o + OldCount(l), n + NewCount(l));
      if c in ChangesOf(e) {
        assert e != [] && ChangesOf(e) == ChangeOf(e[0]) + ChangesOf(e[1..]);
        assert e[1..] == [];
      } else {
        ChangesInRange(path, o + OldCount(l), n + NewCount(l), body[1..], c);
      }
    }
  }

  /** In well-formed hunks the ranges of an earlier hunk end before those of a later one start. */
  lemma {:induction false} HunksAscend(hs: seq<Hunk>, j: nat, k: nat)
    requires WellFormedHunks(hs) && j < k < |hs|
    ensures LastOld(hs[j]) < FirstOld(hs[k]) && LastNew(hs[j]) < FirstNew(hs[k])
    decreases k - j
  {
    assert Follows(hs[k - 1], hs[k]);
    if j < k - 1 {
      HunksAscend(hs, j, k - 1);
    }
  }

  lemma {:induction false} HunkHolding(path: string, hs: seq<Hunk>, c: Change) returns (k: nat)
    requires c in HunksChanges(path, hs)
    ensures k < |hs| && c in HunkChanges(path, hs[k])
  {
    if c in HunkChanges(path, hs[0]) {
      k := 0;
    } else {
      k := HunkHolding(path, hs[1..], c);
      k := k + 1;
    }
  }

  lemma {:induction false} CoveringIs(hs: seq<Hunk>, k: nat, line: nat, side: Side)
    requires k < |hs| && Covers(hs[k], line, side)
    requires forall j :: 0 <= j < k ==> !Covers(hs[j], line, side)
    ensures FirstCovering(hs, line, side) == Some(hs[k])
  {
    CoveringSnoc(hs, k, line, side);
    assert hs[k..][0] == hs[k];
  }

  /** Within one file: the range lookup finds the very hunk that holds the changed line. */
  lemma LookupInPatch(path: string, patch: seq<Line>, c: Change)
    requires CleanPatch(path, patch) && WellFormedHunks(HunksOf(patch))
    requires c in Changes(patch)
    ensures c.path == path
    ensures FirstCovering(HunksOf(patch), c.line, c.side).Some?
    ensures c in Changes(PreambleOf(patch) + HunkLines(FirstCovering(HunksOf(patch), c.line, c.side).value))
  {
    var hs := HunksOf(patch);
    CleanChanges(INIT, path, patch);
    var k := HunkHolding(path, hs, c);
    assert WellFormed(hs[k]);
    ChangesInRange(path, hs[k].header.oldStart, hs[k].header.newStart, hs[k].body, c);
    forall j | 0 <= j < k
      ensures !Covers(hs[j], c.line, c.side)
    {
      HunksAscend(hs, j, k);
      assert WellFormed(hs[j]);
    }
    CoveringIs(hs, k, c.line, c.side);
    assert BodiesOk([hs[k]]);
    assert HunksLines([hs[k]]) == HunkLines(hs[k]) by {
      assert HunksLines([hs[k]]) == HunkLines(hs[k]) + HunksLines([]);
    }
    MakeClean(path, PreambleOf(patch), [hs[k]]);
    CleanChanges(INIT, path, PreambleOf(patch) + HunksLines([hs[k]]));
    assert HunksChanges(path, [hs[k]]) == HunkChanges(path, hs[k]) + HunksChanges(path, []);
  }

  predicate DistinctPaths(units: seq<Unit>) {
    forall i, j :: 0 <= i < j < |units| ==> units[i].0 != units[j].0
  }

  ghost predicate WellFormedUnits(units: seq<Unit>) {
    AllClean(units) && forall i :: 0 <= i < |units| ==> WellFormedHunks(HunksOf(units[i].1))
  }

  /** Range lookup agrees with the walk: the hunk found for a changed line walks to that same changed line. */
  lemma {:induction false} LookupAgreesWithWalk(units: seq<Unit>, c: Change)
    requires WellFormedUnits(units) && DistinctPaths(units)
    requires c in UnitsChanges(units)
    ensures exists i :: 0 <= i < |units| && units[i].0 == c.path
    ensures HunkAmong(units, c.path, c.line, c.side).Some?
    ensures c in Changes(HunkAmong(units, c.path, c.line, c.side).value)
    decreases |units|
  {
    assert CleanPatch(units[0].0, units[0].1);
    assert WellFormedHunks(HunksOf(units[0].1));
    if c in Changes(units[0].1) {
      LookupInPatch(units[0].0, units[0].1, c);
    } else {
      var rest := units[1..];
      assert WellFormedUnits(rest);
      LookupAgreesWithWalk(rest, c);
      var i :| 0 <= i < |rest| && rest[i].0 == c.path;
      assert units[i + 1].0 == c.path;
    }
  }

  /** The concatenation of the patches, which is the diff. */
  function DiffOf(units: seq<Unit>): seq<Line> {
    if units == [] then [] else units[0].1 + DiffOf(units[1..])
  }

  lemma {:induction false} DiffMeansItsPatches(s: State, units: seq<Unit>)
    requires AllClean(units)
    ensures Changed(s, DiffOf(units)) == UnitsChanges(units)
    decreases |units|
  {
    if units != [] {
      assert CleanPatch(units[0].0, units[0].1);
      CleanChanges(s, units[0].0, units[0].1);
      CleanChanges(INIT, units[0].0, units[0].1);
      ChangedConcat(s, units[0].1, DiffOf(units[1..]));
      DiffMeansItsPatches(Run(s, units[0].1), units[1..]);
    }
  }

  function PatchesOf(units: seq<Unit>): seq<seq<Line>> {
    if units == [] then [] else [units[0].1] + PatchesOf(units[1..])
  }

  lemma HeadIsPart(pre: seq<Line>, rest: seq<Line>)
    requires QuietHead(pre) && Unheaded(rest, IsFileHeader)
    ensures IsPart(pre + rest, IsFileHeader)
  {
    forall i | 0 <= i < |pre[1..]|
      ensures !IsFileHeader(pre[1..][i])
    {
      assert IsQuiet(pre[i + 1]);
    }
    assert (pre + rest)[1..] == pre[1..] + rest;
  }

  lemma {:induction false} HunksUnheaded(hs: seq<Hunk>)
    requires BodiesOk(hs)
    ensures Unheaded(HunksLines(hs), IsFileHeader)
  {
    if hs != [] {
      assert BodyOk(hs[0].body);
      assert forall i :: 0 <= i < |hs[0].body| ==> IsBody(hs[0].body[i]);
      HunksUnheaded(hs[1..]);
    }
  }

  /** Once the walk knows a file it knows one until the next file header. */
  lemma {:induction false} StaysNamed(s: State, ls: seq<Line>)
    requires s.file.Some? && Unheaded(ls, IsFileHeader)
    ensures Run(s, ls).file.Some?
    decreases |ls|
  {
    if ls != [] {
      assert !IsFileHeader(ls[0]);
      StaysNamed(Step(s, ls[0]), ls[1..]);
    }
  }

  lemma AfterHead(pre: seq<Line>, rest: seq<Line>, i: nat)
    requires NoHead(pre) && i < |pre + rest| && (pre + rest)[i].HunkHead?
    ensures i >= |pre|
  {
  }

  /** In a file's patch every line under a hunk header is in an open hunk, so there the count is exact. */
  lemma CountIsExactOnPatches(path: string, patch: seq<Line>)
    requires CleanPatch(path, patch)
    ensures Surplus(patch, |patch|) == 0
  {
    NoSurplus(patch, |patch|);
    forall i | 0 <= i < |patch| && CountedLine(patch, i)
      ensures Open(patch, i)
    {
      UnderHeadIsOpen(path, patch, i);
    }
  }

  lemma UnderHeadIsOpen(path: string, patch: seq<Line>, i: nat)
    requires CleanPatch(path, patch) && i < |patch| && UnderHead(patch, i)
    ensures Open(patch, i)
  {
    hide CleanPatch, Run;
    var h :| 0 <= h < i && patch[h].HunkHead? && forall k :: h < k < i ==> !patch[k].FileHeader?;
    NamedAt(path, patch, h);
    OpenFrom(patch, h, i);
  }

  lemma NamedAt(path: string, patch: seq<Line>, h: nat)
    requires CleanPatch(path, patch) && h < |patch| && patch[h].HunkHead?
    ensures Run(INIT, patch[..h]).file.Some?
  {
    var pre, rest := PreambleOf(patch), HunksLines(HunksOf(patch));
    ParseRender(patch);
    HunksUnheaded(HunksOf(patch));
    AfterHead(pre, rest, h);
    assert HunksOf(patch) != [];
    hide Run, HunksLines, PreambleOf, HunksOf, QuietHead, NameOf;
    var first := rest[..h - |pre|];
    assert patch[..h] == pre + first;
    NamedAfter(pre, first, path);
  }

  lemma OpenFrom(patch: seq<Line>, h: nat, i: nat)
    requires h < i < |patch| && patch[h].HunkHead? && Run(INIT, patch[..h]).file.Some?
    requires forall k :: h < k < i ==> !patch[k].FileHeader?
    ensures Open(patch, i)
  {
    hide Run, Walk;
    var between := patch[h + 1..i];
    TakeNext(patch, h);
    WalkSnoc(INIT, patch[..h], patch[h]);
    assert patch[..i] == patch[..h + 1] + between;
    WalkConcat(INIT, patch[..h + 1], between);
    OpensHunk(Run(INIT, patch[..h]), patch[h]);
    StaysOpen(Run(INIT, patch[..h + 1]), between);
  }

  lemma NamedAfter(pre: seq<Line>, first: seq<Line>, path: string)
    requires QuietHead(pre) && NameOf(pre) == Some(path) && Unheaded(first, IsFileHeader)
    ensures Run(INIT, pre + first).file.Some?
  {
    HeadWalk(INIT, pre);
    WalkConcat(INIT, pre, first);
    StaysNamed(Run(INIT, pre), first);
  }

  lemma OpensHunk(s: State, l: Line)
    requires s.file.Some? && l.HunkHead?
    ensures Step(s, l).file.Some? && Step(s, l).inHunk
  {
  }

  lemma {:induction false} StaysOpen(s: State, ls: seq<Line>)
    requires s.file.Some? && s.inHunk && Unheaded(ls, IsFileHeader)
    ensures Run(s, ls).file.Some? && Run(s, ls).inHunk
    decreases |ls|
  {
    if ls != [] {
      assert !IsFileHeader(ls[0]);
      StaysOpen(Step(s, ls[0]), ls[1..]);
    }
  }

  lemma CleanIsPart(path: string, patch: seq<Line>)
    requires CleanPatch(path, patch)
    ensures IsPart(patch, IsFileHeader)
  {
    ParseRender(patch);
    HunksUnheaded(HunksOf(patch));
    HeadIsPart(PreambleOf(patch), HunksLines(HunksOf(patch)));
  }

  lemma {:induction false} FlattenPatches(units: seq<Unit>)
    ensures DiffOf(units) == Flatten(PatchesOf(units))
    ensures |PatchesOf(units)| == |units|
    ensures forall i :: 0 <= i < |units| ==> PatchesOf(units)[i] == units[i].1
  {
    if units != [] {
      FlattenPatches(units[1..]);
    }
  }

  /** Splitting a diff gives back the patches it was put together from. */
  lemma SplitRecoversPatches(units: seq<Unit>)
    requires AllClean(units) && units != []
    ensures Before(DiffOf(units), IsFileHeader) == [] && DiffOf(units) != []
    ensures FileParts(DiffOf(units)) == PatchesOf(units)
  {
    FlattenPatches(units);
    var parts := PatchesOf(units);
    forall i | 0 <= i < |parts|
      ensures IsPart(parts[i], IsFileHeader)
    {
      assert CleanPatch(units[i].0, units[i].1);
      CleanIsPart(units[i].0, units[i].1);
    }
    PartsUnique(parts, IsFileHeader);
    assert IsPart(parts[0], IsFileHeader);
    assert DiffOf(units)[0] == parts[0][0];
    assert DiffOf(units)[0..] == DiffOf(units);
  }

  // ---------------------------------------------------------------------
  // build_commentable_lines
  // ---------------------------------------------------------------------

  type Place = (string, nat, Side)

  /** The line exists on that side of the diff: deleted or context on the left, added or context on the right. */
  ghost predicate Shows(ws: seq<Walked>, at: Place) {
    exists w :: w in ws && w.path == at.0
      && (if at.2 == LEFT then w.mark != Plus && w.oldLine == at.1 else w.mark != Minus && w.newLine == at.1)
  }

  /** What one walked line adds to the set. */
  function PlacesOf(w: Walked): set<Place> {
    (if w.mark != Plus then {(w.path, w.oldLine, LEFT)} else {})
    + (if w.mark != Minus then {(w.path, w.newLine, RIGHT)} else {})
  }

  function PlacesIn(ws: seq<Walked>): set<Place> {
    if ws == [] then {} else PlacesOf(ws[0]) + PlacesIn(ws[1..])
  }

  lemma {:induction false} PlacesInSnoc(ws: seq<Walked>, w: Walked)
    ensures PlacesIn(ws + [w]) == PlacesIn(ws) + PlacesOf(w)
  {
    if ws == [] {
      assert [w][1..] == [];
    } else {
      assert (ws + [w])[1..] == ws[1..] + [w];
      PlacesInSnoc(ws[1..], w);
    }
  }

  /** The set holds a place exactly when the walk shows it. */
  lemma {:induction false} PlacesAreShown(ws: seq<Walked>, at: Place)
    ensures at in PlacesIn(ws) <==> Shows(ws, at)
  {
    if ws != [] {
      PlacesAreShown(ws[1..], at);
      assert ws == [ws[0]] + ws[1..];
      if at in PlacesOf(ws[0]) {
        assert ws[0] in ws;
      } else if at in PlacesIn(ws[1..]) {
        var w :| w in ws[1..] && w.path == at.0
          && (if at.2 == LEFT then w.mark != Plus && w.oldLine == at.1 else w.mark != Minus && w.newLine == at.1);
        assert w in ws;
      }
    }
  }

  method BuildCommentableLines(diff: seq<Line>) returns (commentable: set<Place>)
    ensures commentable == PlacesIn(Walk(INIT, diff))
  {
    hide PlacesIn, Walk;
    var ws := WalkDiff(diff);
    commentable := {};
    NoPlaces(ws);
    for i := 0 to |ws|
      invariant commentable == PlacesIn(ws[..i])
    {
      var w := ws[i];
      PlacesInSnoc(ws[..i], w);
      TakeNext(ws, i);
      if w.mark != Plus {
        commentable := commentable + {(w.path, w.oldLine, LEFT)};
      }
      if w.mark != Minus {
        commentable := commentable + {(w.path, w.newLine, RIGHT)};
      }
    }
    assert ws[..|ws|] == ws;
  }

  lemma NoPlaces(ws: seq<Walked>)
    ensures PlacesIn(ws[..0]) == {}
  {
  }

  lemma {:induction false} ChangeWasWalked(ws: seq<Walked>, c: Change) returns (w: Walked)
    requires c in ChangesOf(ws)
    ensures w in ws && c in ChangeOf(w)
  {
    if c in ChangeOf(ws[0]) {
      w := ws[0];
    } else {
      w := ChangeWasWalked(ws[1..], c);
    }
  }

  /** Every changed line can carry a comment. */
  lemma ChangedLinesAreCommentable(ws: seq<Walked>, c: Change)
    requires c in ChangesOf(ws)
    ensures Shows(ws, (c.path, c.line, c.side))
  {
    var w := ChangeWasWalked(ws, c);
    assert w in ws;
  }
}
