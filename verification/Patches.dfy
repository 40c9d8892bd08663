/**
  The shape of one file's patch: leading header lines and hunks. Shared by the
  lookups of `core/diffparse.py` and the rewrites of `engine/compress.py`.
 */
module Patches {
  import opened Wrappers
  import opened DiffParse

  datatype Hunk = Hunk(header: Header, body: seq<Line>)

  function HunkLines(h: Hunk): seq<Line> {
    [HunkHead(h.header)] + h.body
  }

  function HunksLines(hs: seq<Hunk>): seq<Line> {
    if hs == [] then [] else HunkLines(hs[0]) + HunksLines(hs[1..])
  }

  lemma {:induction false} HunksLinesConcat(a: seq<Hunk>, b: seq<Hunk>)
    ensures HunksLines(a + b) == HunksLines(a) + HunksLines(b)
  {
    if a == [] {
      assert a + b == b;
    } else {
      assert (a + b)[1..] == a[1..] + b;
      HunksLinesConcat(a[1..], b);
    }
  }

  lemma HunksLinesSnoc(a: seq<Hunk>, h: Hunk)
    ensures HunksLines(a + [h]) == HunksLines(a) + HunkLines(h)
  {
    HunksLinesConcat(a, [h]);
    assert HunksLines([h]) == HunkLines(h) + HunksLines([]);
  }

  // ---------------------------------------------------------------------
  // Walking a hunk
  // ---------------------------------------------------------------------

  /** A line git writes into a hunk body. */
  predicate IsBody(l: Line) {
    !l.FileHeader? && !l.HunkHead? && !l.BadHead? && !l.RenameTo? && !l.Meta?
  }

  predicate BodyOk(body: seq<Line>) {
    forall i :: 0 <= i < |body| ==> IsBody(body[i])
  }

  /** The walk's state inside a hunk of `path`. */
  function At(path: string, oldLine: nat, newLine: nat): State {
    State(Some(path), oldLine, newLine, true)
  }

  /** Inside a hunk the counters advance by exactly what each side holds. */
  lemma {:induction false} RunBody(path: string, o: nat, n: nat, body: seq<Line>)
    requires BodyOk(body)
    ensures Run(At(path, o, n), body) == At(path, o + OldLen(body), n + NewLen(body))
    decreases |body|
  {
    if body != [] {
      assert IsBody(body[0]);
      assert Step(At(path, o, n), body[0]) == At(path, o + OldCount(body[0]), n + NewCount(body[0]));
      RunBody(path, o + OldCount(body[0]), n + NewCount(body[0]), body[1..]);
    }
  }

  lemma ChangedCons(s: State, ls: seq<Line>)
    requires ls != []
    ensures Changed(s, ls) == ChangesOf(Emit(s, ls[0])) + Changed(Step(s, ls[0]), ls[1..])
  {
    ChangesOfConcat(Emit(s, ls[0]), Walk(Step(s, ls[0]), ls[1..]));
  }

  lemma NothingChanged(s: State)
    ensures Changed(s, []) == []
  {
  }

  lemma EmptySideStep(path: string, o: nat, n: nat, o': nat, n': nat, l: Line)
    requires IsBody(l)
    requires OldCount(l) == 0 || o == o'
    requires NewCount(l) == 0 || n == n'
    ensures ChangesOf(Emit(At(path, o, n), l)) == ChangesOf(Emit(At(path, o', n'), l))
    ensures Step(At(path, o, n), l) == At(path, o + OldCount(l), n + NewCount(l))
    ensures Step(At(path, o', n'), l) == At(path, o' + OldCount(l), n' + NewCount(l))
  {
    if MarkOf(l) != Backslash {
      var w, w' := Emit(At(path, o, n), l)[0], Emit(At(path, o', n'), l)[0];
      assert ChangeOf(w) == ChangeOf(w');
      assert ChangesOf([w]) == ChangeOf(w) + ChangesOf([]);
      assert ChangesOf([w']) == ChangeOf(w') + ChangesOf([]);
    }
  }

  /** A side that holds no line may be numbered from anywhere. */
  lemma {:induction false} EmptySideNumber(path: string, o: nat, n: nat, o': nat, n': nat, body: seq<Line>)
    requires BodyOk(body)
    requires OldLen(body) == 0 || o == o'
    requires NewLen(body) == 0 || n == n'
    ensures Changed(At(path, o, n), body) == Changed(At(path, o', n'), body)
    decreases |body|
  {
    hide Changed, Emit, Step, ChangesOf, IsBody, OldCount, NewCount;
    if body == [] {
      NothingChanged(At(path, o, n));
      NothingChanged(At(path, o', n'));
    } else {
      var l, rest := body[0], body[1..];
      assert IsBody(l) && BodyOk(rest);
      EmptySideStep(path, o, n, o', n', l);
      EmptySideNumber(path, o + OldCount(l), n + NewCount(l), o' + OldCount(l), n' + NewCount(l), rest);
      ChangedCons(At(path, o, n), body);
      ChangedCons(At(path, o', n'), body);
    }
  }

  /** A body with an empty side holds no context line. */
  lemma {:induction false} EmptySideNoContext(path: string, o: nat, n: nat, body: seq<Line>)
    requires BodyOk(body)
    requires OldLen(body) == 0 || NewLen(body) == 0
    ensures forall w :: w in Walk(At(path, o, n), body) ==> w.mark != Space
    decreases |body|
  {
    if body != [] {
      var l := body[0];
      assert IsBody(l);
      assert Step(At(path, o, n), l) == At(path, o + OldCount(l), n + NewCount(l));
      EmptySideNoContext(path, o + OldCount(l), n + NewCount(l), body[1..]);
    }
  }

  function WalkHunk(path: string, h: Hunk): seq<Walked> {
    Walk(At(path, h.header.oldStart, h.header.newStart), h.body)
  }

  function WalkHunks(path: string, hs: seq<Hunk>): seq<Walked> {
    if hs == [] then [] else WalkHunk(path, hs[0]) + WalkHunks(path, hs[1..])
  }

  function HunkChanges(path: string, h: Hunk): seq<Change> {
    ChangesOf(WalkHunk(path, h))
  }

  function HunksChanges(path: string, hs: seq<Hunk>): seq<Change> {
    if hs == [] then [] else HunkChanges(path, hs[0]) + HunksChanges(path, hs[1..])
  }

  lemma {:induction false} HunksChangesAreWalked(path: string, hs: seq<Hunk>)
    ensures HunksChanges(path, hs) == ChangesOf(WalkHunks(path, hs))
  {
    if hs != [] {
      HunksChangesAreWalked(path, hs[1..]);
      ChangesOfConcat(WalkHunk(path, hs[0]), WalkHunks(path, hs[1..]));
    }
  }

  lemma {:induction false} HunksConcat(path: string, a: seq<Hunk>, b: seq<Hunk>)
    ensures WalkHunks(path, a + b) == WalkHunks(path, a) + WalkHunks(path, b)
    ensures HunksChanges(path, a + b) == HunksChanges(path, a) + HunksChanges(path, b)
  {
    hide WalkHunk, HunkChanges;
    if a == [] {
      assert a + b == b;
    } else {
      assert (a + b)[1..] == a[1..] + b;
      HunksConcat(path, a[1..], b);
      Assoc(WalkHunk(path, a[0]), WalkHunks(path, a[1..]), WalkHunks(path, b));
      Assoc(HunkChanges(path, a[0]), HunksChanges(path, a[1..]), HunksChanges(path, b));
    }
  }

  lemma HunksSnoc(path: string, a: seq<Hunk>, h: Hunk)
    ensures WalkHunks(path, a + [h]) == WalkHunks(path, a) + WalkHunk(path, h)
    ensures HunksChanges(path, a + [h]) == HunksChanges(path, a) + HunkChanges(path, h)
  {
    HunksConcat(path, a, [h]);
    assert WalkHunks(path, [h]) == WalkHunk(path, h) + WalkHunks(path, []);
    assert HunksChanges(path, [h]) == HunkChanges(path, h) + HunksChanges(path, []);
  }

  predicate BodiesOk(hs: seq<Hunk>) {
    forall i :: 0 <= i < |hs| ==> BodyOk(hs[i].body)
  }

  lemma WalkHunkLines(s: State, h: Hunk, path: string)
    requires s.file == Some(path) && BodyOk(h.body)
    ensures Walk(s, HunkLines(h)) == WalkHunk(path, h)
    ensures Run(s, HunkLines(h)).file == Some(path)
    ensures Run(s, HunkLines(h)).inHunk
  {
    var ls := HunkLines(h);
    assert ls[0] == HunkHead(h.header) && ls[1..] == h.body;
    assert Step(s, ls[0]) == At(path, h.header.oldStart, h.header.newStart);
    RunBody(path, h.header.oldStart, h.header.newStart, h.body);
  }

  lemma {:induction false} WalkHunksLines(s: State, hs: seq<Hunk>, path: string)
    requires s.file == Some(path) && BodiesOk(hs)
    ensures Walk(s, HunksLines(hs)) == WalkHunks(path, hs)
    ensures Changed(s, HunksLines(hs)) == HunksChanges(path, hs)
    ensures Run(s, HunksLines(hs)).file == Some(path)
    decreases |hs|
  {
    HunksChangesAreWalked(path, hs);
    if hs != [] {
      WalkHunkLines(s, hs[0], path);
      WalkConcat(s, HunkLines(hs[0]), HunksLines(hs[1..]));
      WalkHunksLines(Run(s, HunkLines(hs[0])), hs[1..], path);
    }
  }

  // ---------------------------------------------------------------------
  // Header lines
  // ---------------------------------------------------------------------

  predicate IsQuiet(l: Line) {
    !l.FileHeader? && !l.HunkHead? && !l.BadHead?
  }

  /** The header lines of one file: its `diff --git` line, then no other header of either kind. */
  predicate QuietHead(pre: seq<Line>) {
    pre != [] && pre[0].FileHeader? && forall i :: 1 <= i < |pre| ==> IsQuiet(pre[i])
  }

  /** The path the walk holds after these header lines. */
  function NameAfter(name: Option<string>, pre: seq<Line>): Option<string>
    decreases |pre|
  {
    if pre == [] then name
    else NameAfter(Step(State(name, 0, 0, false), pre[0]).file, pre[1..])
  }

  lemma {:induction false} QuietWalk(s: State, pre: seq<Line>)
    requires !s.inHunk && forall i :: 0 <= i < |pre| ==> IsQuiet(pre[i])
    ensures Walk(s, pre) == []
    ensures Run(s, pre) == s.(file := NameAfter(s.file, pre))
    decreases |pre|
  {
    if pre != [] {
      assert IsQuiet(pre[0]);
      QuietWalk(Step(s, pre[0]), pre[1..]);
    }
  }

  function NameOf(pre: seq<Line>): Option<string> {
    NameAfter(None, pre)
  }

  /** A file's header lines yield nothing and leave the walk outside a hunk of that file, from any state. */
  lemma HeadWalk(s: State, pre: seq<Line>)
    requires QuietHead(pre)
    ensures Walk(s, pre) == []
    ensures Run(s, pre) == State(NameOf(pre), s.oldLine, s.newLine, false)
  {
    var s1 := Step(s, pre[0]);
    QuietWalk(s1, pre[1..]);
    assert NameOf(pre) == NameAfter(s1.file, pre[1..]);
  }

  // ---------------------------------------------------------------------
  // Parsing a patch
  // ---------------------------------------------------------------------

  predicate NoHead(ls: seq<Line>) {
    forall i :: 0 <= i < |ls| ==> !ls[i].HunkHead?
  }

  /** The lines before the first hunk header. */
  function PreambleOf(ls: seq<Line>): (pre: seq<Line>)
    ensures pre <= ls && NoHead(pre)
    ensures |pre| < |ls| ==> ls[|pre|].HunkHead?
  {
    if ls == [] || ls[0].HunkHead? then [] else [ls[0]] + PreambleOf(ls[1..])
  }

  /** The hunks of a run of lines that starts at a hunk header, each up to the next header. */
  function HunksIn(rest: seq<Line>): seq<Hunk>
    requires rest == [] || rest[0].HunkHead?
    decreases |rest|
  {
    if rest == [] then []
    else
      var body := PreambleOf(rest[1..]);
      [Hunk(rest[0].header, body)] + HunksIn(rest[1..][|body|..])
  }

  function HunksOf(ls: seq<Line>): seq<Hunk> {
    HunksIn(ls[|PreambleOf(ls)|..])
  }

  lemma HunksLinesCons(h: Hunk, hs: seq<Hunk>)
    ensures HunksLines([h] + hs) == HunkLines(h) + HunksLines(hs)
  {
    assert ([h] + hs)[1..] == hs;
  }

  lemma {:induction false} HunksInNoHead(rest: seq<Line>)
    requires rest == [] || rest[0].HunkHead?
    ensures forall i :: 0 <= i < |HunksIn(rest)| ==> NoHead(HunksIn(rest)[i].body)
    decreases |rest|
  {
    if rest != [] {
      HunksInNoHead(rest[1..][|PreambleOf(rest[1..])|..]);
    }
  }

  lemma {:induction false} HunksInUnfold(rest: seq<Line>) returns (h: Hunk, tail: seq<Line>)
    requires rest != [] && rest[0].HunkHead?
    ensures |tail| < |rest| && (tail == [] || tail[0].HunkHead?)
    ensures rest == HunkLines(h) + tail
    ensures HunksIn(rest) == [h] + HunksIn(tail)
  {
    var body := PreambleOf(rest[1..]);
    tail := rest[1..][|body|..];
    h := Hunk(rest[0].header, body);
    assert rest[1..] == body + tail;
    Assoc([rest[0]], body, tail);
  }

  lemma {:induction false} HunksInRender(rest: seq<Line>)
    requires rest == [] || rest[0].HunkHead?
    ensures HunksLines(HunksIn(rest)) == rest
    decreases |rest|
  {
    if rest != [] {
      var h, tail := HunksInUnfold(rest);
      HunksInRender(tail);
      HunksLinesCons(h, HunksIn(tail));
    }
  }

  /** The parts of a patch put together again are the patch. */
  lemma {:induction false} ParseRender(ls: seq<Line>)
    ensures PreambleOf(ls) + HunksLines(HunksOf(ls)) == ls
    ensures forall i :: 0 <= i < |HunksOf(ls)| ==> NoHead(HunksOf(ls)[i].body)
  {
    hide HunksIn, PreambleOf, HunksLines;
    var rest := ls[|PreambleOf(ls)|..];
    assert HunksOf(ls) == HunksIn(rest);
    HunksInRender(rest);
    HunksInNoHead(rest);
  }

  lemma {:induction false} PreambleUnique(pre: seq<Line>, rest: seq<Line>)
    requires NoHead(pre) && (rest == [] || rest[0].HunkHead?)
    ensures PreambleOf(pre + rest) == pre
  {
    if pre == [] {
      assert pre + rest == rest;
    } else {
      assert (pre + rest)[1..] == pre[1..] + rest;
      PreambleUnique(pre[1..], rest);
    }
  }

  lemma {:induction false} HunksLinesStart(hs: seq<Hunk>)
    ensures HunksLines(hs) == [] <==> hs == []
    ensures hs != [] ==> HunksLines(hs)[0] == HunkHead(hs[0].header)
    ensures hs != [] ==> HunksLines(hs)[1..] == hs[0].body + HunksLines(hs[1..])
  {
    if hs != [] {
      var head, body, more := HunkHead(hs[0].header), hs[0].body, HunksLines(hs[1..]);
      Assoc([head], body, more);
      DropFirst(head, body + more);
    }
  }

  lemma {:induction false} HunksInUnique(hs: seq<Hunk>)
    requires forall i :: 0 <= i < |hs| ==> NoHead(hs[i].body)
    ensures HunksLines(hs) == [] || HunksLines(hs)[0].HunkHead?
    ensures HunksIn(HunksLines(hs)) == hs
    decreases |hs|
  {
    HunksLinesStart(hs);
    if hs != [] {
      var body, after := hs[0].body, HunksLines(hs[1..]);
      HunksInUnique(hs[1..]);
      PreambleUnique(body, after);
      assert (body + after)[|body|..] == after;
      assert hs == [hs[0]] + hs[1..];
    }
  }

  /** A patch splits into header lines and hunks in one way only. */
  lemma ParseUnique(pre: seq<Line>, hs: seq<Hunk>)
    requires NoHead(pre) && forall i :: 0 <= i < |hs| ==> NoHead(hs[i].body)
    ensures PreambleOf(pre + HunksLines(hs)) == pre
    ensures HunksOf(pre + HunksLines(hs)) == hs
  {
    HunksInUnique(hs);
    PreambleUnique(pre, HunksLines(hs));
    assert (pre + HunksLines(hs))[|pre|..] == HunksLines(hs);
  }

  lemma {:induction false} GrowLastHunk(pre: seq<Line>, hs: seq<Hunk>, l: Line) returns (grown: seq<Hunk>)
    requires hs != []
    ensures var last := hs[|hs| - 1];
            grown == hs[..|hs| - 1] + [Hunk(last.header, last.body + [l])]
    ensures pre + HunksLines(grown) == pre + HunksLines(hs) + [l]
  {
    var front, last := hs[..|hs| - 1], hs[|hs| - 1];
    var h := Hunk(last.header, last.body + [l]);
    assert hs == front + [last];
    HunksLinesSnoc(front, last);
    HunksLinesSnoc(front, h);
    assert HunkLines(h) == HunkLines(last) + [l];
    grown := front + [h];
  }

  /** `_parse_hunks`: one pass that opens a hunk at every header and appends other lines to the last one. */
  method ParseHunks(patch: seq<Line>) returns (preamble: seq<Line>, hunks: seq<Hunk>)
    ensures preamble == PreambleOf(patch) && hunks == HunksOf(patch)
  {
    preamble, hunks := [], [];
    for i := 0 to |patch|
      invariant NoHead(preamble) && forall k :: 0 <= k < |hunks| ==> NoHead(hunks[k].body)
      invariant preamble + HunksLines(hunks) == patch[..i]
    {
      var line := patch[i];
      assert patch[..i + 1] == patch[..i] + [line];
      if line.HunkHead? {
        HunksLinesSnoc(hunks, Hunk(line.header, []));
        assert HunkLines(Hunk(line.header, [])) == [line];
        hunks := hunks + [Hunk(line.header, [])];
      } else if hunks != [] {
        var last := hunks[|hunks| - 1];
        ghost var grown := GrowLastHunk(preamble, hunks, line);
        hunks := hunks[..|hunks| - 1] + [Hunk(last.header, last.body + [line])];
      } else {
        preamble := preamble + [line];
      }
    }
    assert patch[..|patch|] == patch;
    ParseUnique(preamble, hunks);
  }

  // ---------------------------------------------------------------------
  // Clean patches and the payload they are joined into
  // ---------------------------------------------------------------------

  /** One file's patch, as `split_by_file` cuts it out of a diff. */
  predicate CleanPatch(path: string, patch: seq<Line>) {
    && QuietHead(PreambleOf(patch))
    && BodiesOk(HunksOf(patch))
    && (HunksOf(patch) != [] ==> NameOf(PreambleOf(patch)) == Some(path))
  }

  lemma BodiesHaveNoHead(hs: seq<Hunk>)
    requires BodiesOk(hs)
    ensures forall i :: 0 <= i < |hs| ==> NoHead(hs[i].body)
  {
    forall i | 0 <= i < |hs|
      ensures NoHead(hs[i].body)
    {
      assert BodyOk(hs[i].body);
      assert forall k :: 0 <= k < |hs[i].body| ==> IsBody(hs[i].body[k]);
    }
  }

  /** A patch assembled from clean parts is clean and parses back to those parts. */
  lemma {:induction false} MakeClean(path: string, pre: seq<Line>, hs: seq<Hunk>)
    requires QuietHead(pre) && BodiesOk(hs)
    requires hs != [] ==> NameOf(pre) == Some(path)
    ensures CleanPatch(path, pre + HunksLines(hs))
    ensures PreambleOf(pre + HunksLines(hs)) == pre && HunksOf(pre + HunksLines(hs)) == hs
  {
    BodiesHaveNoHead(hs);
    assert forall i :: 0 <= i < |pre| ==> !pre[i].HunkHead? by {
      assert forall i :: 1 <= i < |pre| ==> IsQuiet(pre[i]);
    }
    ParseUnique(pre, hs);
  }

  /** A clean patch means its hunks' changes, from whatever state the walk is in. */
  lemma CleanChanges(s: State, path: string, patch: seq<Line>)
    requires CleanPatch(path, patch)
    ensures Changed(s, patch) == HunksChanges(path, HunksOf(patch))
    ensures Walk(s, patch) == WalkHunks(path, HunksOf(patch))
  {
    var pre, hs := PreambleOf(patch), HunksOf(patch);
    ParseRender(patch);
    HeadWalk(s, pre);
    WalkConcat(s, pre, HunksLines(hs));
    HunksChangesAreWalked(path, hs);
    if hs == [] {
      assert Walk(Run(s, pre), []) == [];
    } else {
      WalkHunksLines(Run(s, pre), hs, path);
    }
    assert Walk(s, patch) == WalkHunks(path, hs);
  }

  /** A (path, patch) pair. */
  type Unit = (string, seq<Line>)

  predicate AllClean(units: seq<Unit>) {
    forall i :: 0 <= i < |units| ==> CleanPatch(units[i].0, units[i].1)
  }

  /** The changed lines of a list of patches, in order. */
  function UnitsChanges(units: seq<Unit>): seq<Change> {
    if units == [] then [] else Changes(units[0].1) + UnitsChanges(units[1..])
  }

  lemma {:induction false} UnitsChangesConcat(a: seq<Unit>, b: seq<Unit>)
    ensures UnitsChanges(a + b) == UnitsChanges(a) + UnitsChanges(b)
  {
    if a == [] {
      assert a + b == b;
    } else {
      assert (a + b)[1..] == a[1..] + b;
      UnitsChangesConcat(a[1..], b);
    }
  }

  lemma UnitsChangesSnoc(a: seq<Unit>, u: Unit)
    ensures UnitsChanges(a + [u]) == UnitsChanges(a) + Changes(u.1)
  {
    UnitsChangesConcat(a, [u]);
    assert UnitsChanges([u]) == Changes(u.1) + UnitsChanges([]);
  }

  /**
    The patches joined by a newline, the payload of one call. Every patch ends in
    a newline of its own, so the join puts an empty line between two patches.
   */
  function Joined(units: seq<Unit>): seq<Line> {
    if units == [] then []
    else if |units| == 1 then units[0].1
    else units[0].1 + [Empty] + Joined(units[1..])
  }

  lemma JoiningLine(s: State, patch: seq<Line>)
    ensures Changed(s, patch + [Empty]) == Changed(s, patch)
  {
    WalkSnoc(s, patch, Empty);
    var e := Emit(Run(s, patch), Empty);
    ChangesOfConcat(Walk(s, patch), e);
    assert ChangesOf(e) == [] by {
      assert e != [] ==> ChangesOf(e) == ChangeOf(e[0]) + ChangesOf(e[1..]);
    }
  }

  /** The joining empty lines are read as context at most: a payload means what its patches mean. */
  lemma {:induction false} JoinedChanges(s: State, units: seq<Unit>)
    requires AllClean(units)
    ensures Changed(s, Joined(units)) == UnitsChanges(units)
    decreases |units|
  {
    if units != [] {
      assert CleanPatch(units[0].0, units[0].1);
      CleanChanges(s, units[0].0, units[0].1);
      CleanChanges(INIT, units[0].0, units[0].1);
      if |units| == 1 {
        assert UnitsChanges(units[1..]) == [];
      } else {
        JoiningLine(s, units[0].1);
        ChangedConcat(s, units[0].1 + [Empty], Joined(units[1..]));
        JoinedChanges(Run(s, units[0].1 + [Empty]), units[1..]);
      }
    }
  }

  // ---------------------------------------------------------------------
  // Well-formed hunks
  // ---------------------------------------------------------------------

  /**
    The first line of the hunk on each side. A side that holds no line starts,
    by the POSIX convention, at the line before it.
   */
  function FirstNew(h: Hunk): nat { h.header.newStart + (if h.header.newLen == 0 then 1 else 0) }
  function FirstOld(h: Hunk): nat { h.header.oldStart + (if h.header.oldLen == 0 then 1 else 0) }
  function LastNew(h: Hunk): int { FirstNew(h) + h.header.newLen - 1 }
  function LastOld(h: Hunk): int { FirstOld(h) + h.header.oldLen - 1 }

  /** The header counts what the body holds, and a side that holds a line starts at line 1 or later. */
  predicate WellFormed(h: Hunk) {
    && BodyOk(h.body)
    && h.header.oldLen == OldLen(h.body) && h.header.newLen == NewLen(h.body)
    && FirstOld(h) >= 1 && FirstNew(h) >= 1
  }

  /** `b` follows `a`, with as many unchanged lines between them on the old side as on the new. */
  predicate Follows(a: Hunk, b: Hunk) {
    && LastNew(a) < FirstNew(b)
    && FirstNew(b) - LastNew(a) == FirstOld(b) - LastOld(a)
  }

  ghost predicate WellFormedHunks(hs: seq<Hunk>) {
    && (forall i :: 0 <= i < |hs| ==> WellFormed(hs[i]))
    && (forall i, j :: 0 <= i < j < |hs| && j == i + 1 ==> Follows(hs[i], hs[j]))
  }
}
