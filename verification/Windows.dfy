/** What padding shows: the lines around every hunk that the expanded patch holds (`expand_hunks` in `engine/compress.py`). */
module Windows {
  import opened Wrappers
  import opened DiffParse
  import opened Patches
  import opened Expand
  import opened Render
  import opened ExpandHunks

  /** The walk yields line `m` of the new file, as context or as an addition. */
  ghost predicate ShowsLine(ws: seq<Walked>, m: nat) {
    exists w :: w in ws && w.newLine == m && (w.mark == Plus || w.mark == Space)
  }

  lemma {:induction false} BodyShows(path: string, o: nat, n: nat, body: seq<Line>, m: nat)
    requires BodyOk(body) && n <= m < n + NewLen(body)
    ensures ShowsLine(Walk(At(path, o, n), body), m)
    decreases |body|
  {
    var l := body[0];
    assert IsBody(l);
    var s := At(path, o, n);
    assert Step(s, l) == At(path, o + OldCount(l), n + NewCount(l));
    assert Walk(s, body) == Emit(s, l) + Walk(Step(s, l), body[1..]);
    if m == n && NewCount(l) == 1 {
      assert Emit(s, l) == [Walked(path, MarkOf(l), o, n, TextOf(l))];
      assert Emit(s, l)[0] in Walk(s, body);
    } else {
      BodyShows(path, o + OldCount(l), n + NewCount(l), body[1..], m);
      var w :| w in Walk(Step(s, l), body[1..]) && w.newLine == m && (w.mark == Plus || w.mark == Space);
      assert w in Walk(s, body);
    }
  }

  /** A consistent hunk shows every line its header claims. */
  lemma HunkShows(path: string, hs: seq<Hunk>, j: nat, m: nat)
    requires j < |hs| && Consistent(hs[j]) && hs[j].header.newStart <= m < hs[j].header.newStart + hs[j].header.newLen
    ensures ShowsLine(WalkHunks(path, hs), m)
  {
    BodyShows(path, hs[j].header.oldStart, hs[j].header.newStart, hs[j].body, m);
    var w :| w in WalkHunk(path, hs[j]) && w.newLine == m && (w.mark == Plus || w.mark == Space);
    hide Walk;
    WalkedByOne(path, hs, j, w);
  }

  // ---------------------------------------------------------------------
  // Where a hunk is among the groups
  // ---------------------------------------------------------------------

  /** Hunks stand in file order. */
  lemma {:induction false} HunksAscend(hs: seq<Hunk>, i: nat, j: nat)
    requires WellFormedHunks(hs) && i <= j < |hs|
    ensures FirstNew(hs[i]) <= FirstNew(hs[j]) && LastNew(hs[i]) <= LastNew(hs[j]) && FirstNew(hs[i]) - 1 <= LastNew(hs[j])
    ensures i < j ==> LastNew(hs[i]) < FirstNew(hs[j])
    decreases j - i
  {
    assert WellFormed(hs[i]) && WellFormed(hs[j]);
    if i < j {
      HunksAscend(hs, i, j - 1);
      assert Follows(hs[j - 1], hs[j]);
    }
  }

  /** Hunk `k` is the `p`-th of group `j`, and the one before it is the one before that. */
  ghost predicate Located(groups: seq<Group>, k: nat, j: nat, p: nat) {
    && j < |groups| && p < |groups[j].hunks| && k < |GroupedHunks(groups)|
    && GroupedHunks(groups)[k] == groups[j].hunks[p]
    && (p > 0 ==> k > 0 && GroupedHunks(groups)[k - 1] == groups[j].hunks[p - 1])
    && (p == 0 && j > 0 ==> k > 0 && groups[j - 1].hunks != [] && GroupedHunks(groups)[k - 1] == LastHunk(groups[j - 1]))
    && (p == 0 && j == 0 ==> k == 0)
  }

  lemma {:induction false} Locate(groups: seq<Group>, k: nat) returns (j: nat, p: nat)
    requires (forall i :: 0 <= i < |groups| ==> groups[i].hunks != []) && k < |GroupedHunks(groups)|
    ensures Located(groups, k, j, p) && j < |groups|
    decreases |groups|
  {
    var front, last := groups[..|groups| - 1], groups[|groups| - 1];
    assert groups == front + [last];
    GroupedSnoc(front, last);
    var n := |GroupedHunks(front)|;
    assert front == [] ==> GroupedHunks(front) == [];
    hide GroupedHunks, Located;
    if k < n {
      j, p := Locate(front, k);
      LocatedBefore(front, last, k, j, p);
    } else {
      j, p := |front|, k - n;
      if front != [] {
        LastOfGrouped(front);
      }
      LocatedLast(front, last, GroupedHunks(front), p);
    }
  }

  lemma LocatedBefore(front: seq<Group>, last: Group, k: nat, j: nat, p: nat)
    requires Located(front, k, j, p) && GroupedHunks(front + [last]) == GroupedHunks(front) + last.hunks
    ensures Located(front + [last], k, j, p)
  {
    hide GroupedHunks;
    assert (front + [last])[j] == front[j];
  }

  lemma LocatedLast(front: seq<Group>, last: Group, before: seq<Hunk>, p: nat)
    requires p < |last.hunks| && GroupedHunks(front + [last]) == before + last.hunks
    requires if front == [] then before == []
             else front[|front| - 1].hunks != [] && before != [] && before[|before| - 1] == LastHunk(front[|front| - 1])
    ensures Located(front + [last], |before| + p, |front|, p)
  {
    hide GroupedHunks, LastHunk;
    var groups, all := front + [last], before + last.hunks;
    assert groups[|front|] == last && all[|before| + p] == last.hunks[p];
    if p > 0 {
      assert all[|before| + p - 1] == last.hunks[p - 1];
    } else if front != [] {
      assert all[|before| - 1] == before[|before| - 1] && groups[|front| - 1] == front[|front| - 1];
    }
  }

  lemma LastOfGrouped(groups: seq<Group>)
    requires groups != [] && groups[|groups| - 1].hunks != []
    ensures GroupedHunks(groups) != [] && GroupedHunks(groups)[|GroupedHunks(groups)| - 1] == LastHunk(groups[|groups| - 1])
  {
    var front, last := groups[..|groups| - 1], groups[|groups| - 1];
    assert groups == front + [last];
    GroupedSnoc(front, last);
  }

  // ---------------------------------------------------------------------
  // The lines a group shows
  // ---------------------------------------------------------------------

  /** What is known of the groups of an expanded patch. */
  ghost predicate Set(groups: seq<Group>, hs: seq<Hunk>, content: Text, n: nat, nAfter: nat, spans: seq<Span>) {
    && Grouped(groups, hs, |content|, n, nAfter, spans) && GroupsOk(groups, |content|)
    && WellFormedHunks(hs) && SortedSpans(spans)
    && (forall j :: 0 <= j < |groups| ==> groups[j].hunks != [] && WellFormedHunks(groups[j].hunks))
    && ConsistentAndOrdered(RenderedAll(groups, content, nAfter))
  }

  /** A group shows everything from its leading pad to its trailing pad. */
  lemma GroupShows(path: string, groups: seq<Group>, hs: seq<Hunk>, content: Text, n: nat, nAfter: nat, spans: seq<Span>, j: nat, m: nat)
    requires Set(groups, hs, content, n, nAfter, spans) && j < |groups|
    requires var g := groups[j];
             && (FirstNew(g.hunks[0]) <= m || (Fillable(g.hunks[0], |content|) && g.leadStart <= m))
             && m <= if LastNew(LastHunk(g)) <= |content| then Max(LastNew(LastHunk(g)), TrailEnd(LastHunk(g), |content|, nAfter)) else LastNew(LastHunk(g))
    ensures ShowsLine(WalkHunks(path, RenderedAll(groups, content, nAfter)), m)
  {
    hide Rendered, Leading, Trailing, WellFormedHunks, WalkHunks, Grouped, LeadStart;
    var g, r := groups[j], RenderedAll(groups, content, nAfter)[j];
    RenderedReads(path, g, content, nAfter);
    LeadingFits(g, content);
    LeadingSize(g, content);
    TrailingSize(LastHunk(g), content, nAfter);
    RenderedStarts(g, content, nAfter);
    assert r.header.newStart <= m < r.header.newStart + r.header.newLen;
    HunkShows(path, RenderedAll(groups, content, nAfter), j, m);
  }

  /** Hunk `k` is in group `j`: no earlier than its first hunk, no later than its last, and reached back to by its pad. */
  ghost predicate Seated(groups: seq<Group>, hs: seq<Hunk>, size: nat, n: nat, nAfter: nat, spans: seq<Span>, k: nat, j: nat)
    requires k < |hs| && j < |groups| && groups[j].hunks != []
  {
    var g, h := groups[j], hs[k];
    && FirstNew(g.hunks[0]) <= FirstNew(h) <= LastNew(h) + 1 && LastNew(h) <= LastNew(LastHunk(g)) && FirstNew(h) - 1 <= LastNew(LastHunk(g))
    && (|| (k > 0 && FirstNew(g.hunks[0]) - 1 <= LastNew(hs[k - 1]))
        || (g.hunks[0] == h && g.leadStart == LeadStart(h, n, spans))
        || (g.hunks[0] == h && k > 0 && g.leadStart == Max(LeadStart(h, n, spans), TrailEnd(hs[k - 1], size, nAfter) + 1)
            && !(Reaches(hs[k - 1], h, size, n, nAfter, spans) && Fillable(h, size))))
  }

  lemma Seat(groups: seq<Group>, hs: seq<Hunk>, content: Text, n: nat, nAfter: nat, spans: seq<Span>, k: nat) returns (j: nat)
    requires Set(groups, hs, content, n, nAfter, spans) && k < |hs|
    ensures j < |groups| && groups[j].hunks != [] && Seated(groups, hs, |content|, n, nAfter, spans, k, j)
  {
    hide *;
    SetMeans(groups, hs, content, n, nAfter, spans);
    var p;
    j, p := Locate(groups, k);
    SeatInOwn(groups, k, j, p);
    SeatBehind(groups, hs, content, n, nAfter, spans, k, j, p);
    IsSeated(groups, hs, |content|, n, nAfter, spans, k, j, p);
  }

  lemma SetMeans(groups: seq<Group>, hs: seq<Hunk>, content: Text, n: nat, nAfter: nat, spans: seq<Span>)
    requires Set(groups, hs, content, n, nAfter, spans)
    ensures GroupedHunks(groups) == hs
    ensures forall j :: 0 <= j < |groups| ==> groups[j].hunks != [] && WellFormedHunks(groups[j].hunks)
  {
    hide ConsistentAndOrdered, RenderedAll, GroupsOk, WellFormedHunks;
  }

  /** Where the hunk is within its group. */
  ghost predicate WithinOwn(groups: seq<Group>, k: nat, j: nat, p: nat)
    requires Located(groups, k, j, p)
  {
    var g, h := groups[j], GroupedHunks(groups)[k];
    && FirstNew(g.hunks[0]) <= FirstNew(h) <= LastNew(h) + 1 && LastNew(h) <= LastNew(LastHunk(g)) && FirstNew(h) - 1 <= LastNew(LastHunk(g))
    && (p > 0 ==> FirstNew(g.hunks[0]) - 1 <= LastNew(GroupedHunks(groups)[k - 1]))
  }

  lemma SeatInOwn(groups: seq<Group>, k: nat, j: nat, p: nat)
    requires Located(groups, k, j, p) && WellFormedHunks(groups[j].hunks)
    ensures WithinOwn(groups, k, j, p)
  {
    hide GroupedHunks, WellFormedHunks, FirstNew, LastNew;
    var own := groups[j].hunks;
    HunksAscend(own, 0, p);
    HunksAscend(own, p, p);
    HunksAscend(own, p, |own| - 1);
    if p > 0 {
      HunksAscend(own, 0, p - 1);
    }
  }

  /** Where the leading pad of a group's first hunk starts. */
  ghost predicate Behind(groups: seq<Group>, hs: seq<Hunk>, size: nat, n: nat, nAfter: nat, spans: seq<Span>, k: nat, j: nat)
    requires k < |hs| && j < |groups|
  {
    var g, h := groups[j], hs[k];
    || g.leadStart == LeadStart(h, n, spans)
    || (k > 0 && g.leadStart == Max(LeadStart(h, n, spans), TrailEnd(hs[k - 1], size, nAfter) + 1)
        && !(Reaches(hs[k - 1], h, size, n, nAfter, spans) && Fillable(h, size)))
  }

  lemma SeatBehind(groups: seq<Group>, hs: seq<Hunk>, content: Text, n: nat, nAfter: nat, spans: seq<Span>, k: nat, j: nat, p: nat)
    requires Set(groups, hs, content, n, nAfter, spans) && GroupedHunks(groups) == hs && Located(groups, k, j, p)
    ensures p == 0 ==> Behind(groups, hs, |content|, n, nAfter, spans, k, j)
  {
    hide GroupedHunks, WellFormedHunks, FirstNew, LastNew, ConsistentAndOrdered, RenderedAll, GroupsOk, Reaches, Fillable, LeadStart, TrailEnd;
    if p == 0 && j > 0 {
      assert Apart(groups[j - 1], groups[j], |content|, n, nAfter, spans);
    }
  }

  lemma IsSeated(groups: seq<Group>, hs: seq<Hunk>, size: nat, n: nat, nAfter: nat, spans: seq<Span>, k: nat, j: nat, p: nat)
    requires Located(groups, k, j, p) && GroupedHunks(groups) == hs && WithinOwn(groups, k, j, p)
    requires p == 0 ==> Behind(groups, hs, size, n, nAfter, spans, k, j)
    ensures k < |hs| && j < |groups| && groups[j].hunks != [] && Seated(groups, hs, size, n, nAfter, spans, k, j)
  {
    hide GroupedHunks, FirstNew, LastNew, Reaches, Fillable, LeadStart, TrailEnd;
  }

  /** A hunk's own new lines are shown. */
  lemma OwnShown(path: string, groups: seq<Group>, hs: seq<Hunk>, content: Text, n: nat, nAfter: nat, spans: seq<Span>, k: nat, m: nat)
    requires Set(groups, hs, content, n, nAfter, spans) && k < |hs| && FirstNew(hs[k]) <= m <= LastNew(hs[k])
    ensures ShowsLine(WalkHunks(path, RenderedAll(groups, content, nAfter)), m)
  {
    hide Set, WalkHunks, ShowsLine, RenderedAll, LeadStart, TrailEnd, Fillable, Reaches, FirstNew, LastNew;
    var j := Seat(groups, hs, content, n, nAfter, spans, k);
    GroupShows(path, groups, hs, content, n, nAfter, spans, j, m);
  }

  /** Between a hunk and the one before it, whatever its leading pad reaches is shown. */
  lemma BeforeShown(path: string, groups: seq<Group>, hs: seq<Hunk>, content: Text, n: nat, nAfter: nat, spans: seq<Span>, k: nat, m: nat)
    requires Set(groups, hs, content, n, nAfter, spans) && k < |hs| && Fillable(hs[k], |content|)
    requires LeadStart(hs[k], n, spans) <= m < FirstNew(hs[k]) && (k > 0 ==> LastNew(hs[k - 1]) < m)
    ensures ShowsLine(WalkHunks(path, RenderedAll(groups, content, nAfter)), m)
  {
    hide Set, WalkHunks, ShowsLine, RenderedAll, LeadStart, TrailEnd, Fillable, FirstNew, LastNew;
    var j := Seat(groups, hs, content, n, nAfter, spans, k);
    GroupShows(path, groups, hs, content, n, nAfter, spans, j, m);
  }

  /** After a hunk, as far as its trailing pad goes. */
  lemma AfterShown(path: string, groups: seq<Group>, hs: seq<Hunk>, content: Text, n: nat, nAfter: nat, spans: seq<Span>, k: nat, m: nat)
    requires Set(groups, hs, content, n, nAfter, spans) && k < |hs|
    requires LastNew(hs[k]) < m <= |content| && m <= LastNew(hs[k]) + nAfter
    ensures ShowsLine(WalkHunks(path, RenderedAll(groups, content, nAfter)), m)
  {
    hide Set, WalkHunks, ShowsLine, RenderedAll, LeadStart, Fillable, Reaches, FirstNew, LastNew;
    var j := Seat(groups, hs, content, n, nAfter, spans, k);
    GroupShows(path, groups, hs, content, n, nAfter, spans, j, m);
  }

  // ---------------------------------------------------------------------
  // The windows
  // ---------------------------------------------------------------------

  /** The line before the patch has a counterpart in the old file, or is not before it. */
  predicate HasOldLine(hs: seq<Hunk>, m: nat)
    requires hs != []
  {
    FirstNew(hs[0]) - m <= FirstOld(hs[0]) - 1
  }

  /** A line between two hunks always has one. */
  lemma BetweenHasOldLine(hs: seq<Hunk>, k: nat, m: nat)
    requires WellFormedHunks(hs) && k < |hs| && HasOldLine(hs, m) && m < FirstNew(hs[k]) && (k > 0 ==> LastNew(hs[k - 1]) < m)
    ensures FirstNew(hs[k]) - (FirstOld(hs[k]) - 1) <= m
  {
    if k > 0 {
      assert WellFormed(hs[k - 1]) && Follows(hs[k - 1], hs[k]);
    }
  }

  /** The `n` lines before a hunk are shown, through however many hunks before it. */
  lemma {:induction false} WindowShown(path: string, groups: seq<Group>, hs: seq<Hunk>, content: Text, n: nat, nAfter: nat, spans: seq<Span>,
                                       k: nat, m: nat)
    requires Set(groups, hs, content, n, nAfter, spans) && k < |hs| && Fillable(hs[k], |content|)
    requires 1 <= m && FirstNew(hs[k]) - n <= m < FirstNew(hs[k]) && HasOldLine(hs, m)
    ensures ShowsLine(WalkHunks(path, RenderedAll(groups, content, nAfter)), m)
    decreases k
  {
    hide RenderedAll, WalkHunks, GroupsOk, ConsistentAndOrdered, ShowsLine, Grouped;
    if k == 0 || LastNew(hs[k - 1]) < m {
      BetweenHasOldLine(hs, k, m);
      BeforeShown(path, groups, hs, content, n, nAfter, spans, k, m);
    } else if FirstNew(hs[k - 1]) <= m {
      OwnShown(path, groups, hs, content, n, nAfter, spans, k - 1, m);
    } else {
      HunksAscend(hs, k - 1, k);
      WindowShown(path, groups, hs, content, n, nAfter, spans, k - 1, m);
    }
  }

  /** `spans[p]` is the innermost definition around the hunk's first line, and starts at most 40 lines above it. */
  ghost predicate Innermost(spans: seq<Span>, p: nat, line: nat) {
    && p < |spans| && spans[p].0 <= line <= spans[p].1 && line - spans[p].0 <= 40
    && forall q :: p < q < |spans| ==> !(spans[q].0 <= line <= spans[q].1 && line - spans[q].0 <= 40)
  }

  lemma InnermostEncloses(spans: seq<Span>, p: nat, line: nat)
    requires Innermost(spans, p, line)
    ensures Enclosing(spans, line) == Some(spans[p].0)
  {
    forall q | p < q < |spans|
      ensures !Encloses(spans[q], line)
    {
    }
    EnclosingSkips(spans, p + 1, line);
    assert spans[..p + 1][p] == spans[p];
  }

  /** What an expanded patch shows before hunk `k`, after it and of it. */
  ghost predicate PadsShown(hs: seq<Hunk>, content: Text, n: int, after: int, spans: seq<Span>, ws: seq<Walked>, k: nat, m: nat)
    requires k < |hs|
  {
    var h := hs[k];
    && (FirstNew(h) - 1 <= |content| && 1 <= m && FirstNew(h) - n <= m < FirstNew(h) && HasOldLine(hs, m) ==> ShowsLine(ws, m))
    && (FirstNew(h) - 1 <= |content| && m < FirstNew(h) && HasOldLine(hs, m) && (k > 0 ==> LastNew(hs[k - 1]) < m) ==>
          DefinitionReaches(spans, FirstNew(h), m) ==> ShowsLine(ws, m))
    && (LastNew(h) < m <= |content| && m <= LastNew(h) + after ==> ShowsLine(ws, m))
    && (FirstNew(h) <= m <= LastNew(h) ==> ShowsLine(ws, m))
  }

  /** The innermost definition around the line starts at line `m` or above. */
  ghost predicate DefinitionReaches(spans: seq<Span>, line: nat, m: nat) {
    exists p: nat :: Innermost(spans, p, line) && spans[p].0 <= m
  }

  /**
    What an expanded patch shows around hunk `k` when there is anything to pad with:

    - if the head text reaches the line before it, the `n` lines before it, as far
      as the file starts and the old file has a line for them;
    - in that case too the lines back to the start of the innermost definition
      around it, as far as the hunk before it;
    - the `after` lines after it, as far as the head text goes;
    - and its own.
   */
  lemma PadsAreShown(path: string, patch: seq<Line>, content: Text, n: int, after: int, spans: seq<Span>,
                     out: seq<Line>, groups: seq<Group>, k: nat, m: nat)
    requires CleanPatch(path, patch) && WellFormedHunks(HunksOf(patch)) && SortedSpans(spans) && CleanPatch(path, out)
    requires Expansion(patch, content, n, after, spans, out, groups)
    requires n > 0 && content != [] && k < |HunksOf(patch)|
    ensures PadsShown(HunksOf(patch), content, n, after, spans, Walk(INIT, out), k, m)
  {
    hide HunksOf, PreambleOf, RenderedAll, Walk, WalkHunks, WellFormedHunks, FromHead, CleanPatch, ConsistentAndOrdered, PadsShown, GroupsOk, Grouped;
    var hs, nAfter := HunksOf(patch), Max(0, after) as nat;
    SetOf(groups, hs, content, n, nAfter, spans);
    CleanChanges(INIT, path, out);
    GroupsShow(path, groups, hs, content, n, nAfter, after, spans, k, m);
  }

  lemma GroupsShow(path: string, groups: seq<Group>, hs: seq<Hunk>, content: Text, n: nat, nAfter: nat, after: int, spans: seq<Span>,
                   k: nat, m: nat)
    requires Set(groups, hs, content, n, nAfter, spans) && k < |hs| && nAfter == Max(0, after)
    ensures PadsShown(hs, content, n, after, spans, WalkHunks(path, RenderedAll(groups, content, nAfter)), k, m)
  {
    hide RenderedAll, WalkHunks, Set, ShowsLine, LeadStart, HasOldLine, FirstNew, LastNew;
    var h := hs[k];
    if FirstNew(h) - 1 <= |content| && 1 <= m && FirstNew(h) - n <= m < FirstNew(h) && HasOldLine(hs, m) {
      WindowShown(path, groups, hs, content, n, nAfter, spans, k, m);
    }
    if FirstNew(h) - 1 <= |content| && m < FirstNew(h) && HasOldLine(hs, m) && (k > 0 ==> LastNew(hs[k - 1]) < m)
       && DefinitionReaches(spans, FirstNew(h), m) {
      DefinitionShown(path, groups, hs, content, n, nAfter, spans, k, m);
    }
    if LastNew(h) < m <= |content| && m <= LastNew(h) + after {
      AfterShown(path, groups, hs, content, n, nAfter, spans, k, m);
    }
    if FirstNew(h) <= m <= LastNew(h) {
      OwnShown(path, groups, hs, content, n, nAfter, spans, k, m);
    }
  }

  lemma DefinitionShown(path: string, groups: seq<Group>, hs: seq<Hunk>, content: Text, n: nat, nAfter: nat, spans: seq<Span>,
                        k: nat, m: nat)
    requires Set(groups, hs, content, n, nAfter, spans) && k < |hs| && Fillable(hs[k], |content|)
    requires m < FirstNew(hs[k]) && HasOldLine(hs, m) && (k > 0 ==> LastNew(hs[k - 1]) < m)
    requires DefinitionReaches(spans, FirstNew(hs[k]), m)
    ensures ShowsLine(WalkHunks(path, RenderedAll(groups, content, nAfter)), m)
  {
    hide RenderedAll, WalkHunks, ShowsLine, LeadStart, HasOldLine, FirstNew, LastNew, Grouped, GroupsOk, WellFormedHunks;
    var p: nat :| Innermost(spans, p, FirstNew(hs[k])) && spans[p].0 <= m;
    InnermostEncloses(spans, p, FirstNew(hs[k]));
    BetweenHasOldLine(hs, k, m);
    LeadReaches(hs[k], n, spans, m, spans[p].0);
    BeforeShown(path, groups, hs, content, n, nAfter, spans, k, m);
  }

  lemma {:induction false} NewLinesFrom(path: string, hs: seq<Hunk>, n: nat)
    requires forall i :: 0 <= i < |hs| ==> BodyOk(hs[i].body) && hs[i].header.newStart >= n
    ensures forall w :: w in WalkHunks(path, hs) ==> w.newLine >= n
  {
    hide Walk;
    if hs != [] {
      WalkFrom(path, hs[0].header.oldStart, hs[0].header.newStart, hs[0].body);
      NewLinesFrom(path, hs[1..], n);
    }
  }

  /** The limit is exact: no line before the patch's first hunk is shown without a line of the old file for it. */
  lemma ShownHasOldLine(path: string, patch: seq<Line>, content: Text, n: int, after: int, spans: seq<Span>,
                        out: seq<Line>, groups: seq<Group>, m: nat)
    requires CleanPatch(path, patch) && WellFormedHunks(HunksOf(patch)) && SortedSpans(spans) && CleanPatch(path, out)
    requires Expansion(patch, content, n, after, spans, out, groups)
    requires n > 0 && content != [] && HunksOf(patch) != [] && m < FirstNew(HunksOf(patch)[0])
    ensures ShowsLine(Walk(INIT, out), m) ==> HasOldLine(HunksOf(patch), m)
  {
    hide HunksOf, PreambleOf, RenderedAll, Walk, WalkHunks, WellFormedHunks, FromHead, CleanPatch, ConsistentAndOrdered, GroupsOk, Grouped;
    var hs, nAfter := HunksOf(patch), Max(0, after) as nat;
    SetOf(groups, hs, content, n, nAfter, spans);
    CleanChanges(INIT, path, out);
    FirstPadHasOldLine(path, groups, hs, content, n, nAfter, spans, m);
  }

  lemma FirstPadHasOldLine(path: string, groups: seq<Group>, hs: seq<Hunk>, content: Text, n: nat, nAfter: nat, spans: seq<Span>, m: nat)
    requires Set(groups, hs, content, n, nAfter, spans) && hs != [] && m < FirstNew(hs[0])
    ensures ShowsLine(WalkHunks(path, RenderedAll(groups, content, nAfter)), m) ==> HasOldLine(hs, m)
  {
    hide Rendered, Leading, WellFormedHunks, WalkHunks, LeadStart, Grouped, GroupedHunks, Renderable;
    var all := RenderedAll(groups, content, nAfter);
    FirstHunkOf(groups, hs, content, n, nAfter, spans);
    RenderedStarts(groups[0], content, nAfter);
    NewLinesFrom(path, all, all[0].header.newStart);
  }

  lemma FirstHunkOf(groups: seq<Group>, hs: seq<Hunk>, content: Text, n: nat, nAfter: nat, spans: seq<Span>)
    requires Set(groups, hs, content, n, nAfter, spans) && hs != []
    ensures groups != [] && groups[0].hunks != [] && groups[0].hunks[0] == hs[0]
  {
    hide GroupsOk, ConsistentAndOrdered, WellFormedHunks, RenderedAll;
    assert groups != [];
  }

  lemma LeadReaches(h: Hunk, n: nat, spans: seq<Span>, m: nat, start: nat)
    requires Enclosing(spans, FirstNew(h)) == Some(start) && start <= m && FirstNew(h) - (FirstOld(h) - 1) <= m
    ensures LeadStart(h, n, spans) <= m
  {
  }

  lemma SetOf(groups: seq<Group>, hs: seq<Hunk>, content: Text, n: nat, nAfter: nat, spans: seq<Span>)
    requires Grouped(groups, hs, |content|, n, nAfter, spans) && GroupsOk(groups, |content|)
    requires WellFormedHunks(hs) && SortedSpans(spans) && ConsistentAndOrdered(RenderedAll(groups, content, nAfter))
    ensures Set(groups, hs, content, n, nAfter, spans)
  {
    hide WellFormedHunks, ConsistentAndOrdered, RenderedAll, Renderable;
    forall j | 0 <= j < |groups|
      ensures groups[j].hunks != []
    {
      assert GroupOk(groups[j], |content|, n, nAfter, spans);
    }
    GroupsWellFormed(groups);
  }

  // ---------------------------------------------------------------------
  // Nothing else is shown
  // ---------------------------------------------------------------------

  lemma {:induction false} WalkedWithin(path: string, o: nat, n: nat, body: seq<Line>)
    requires BodyOk(body)
    ensures forall w :: w in Walk(At(path, o, n), body) && w.mark in {Plus, Space} ==> n <= w.newLine < n + NewLen(body)
    decreases |body|
  {
    if body != [] {
      var l := body[0];
      assert IsBody(l);
      assert Step(At(path, o, n), l) == At(path, o + OldCount(l), n + NewCount(l));
      WalkedWithin(path, o + OldCount(l), n + NewCount(l), body[1..]);
    }
  }

  lemma {:induction false} ShownBySome(path: string, hs: seq<Hunk>, m: nat) returns (j: nat)
    requires (forall i :: 0 <= i < |hs| ==> Consistent(hs[i])) && ShowsLine(WalkHunks(path, hs), m)
    ensures j < |hs| && hs[j].header.newStart <= m < hs[j].header.newStart + hs[j].header.newLen
  {
    hide Walk;
    var w :| w in WalkHunks(path, hs) && w.newLine == m && (w.mark == Plus || w.mark == Space);
    if w in WalkHunk(path, hs[0]) {
      j := 0;
      WalkedWithin(path, hs[0].header.oldStart, hs[0].header.newStart, hs[0].body);
    } else {
      assert ShowsLine(WalkHunks(path, hs[1..]), m);
      j := ShownBySome(path, hs[1..], m);
      j := j + 1;
    }
  }

  /** The line is one of the hunk's own, in the window before it or after it, or in the definition around it. */
  ghost predicate InWindow(h: Hunk, size: nat, n: nat, nAfter: nat, spans: seq<Span>, m: nat) {
    || FirstNew(h) <= m <= LastNew(h)
    || (m < FirstNew(h) && (FirstNew(h) - n <= m || DefinitionReaches(spans, FirstNew(h), m)))
    || (LastNew(h) < m <= size && m <= LastNew(h) + nAfter)
  }

  lemma {:induction false} EnclosingIsInnermost(spans: seq<Span>, line: nat) returns (p: nat)
    requires Enclosing(spans, line).Some?
    ensures Innermost(spans, p, line) && spans[p].0 == Enclosing(spans, line).value
    decreases |spans|
  {
    p := |spans| - 1;
    if !Encloses(spans[p], line) {
      p := EnclosingIsInnermost(spans[..p], line);
    }
  }

  lemma LeadIsWindow(h: Hunk, size: nat, n: nat, nAfter: nat, spans: seq<Span>, m: nat)
    requires LeadStart(h, n, spans) <= m < FirstNew(h)
    ensures InWindow(h, size, n, nAfter, spans, m)
  {
    if Enclosing(spans, FirstNew(h)).Some? {
      var p := EnclosingIsInnermost(spans, FirstNew(h));
    }
  }

  /** Of a group's hunks, from the first on, some window holds the line. */
  lemma {:induction false} WindowOf(own: seq<Hunk>, size: nat, n: nat, nAfter: nat, spans: seq<Span>, m: nat) returns (h: Hunk)
    requires own != [] && WellFormedHunks(own) && FirstNew(own[0]) <= m <= Max(LastNew(own[|own| - 1]), TrailEnd(own[|own| - 1], size, nAfter))
    requires forall i, j :: 0 <= i < j < |own| && j == i + 1 ==> Joins(own[i], own[j], size, n, nAfter, spans)
    ensures h in own && InWindow(h, size, n, nAfter, spans, m)
    decreases |own|
  {
    hide LeadStart, InWindow, WellFormedHunks;
    var last := own[|own| - 1];
    if FirstNew(last) <= m || |own| == 1 {
      h := last;
      AtOrAfter(h, size, n, nAfter, spans, m);
    } else {
      var front, before := own[..|own| - 1], own[|own| - 2];
      assert Joins(before, last, size, n, nAfter, spans);
      if LeadStart(last, n, spans) <= m {
        h := last;
        LeadIsWindow(h, size, n, nAfter, spans, m);
      } else {
        assert m <= TrailEnd(before, size, nAfter);
        FrontWellFormed(own);
        h := WindowOf(front, size, n, nAfter, spans, m);
      }
    }
  }

  lemma FrontWellFormed(own: seq<Hunk>)
    requires |own| > 1 && WellFormedHunks(own)
    ensures WellFormedHunks(own[..|own| - 1])
  {
    assert own == own[..|own| - 1] + [own[|own| - 1]];
    WellFormedSplit(own[..|own| - 1], [own[|own| - 1]]);
  }

  lemma AtOrAfter(h: Hunk, size: nat, n: nat, nAfter: nat, spans: seq<Span>, m: nat)
    requires FirstNew(h) <= m <= Max(LastNew(h), TrailEnd(h, size, nAfter))
    ensures InWindow(h, size, n, nAfter, spans, m)
  {
  }

  lemma {:induction false} OfGroups(groups: seq<Group>, j: nat, h: Hunk)
    requires j < |groups| && h in groups[j].hunks
    ensures h in GroupedHunks(groups)
  {
    if j > 0 {
      OfGroups(groups[1..], j - 1, h);
    }
  }

  /** A line in the range of a rendered group is in a window of one of its hunks. */
  lemma GroupWindow(groups: seq<Group>, hs: seq<Hunk>, content: Text, n: nat, nAfter: nat, spans: seq<Span>, j: nat, m: nat) returns (h: Hunk)
    requires Set(groups, hs, content, n, nAfter, spans) && j < |groups|
    requires var r := RenderedAll(groups, content, nAfter)[j]; r.header.newStart <= m < r.header.newStart + r.header.newLen
    ensures h in hs && InWindow(h, |content|, n, nAfter, spans, m)
  {
    GroupFacts(groups, hs, content, n, nAfter, spans, j);
    GroupRange(groups, hs, content, n, nAfter, spans, j);
    hide *;
    var own := groups[j].hunks;
    if m < FirstNew(own[0]) {
      h := own[0];
      LeadIsWindow(h, |content|, n, nAfter, spans, m);
    } else {
      h := WindowOf(own, |content|, n, nAfter, spans, m);
    }
    OfGroups(groups, j, h);
  }

  lemma GroupFacts(groups: seq<Group>, hs: seq<Hunk>, content: Text, n: nat, nAfter: nat, spans: seq<Span>, j: nat)
    requires Set(groups, hs, content, n, nAfter, spans) && j < |groups|
    ensures var own := groups[j].hunks;
            && own != [] && WellFormedHunks(own) && GroupedHunks(groups) == hs
            && (forall a, b :: 0 <= a < b < |own| && b == a + 1 ==> Joins(own[a], own[b], |content|, n, nAfter, spans))
            && groups[j].leadStart >= LeadStart(own[0], n, spans)
  {
    hide WellFormedHunks, GroupsOk, ConsistentAndOrdered, RenderedAll, Joins, LeadStart, GroupedHunks;
    assert GroupOk(groups[j], |content|, n, nAfter, spans);
    if j > 0 {
      assert Apart(groups[j - 1], groups[j], |content|, n, nAfter, spans);
    }
  }

  /** The range of a rendered group. */
  lemma GroupRange(groups: seq<Group>, hs: seq<Hunk>, content: Text, n: nat, nAfter: nat, spans: seq<Span>, j: nat)
    requires Set(groups, hs, content, n, nAfter, spans) && j < |groups| && groups[j].hunks != []
    ensures var g, r := groups[j], RenderedAll(groups, content, nAfter)[j];
            var last := LastHunk(g);
            && (r.header.newStart >= FirstNew(g.hunks[0]) || r.header.newStart >= g.leadStart)
            && r.header.newStart + r.header.newLen <= Max(LastNew(last), TrailEnd(last, |content|, nAfter)) + 1
  {
    hide Rendered, Leading, Trailing, WellFormedHunks, Grouped, GroupedHunks;
    var g := groups[j];
    RenderedReads("", g, content, nAfter);
    LeadingSize(g, content);
    TrailingSize(LastHunk(g), content, nAfter);
    RenderedStarts(g, content, nAfter);
  }

  /** Every line an expanded patch shows is one of a hunk's own or in a window around one. */
  lemma NothingElseIsShown(path: string, patch: seq<Line>, content: Text, n: int, after: int, spans: seq<Span>,
                           out: seq<Line>, groups: seq<Group>, m: nat) returns (h: Hunk)
    requires CleanPatch(path, patch) && WellFormedHunks(HunksOf(patch)) && SortedSpans(spans) && CleanPatch(path, out)
    requires Expansion(patch, content, n, after, spans, out, groups)
    requires n > 0 && content != [] && HunksOf(patch) != [] && ShowsLine(Walk(INIT, out), m)
    ensures h in HunksOf(patch) && InWindow(h, |content|, n, Max(0, after), spans, m)
  {
    hide HunksOf, PreambleOf, RenderedAll, Walk, WalkHunks, WellFormedHunks, FromHead, CleanPatch, GroupsOk, Grouped, ShowsLine, InWindow;
    var hs, nAfter := HunksOf(patch), Max(0, after) as nat;
    SetOf(groups, hs, content, n, nAfter, spans);
    hide Set, ConsistentAndOrdered;
    CleanChanges(INIT, path, out);
    h := ShownInWindow(path, groups, hs, content, n, nAfter, spans, m);
  }

  lemma ShownInWindow(path: string, groups: seq<Group>, hs: seq<Hunk>, content: Text, n: nat, nAfter: nat, spans: seq<Span>, m: nat)
    returns (h: Hunk)
    requires Set(groups, hs, content, n, nAfter, spans) && ShowsLine(WalkHunks(path, RenderedAll(groups, content, nAfter)), m)
    ensures h in hs && InWindow(h, |content|, n, nAfter, spans, m)
  {
    hide WalkHunks, WellFormedHunks, Grouped, ShowsLine, InWindow, Rendered, Renderable;
    var j := ShownBySome(path, RenderedAll(groups, content, nAfter), m);
    h := GroupWindow(groups, hs, content, n, nAfter, spans, j, m);
  }

  /** Where the head text reaches every hunk, the hunks of an expanded patch stand a line apart at least: pads that meet were merged. */
  lemma ExpandedHunksAreApart(path: string, patch: seq<Line>, content: Text, n: int, after: int, spans: seq<Span>,
                              out: seq<Line>, groups: seq<Group>, i: nat)
    requires CleanPatch(path, patch) && WellFormedHunks(HunksOf(patch)) && SortedSpans(spans) && CleanPatch(path, out)
    requires Expansion(patch, content, n, after, spans, out, groups)
    requires n > 0 && content != [] && i + 1 < |HunksOf(out)| && HunksOf(patch) != []
    requires forall h :: h in HunksOf(patch) ==> FirstNew(h) - 1 <= |content|
    ensures var a, b := HunksOf(out)[i].header, HunksOf(out)[i + 1].header; a.newStart + a.newLen < b.newStart
  {
    hide HunksOf, PreambleOf, RenderedAll, Walk, WalkHunks, WellFormedHunks, FromHead, CleanPatch, GroupsOk, Grouped, ConsistentAndOrdered, FirstNew;
    var hs, nAfter := HunksOf(patch), Max(0, after) as nat;
    SetOf(groups, hs, content, n, nAfter, spans);
    GroupsAreApart(groups, hs, content, n, nAfter, spans, i);
  }

  lemma FirstIsWellFormed(own: seq<Hunk>)
    requires own != [] && WellFormedHunks(own)
    ensures WellFormed(own[0])
  {
  }

  lemma GroupsAreApart(groups: seq<Group>, hs: seq<Hunk>, content: Text, n: nat, nAfter: nat, spans: seq<Span>, i: nat)
    requires Set(groups, hs, content, n, nAfter, spans) && i + 1 < |groups| && forall h :: h in hs ==> Fillable(h, |content|)
    ensures var all := RenderedAll(groups, content, nAfter);
            |all| == |groups| && all[i].header.newStart + all[i].header.newLen < all[i + 1].header.newStart
  {
    hide Rendered, Leading, Trailing, WellFormedHunks, GroupedHunks, LeadStart;
    var a, b := groups[i], groups[i + 1];
    assert Apart(a, b, |content|, n, nAfter, spans);
    assert Renderable(a, |content|) && Renderable(b, |content|) && Follows(LastHunk(a), b.hunks[0]);
    OfGroups(groups, i + 1, b.hunks[0]);
    FirstIsWellFormed(b.hunks);
    LeadStartBounds(b.hunks[0], n, spans);
    RenderedReads("", a, content, nAfter);
    TrailingSize(LastHunk(a), content, nAfter);
    LeadingSize(b, content);
    RenderedStarts(b, content, nAfter);
  }
}
