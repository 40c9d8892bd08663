/** Hunk expansion as a whole: it preserves the meaning of a patch and keeps its hunks consistent and in order. */
module ExpandHunks {
  import opened Wrappers
  import opened DiffParse
  import opened Patches
  import opened Expand
  import opened Render

  /** The header counts the body and both sides start at line 1 or later. */
  predicate Consistent(h: Hunk) {
    && BodyOk(h.body)
    && h.header.oldLen == OldLen(h.body) && h.header.newLen == NewLen(h.body)
    && h.header.oldStart >= 1 && h.header.newStart >= 1
  }

  /** `b` starts, on both sides, at or after the line where `a` stops. */
  predicate Before(a: Hunk, b: Hunk) {
    && a.header.oldStart + a.header.oldLen <= b.header.oldStart
    && a.header.newStart + a.header.newLen <= b.header.newStart
  }

  ghost predicate ConsistentAndOrdered(hs: seq<Hunk>) {
    && (forall i :: 0 <= i < |hs| ==> Consistent(hs[i]))
    && (forall i, j :: 0 <= i < j < |hs| ==> Before(hs[i], hs[j]))
  }

  lemma WellFormedSplit(a: seq<Hunk>, b: seq<Hunk>)
    requires WellFormedHunks(a + b)
    ensures WellFormedHunks(a) && WellFormedHunks(b)
    ensures a != [] && b != [] ==> Follows(a[|a| - 1], b[0])
  {
    var hs := a + b;
    forall i | 0 <= i < |a|
      ensures WellFormed(a[i])
    {
      assert hs[i] == a[i];
    }
    forall i | 0 <= i < |b|
      ensures WellFormed(b[i])
    {
      assert hs[|a| + i] == b[i];
    }
    forall i, j | 0 <= i < j < |a| && j == i + 1
      ensures Follows(a[i], a[j])
    {
      assert hs[i] == a[i] && hs[j] == a[j];
    }
    forall i, j | 0 <= i < j < |b| && j == i + 1
      ensures Follows(b[i], b[j])
    {
      assert hs[|a| + i] == b[i] && hs[|a| + j] == b[j];
    }
    if a != [] && b != [] {
      assert hs[|a| - 1] == a[|a| - 1] && hs[|a|] == b[0];
    }
  }

  /** Each group can be rendered, and groups follow one another as their hunks do. */
  ghost predicate GroupsOk(groups: seq<Group>, size: nat) {
    && (forall i :: 0 <= i < |groups| ==> Renderable(groups[i], size))
    && (forall i, j :: 0 <= i < j < |groups| && j == i + 1 ==> Follows(LastHunk(groups[i]), groups[j].hunks[0]))
  }

  lemma {:induction false} GroupsWellFormed(groups: seq<Group>)
    requires forall i :: 0 <= i < |groups| ==> groups[i].hunks != []
    requires WellFormedHunks(GroupedHunks(groups))
    ensures forall i :: 0 <= i < |groups| ==> WellFormedHunks(groups[i].hunks)
    ensures forall i, j :: 0 <= i < j < |groups| && j == i + 1 ==> Follows(LastHunk(groups[i]), groups[j].hunks[0])
    decreases |groups|
  {
    if groups != [] {
      var rest := groups[1..];
      WellFormedSplit(groups[0].hunks, GroupedHunks(rest));
      GroupsWellFormed(rest);
      if rest != [] {
        assert GroupedHunks(rest)[0] == rest[0].hunks[0];
      }
      forall i, j | 0 <= i < j < |groups| && j == i + 1
        ensures Follows(LastHunk(groups[i]), groups[j].hunks[0])
      {
        if i > 0 {
          assert groups[i] == rest[i - 1] && groups[j] == rest[j - 1];
        }
      }
    }
  }

  lemma GroupRenderable(g: Group, size: nat, n: nat, nAfter: nat, spans: seq<Span>)
    requires GroupOk(g, size, n, nAfter, spans) && WellFormedHunks(g.hunks) && SortedSpans(spans)
    requires g.leadStart >= LeadStart(g.hunks[0], n, spans)
    ensures Renderable(g, size)
  {
    assert WellFormed(g.hunks[0]);
    LeadStartBounds(g.hunks[0], n, spans);
    forall j | 0 < j < |g.hunks|
      ensures Fillable(g.hunks[j], size)
    {
      assert Joins(g.hunks[j - 1], g.hunks[j], size, n, nAfter, spans);
    }
  }

  lemma GroupsRenderable(groups: seq<Group>, hunks: seq<Hunk>, size: nat, n: nat, nAfter: nat, spans: seq<Span>)
    requires Grouped(groups, hunks, size, n, nAfter, spans) && WellFormedHunks(hunks) && SortedSpans(spans)
    ensures GroupsOk(groups, size)
  {
    forall i | 0 <= i < |groups|
      ensures groups[i].hunks != []
    {
      assert GroupOk(groups[i], size, n, nAfter, spans);
    }
    GroupsWellFormed(groups);
    forall i | 0 <= i < |groups|
      ensures Renderable(groups[i], size)
    {
      if i > 0 {
        assert Apart(groups[i - 1], groups[i], size, n, nAfter, spans);
      }
      GroupRenderable(groups[i], size, n, nAfter, spans);
    }
  }

  function RenderedAll(groups: seq<Group>, content: Text, nAfter: nat): (hs: seq<Hunk>)
    requires forall i :: 0 <= i < |groups| ==> Renderable(groups[i], |content|)
    ensures |hs| == |groups| && forall i :: 0 <= i < |hs| ==> hs[i] == Rendered(groups[i], content, nAfter)
  {
    seq(|groups|, i requires 0 <= i < |groups| => Rendered(groups[i], content, nAfter))
  }

  lemma GroupConsistent(path: string, g: Group, content: Text, nAfter: nat)
    requires Renderable(g, |content|)
    ensures Consistent(Rendered(g, content, nAfter))
  {
    LeadingFits(g, content);
    RenderedReads(path, g, content, nAfter);
  }

  /** The pads of neighbouring groups do not meet, whether or not the head text reaches the later one. */
  lemma {:induction false} NeighboursOrdered(a: Group, b: Group, content: Text, n: nat, nAfter: nat, spans: seq<Span>)
    requires Renderable(a, |content|) && Renderable(b, |content|) && SortedSpans(spans)
    requires Follows(LastHunk(a), b.hunks[0])
    requires Apart(a, b, |content|, n, nAfter, spans)
    ensures Before(Rendered(a, content, nAfter), Rendered(b, content, nAfter))
  {
    hide Rendered, Leading, Trailing, WellFormedHunks;
    RenderedReads("", a, content, nAfter);
    LeadingFits(b, content);
    var last, first := LastHunk(a), b.hunks[0];
    assert WellFormed(first) by {
      RenderedReads("", b, content, nAfter);
    }
    LeadStartBounds(first, n, spans);
    var size := |content|;
    var t, k := |Trailing(last, content, nAfter)|, |Leading(b, content)|;
    TrailingSize(last, content, nAfter);
    LeadingSize(b, content);
    assert t + k <= FirstNew(first) - LastNew(last) - 1;
    RenderedStarts(b, content, nAfter);
  }

  lemma TrailingSize(last: Hunk, content: Text, nAfter: nat)
    requires WellFormed(last)
    ensures |Trailing(last, content, nAfter)|
         == if LastNew(last) <= |content| then TrailEnd(last, |content|, nAfter) - LastNew(last) else 0
  {
  }

  lemma LeadingSize(g: Group, content: Text)
    requires Renderable(g, |content|)
    ensures |Leading(g, content)| == LeadEnd(g, |content|) - Min(g.leadStart, LeadEnd(g, |content|))
  {
    assert WellFormed(g.hunks[0]);
  }

  lemma RenderedStarts(g: Group, content: Text, nAfter: nat)
    requires Renderable(g, |content|)
    ensures Rendered(g, content, nAfter).header.oldStart == FirstOld(g.hunks[0]) - |Leading(g, content)|
    ensures Rendered(g, content, nAfter).header.newStart == FirstNew(g.hunks[0]) - |Leading(g, content)|
  {
  }

  lemma {:induction false} OrderedThrough(hs: seq<Hunk>, i: nat, j: nat)
    requires forall i, j :: 0 <= i < j < |hs| && j == i + 1 ==> Before(hs[i], hs[j])
    requires i < j < |hs|
    ensures Before(hs[i], hs[j])
    decreases j - i
  {
    if i + 1 < j {
      OrderedThrough(hs, i, j - 1);
      assert Before(hs[j - 1], hs[j]);
    }
  }

  /** Every emitted header is true of its body, and the emitted hunks are in order and disjoint on both sides. */
  lemma {:induction false} ExpansionOrdered(groups: seq<Group>, hunks: seq<Hunk>, content: Text, n: nat, nAfter: nat, spans: seq<Span>)
    requires Grouped(groups, hunks, |content|, n, nAfter, spans) && WellFormedHunks(hunks) && SortedSpans(spans)
    requires GroupsOk(groups, |content|)
    ensures ConsistentAndOrdered(RenderedAll(groups, content, nAfter))
  {
    var hs := RenderedAll(groups, content, nAfter);
    forall i | 0 <= i < |hs|
      ensures Consistent(hs[i])
    {
      GroupConsistent("", groups[i], content, nAfter);
    }
    forall i, j | 0 <= i < j < |hs| && j == i + 1
      ensures Before(hs[i], hs[j])
    {
      assert Apart(groups[i], groups[j], |content|, n, nAfter, spans);
      NeighboursOrdered(groups[i], groups[j], content, n, nAfter, spans);
    }
    forall i, j | 0 <= i < j < |hs|
      ensures Before(hs[i], hs[j])
    {
      OrderedThrough(hs, i, j);
    }
  }

  lemma FromHeadJoin(a: seq<Walked>, b: seq<Walked>, oa: seq<Walked>, ob: seq<Walked>, content: Text)
    requires FromHead(a, oa, content) && FromHead(b, ob, content)
    ensures FromHead(a + b, oa + ob, content)
  {
  }

  /** Nothing is padded in front of the group, or the head text reaches the line before it. */
  ghost predicate LeadsRight(g: Group, content: Text)
    requires Renderable(g, |content|)
  {
    Leading(g, content) == [] || Fillable(g.hunks[0], |content|)
  }

  ghost predicate AllLeadRight(groups: seq<Group>, content: Text)
    requires forall i :: 0 <= i < |groups| ==> Renderable(groups[i], |content|)
  {
    forall i :: 0 <= i < |groups| ==> LeadsRight(groups[i], content)
  }

  lemma RenderedAllCons(groups: seq<Group>, content: Text, nAfter: nat)
    requires groups != [] && forall i :: 0 <= i < |groups| ==> Renderable(groups[i], |content|)
    ensures forall i :: 0 <= i < |groups[1..]| ==> Renderable(groups[1..][i], |content|)
    ensures RenderedAll(groups, content, nAfter)
         == [Rendered(groups[0], content, nAfter)] + RenderedAll(groups[1..], content, nAfter)
  {
    hide Renderable, Rendered;
  }

  lemma HunksChangesCons(path: string, h: Hunk, hs: seq<Hunk>)
    ensures HunksChanges(path, [h] + hs) == HunkChanges(path, h) + HunksChanges(path, hs)
    ensures WalkHunks(path, [h] + hs) == WalkHunk(path, h) + WalkHunks(path, hs)
  {
    DropFirst(h, hs);
  }

  lemma {:induction false} ExpansionChanges(path: string, groups: seq<Group>, content: Text, nAfter: nat)
    requires forall i :: 0 <= i < |groups| ==> Renderable(groups[i], |content|)
    ensures BodiesOk(RenderedAll(groups, content, nAfter))
    ensures HunksChanges(path, RenderedAll(groups, content, nAfter)) == HunksChanges(path, GroupedHunks(groups))
    decreases |groups|
  {
    if groups != [] {
      hide Renderable, Rendered, RenderedAll, HunksChanges, HunkChanges, WalkHunks, WalkHunk, Trailing, Leading, Fillable;
      RenderedAllCons(groups, content, nAfter);
      ExpansionChanges(path, groups[1..], content, nAfter);
      RenderedReads(path, groups[0], content, nAfter);
      HunksConcat(path, groups[0].hunks, GroupedHunks(groups[1..]));
      HunksChangesCons(path, Rendered(groups[0], content, nAfter), RenderedAll(groups[1..], content, nAfter));
    }
  }

  lemma {:induction false} ExpansionContext(path: string, groups: seq<Group>, content: Text, nAfter: nat)
    requires forall i :: 0 <= i < |groups| ==> Renderable(groups[i], |content|)
    requires AllLeadRight(groups, content)
    ensures FromHead(WalkHunks(path, RenderedAll(groups, content, nAfter)), WalkHunks(path, GroupedHunks(groups)), content)
    decreases |groups|
  {
    if groups != [] {
      assert LeadsRight(groups[0], content);
      hide Renderable, Rendered, FromHead;
      RenderedAllCons(groups, content, nAfter);
      ExpansionContext(path, groups[1..], content, nAfter);
      ContextIsRightIff(path, groups[0], content, nAfter);
      HunksConcat(path, groups[0].hunks, GroupedHunks(groups[1..]));
      HunksChangesCons(path, Rendered(groups[0], content, nAfter), RenderedAll(groups[1..], content, nAfter));
      FromHeadJoin(WalkHunk(path, Rendered(groups[0], content, nAfter)),
                   WalkHunks(path, RenderedAll(groups[1..], content, nAfter)),
                   WalkHunks(path, groups[0].hunks), WalkHunks(path, GroupedHunks(groups[1..])), content);
    } else {
      assert WalkHunks(path, []) == [];
    }
  }

  lemma {:induction false} GroupedSplit(groups: seq<Group>, i: nat)
    requires i <= |groups|
    ensures GroupedHunks(groups) == GroupedHunks(groups[..i]) + GroupedHunks(groups[i..])
  {
    if i > 0 {
      GroupedSplit(groups[1..], i - 1);
      assert groups[1..][..i - 1] == groups[..i][1..] && groups[1..][i - 1..] == groups[i..];
      Assoc(groups[0].hunks, GroupedHunks(groups[1..i]), GroupedHunks(groups[i..]));
    } else {
      assert groups[..0] == [] && groups[0..] == groups;
    }
  }

  lemma {:induction false} WalkedByOne(path: string, hs: seq<Hunk>, i: nat, w: Walked)
    requires i < |hs| && w in WalkHunk(path, hs[i])
    ensures w in WalkHunks(path, hs)
  {
    hide WalkHunk;
    if i > 0 {
      WalkedByOne(path, hs[1..], i - 1, w);
    }
  }

  /** Between the hunks before a group and the group's own first hunk no hunk has a context line. */
  lemma NoContextBetween(path: string, groups: seq<Group>, i: nat, w: Walked)
    requires i < |groups| && (forall k :: 0 <= k < |groups| ==> groups[k].hunks != []) && WellFormedHunks(GroupedHunks(groups))
    requires w.mark == Space && w.newLine < FirstNew(groups[i].hunks[0])
    requires i > 0 ==> LastNew(LastHunk(groups[i - 1])) < w.newLine
    ensures w !in WalkHunks(path, GroupedHunks(groups))
  {
    hide WalkHunk, WalkHunks, WellFormedHunks, HunksChanges, FirstNew, LastNew, GroupedHunks;
    var a, b := GroupedHunks(groups[..i]), GroupedHunks(groups[i..]);
    GroupedSplit(groups, i);
    WellFormedSplit(a, b);
    HunksConcat(path, a, b);
    GroupedHead(groups[i..]);
    HunksFromLine(path, b);
    if i > 0 {
      TakeNext(groups, i - 1);
      GroupedSnoc(groups[..i - 1], groups[i - 1]);
      HunksUpToLine(path, a);
    } else {
      NothingWalked(path);
    }
  }

  lemma GroupedHead(groups: seq<Group>)
    requires groups != [] && groups[0].hunks != []
    ensures GroupedHunks(groups) != [] && GroupedHunks(groups)[0] == groups[0].hunks[0]
  {
  }

  lemma NothingWalked(path: string)
    ensures WalkHunks(path, GroupedHunks([])) == []
  {
  }

  /** A group whose leading pad is off puts the whole output off: no original line stands where its last pad line does. */
  lemma {:induction false} OneLeadOff(path: string, groups: seq<Group>, content: Text, nAfter: nat, i: nat)
    requires GroupsOk(groups, |content|) && WellFormedHunks(GroupedHunks(groups))
    requires ConsistentAndOrdered(RenderedAll(groups, content, nAfter))
    requires i < |groups| && !LeadsRight(groups[i], content)
    ensures !FromHead(WalkHunks(path, RenderedAll(groups, content, nAfter)), WalkHunks(path, GroupedHunks(groups)), content)
  {
    hide Rendered, WalkHunk, WalkHunks, FromHead, HeadLine, WellFormedHunks, Leading, Trailing, GroupedHunks;
    var hs := RenderedAll(groups, content, nAfter);
    var w := LastLeadIsOff(path, groups[i], content, nAfter);
    WalkedByOne(path, hs, i, w);
    if i > 0 {
      assert Before(hs[i - 1], hs[i]);
      RenderedReads(path, groups[i - 1], content, nAfter);
      RenderedStarts(groups[i], content, nAfter);
    }
    NoContextBetween(path, groups, i, w);
    OffLineShows(WalkHunks(path, hs), WalkHunks(path, GroupedHunks(groups)), content, w);
  }

  /**
    Every context line of the output is the patch's own or the head line at its
    number, if and only if every group has nothing padded in front of it or is
    reached by the head text.
   */
  lemma {:induction false} ExpansionContextIff(path: string, groups: seq<Group>, content: Text, nAfter: nat)
    requires GroupsOk(groups, |content|) && WellFormedHunks(GroupedHunks(groups))
    requires ConsistentAndOrdered(RenderedAll(groups, content, nAfter))
    ensures FromHead(WalkHunks(path, RenderedAll(groups, content, nAfter)), WalkHunks(path, GroupedHunks(groups)), content)
       <==> AllLeadRight(groups, content)
  {
    hide Renderable, WalkHunks, FromHead, WellFormedHunks, ConsistentAndOrdered, LeadsRight, GroupedHunks;
    if AllLeadRight(groups, content) {
      ExpansionContext(path, groups, content, nAfter);
    } else {
      var i :| 0 <= i < |groups| && !LeadsRight(groups[i], content);
      OneLeadOff(path, groups, content, nAfter, i);
    }
  }

  lemma {:induction false} GroupHeadsAreHunks(groups: seq<Group>, i: nat)
    requires i < |groups| && forall k :: 0 <= k < |groups| ==> groups[k].hunks != []
    ensures groups[i].hunks[0] in GroupedHunks(groups)
    decreases i
  {
    if i > 0 {
      GroupHeadsAreHunks(groups[1..], i - 1);
    }
  }

  lemma {:induction false} WholeExpansion(path: string, patch: seq<Line>, groups: seq<Group>, content: Text, n: nat, nAfter: nat, spans: seq<Span>)
    returns (out: seq<Line>)
    requires CleanPatch(path, patch) && WellFormedHunks(HunksOf(patch)) && HunksOf(patch) != [] && SortedSpans(spans)
    requires Grouped(groups, HunksOf(patch), |content|, n, nAfter, spans)
    ensures GroupsOk(groups, |content|)
    ensures out == PreambleOf(patch) + HunksLines(RenderedAll(groups, content, nAfter))
    ensures CleanPatch(path, out) && Changes(out) == Changes(patch)
    ensures PreambleOf(out) == PreambleOf(patch) && HunksOf(out) == RenderedAll(groups, content, nAfter)
    ensures ConsistentAndOrdered(HunksOf(out))
    ensures FromHead(Walk(INIT, out), Walk(INIT, patch), content) <==> AllLeadRight(groups, content)
  {
    hide Grouped, WellFormedHunks, GroupsOk, HunksOf, PreambleOf, HunksLines, HunksChanges, WalkHunks, FromHead, Rendered;
    var pre, hunks := PreambleOf(patch), HunksOf(patch);
    GroupsRenderable(groups, hunks, |content|, n, nAfter, spans);
    RenderableGroups(groups, hunks, |content|, n, nAfter, spans);
    var hs := RenderedAll(groups, content, nAfter);
    out := pre + HunksLines(hs);
    ExpansionChanges(path, groups, content, nAfter);
    MakeClean(path, pre, hs);
    CleanChanges(INIT, path, out);
    CleanChanges(INIT, path, patch);
    ExpansionOrdered(groups, hunks, content, n, nAfter, spans);
    ExpansionContextIff(path, groups, content, nAfter);
  }

  lemma RenderableGroups(groups: seq<Group>, hunks: seq<Hunk>, size: nat, n: nat, nAfter: nat, spans: seq<Span>)
    requires GroupsOk(groups, size) && Grouped(groups, hunks, size, n, nAfter, spans)
    ensures GroupedHunks(groups) == hunks
    ensures forall i :: 0 <= i < |groups| ==> Renderable(groups[i], size) && groups[i].hunks != []
  {
    forall i | 0 <= i < |groups|
      ensures groups[i].hunks != []
    {
      assert GroupOk(groups[i], size, n, nAfter, spans);
    }
  }

  /** With no pad to add or no head text there is nothing to do. */
  predicate Expands(patch: seq<Line>, content: Text, n: int) {
    n > 0 && content != [] && HunksOf(patch) != []
  }

  /** What padding makes of a patch: the grouped, padded hunks, consistent and in order, with context from the head text. */
  ghost predicate Expansion(patch: seq<Line>, content: Text, n: int, after: int, spans: seq<Span>,
                            out: seq<Line>, groups: seq<Group>) {
    && GroupsOk(groups, |content|)
    && (!Expands(patch, content, n) ==> out == patch && groups == [])
    && (Expands(patch, content, n) ==>
          && Grouped(groups, HunksOf(patch), |content|, n, Max(0, after), spans)
          && PreambleOf(out) == PreambleOf(patch)
          && HunksOf(out) == RenderedAll(groups, content, Max(0, after))
          && ConsistentAndOrdered(HunksOf(out)))
    && (FromHead(Walk(INIT, out), Walk(INIT, patch), content) <==> AllLeadRight(groups, content))
  }

  lemma NothingExpanded(patch: seq<Line>, content: Text, n: int, after: int, spans: seq<Span>)
    requires !Expands(patch, content, n)
    ensures Expansion(patch, content, n, after, spans, patch, [])
  {
    hide Expands, Walk;
  }

  lemma ExpandsIs(patch: seq<Line>, content: Text, n: int)
    ensures Expands(patch, content, n) <==> n > 0 && content != [] && HunksOf(patch) != []
  {
  }

  lemma SomethingExpanded(patch: seq<Line>, content: Text, n: int, after: int, spans: seq<Span>, out: seq<Line>, groups: seq<Group>)
    requires Expands(patch, content, n) && Grouped(groups, HunksOf(patch), |content|, n, Max(0, after), spans)
    requires GroupsOk(groups, |content|) && PreambleOf(out) == PreambleOf(patch)
    requires HunksOf(out) == RenderedAll(groups, content, Max(0, after)) && ConsistentAndOrdered(HunksOf(out))
    requires FromHead(Walk(INIT, out), Walk(INIT, patch), content) <==> AllLeadRight(groups, content)
    ensures Expansion(patch, content, n, after, spans, out, groups)
  {
    hide Expands, Grouped, Walk, FromHead, LeadsRight, HunksOf, PreambleOf, ConsistentAndOrdered;
  }

  /** So it is when the head text reaches the line before every hunk. */
  lemma ReachedEverywhere(patch: seq<Line>, content: Text, n: int, after: int, spans: seq<Span>, out: seq<Line>, groups: seq<Group>)
    requires Expansion(patch, content, n, after, spans, out, groups) && Expands(patch, content, n)
    requires forall h :: h in HunksOf(patch) ==> Fillable(h, |content|)
    ensures FromHead(Walk(INIT, out), Walk(INIT, patch), content)
  {
    hide HunksOf, PreambleOf, RenderedAll, Leading, Walk, FromHead, ConsistentAndOrdered;
    forall i | 0 <= i < |groups|
      ensures LeadsRight(groups[i], content)
    {
      GroupHeadsAreHunks(groups, i);
    }
  }

  /**
    `expand_hunks`. For every well-formed patch of one file, any head text (even
    one shorter than the hunk positions), any pads and any sorted spans:

    - the output changes exactly what the patch changes, at the same numbers;
    - the emitted hunks are the grouped, padded ones, consistent and in order;
    - each context line is the patch's own or the head line at the number the walk
      assigns it, if and only if every group has nothing padded in front of it or
      the head text reaches the line before it.
   */
  method ExpandHunks(ghost path: string, patch: seq<Line>, content: Text, n: int, after: int, spans: seq<Span>)
    returns (out: seq<Line>, ghost groups: seq<Group>)
    requires CleanPatch(path, patch) && WellFormedHunks(HunksOf(patch)) && SortedSpans(spans)
    ensures CleanPatch(path, out) && Changes(out) == Changes(patch)
    ensures Expansion(patch, content, n, after, spans, out, groups)
  {
    var nAfter: nat := Max(0, after);
    hide *;
    groups := [];
    if !Expands(patch, content, n) {
      NothingExpanded(patch, content, n, after, spans);
    }
    ExpandsIs(patch, content, n);
    if n <= 0 || content == [] {
      return patch, groups;
    }
    var preamble, hunks := ParseHunks(patch);
    if hunks == [] {
      return patch, groups;
    }
    var gs := GroupHunks(hunks, |content|, n, nAfter, spans);
    groups := gs;
    ghost var whole := WholeExpansion(path, patch, gs, content, n, nAfter, spans);
    SomethingExpanded(patch, content, n, after, spans, whole, gs);
    RenderableGroups(gs, hunks, |content|, n, nAfter, spans);
    out := EmitGroups(preamble, gs, content, nAfter);
  }

  /** The header lines, then every group rendered. */
  method EmitGroups(preamble: seq<Line>, gs: seq<Group>, content: Text, nAfter: nat) returns (out: seq<Line>)
    requires forall i :: 0 <= i < |gs| ==> Renderable(gs[i], |content|)
    ensures out == preamble + HunksLines(RenderedAll(gs, content, nAfter))
  {
    hide *;
    ghost var all := RenderedAll(gs, content, nAfter);
    RenderedEach(gs, content, nAfter);
    out := preamble;
    NothingYet(preamble, all);
    for i := 0 to |gs|
      invariant out == preamble + HunksLines(all[..i])
    {
      var r := RenderGroup(gs[i], content, nAfter);
      HunksLinesSnoc(all[..i], r);
      TakeNext(all, i);
      Assoc(preamble, HunksLines(all[..i]), HunkLines(r));
      out := out + HunkLines(r);
    }
    assert all[..|gs|] == all;
  }

  lemma RenderedEach(gs: seq<Group>, content: Text, nAfter: nat)
    requires forall i :: 0 <= i < |gs| ==> Renderable(gs[i], |content|)
    ensures |RenderedAll(gs, content, nAfter)| == |gs|
    ensures forall i :: 0 <= i < |gs| ==> RenderedAll(gs, content, nAfter)[i] == Rendered(gs[i], content, nAfter)
  {
    hide Renderable, Rendered;
  }

  lemma NothingYet(preamble: seq<Line>, all: seq<Hunk>)
    ensures preamble == preamble + HunksLines(all[..0])
  {
  }
}
