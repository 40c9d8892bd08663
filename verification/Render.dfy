/** Rendering groups of padded hunks, and what padding preserves (`_render_group`, `expand_hunks`). */
module Render {
  import opened Wrappers
  import opened DiffParse
  import opened Patches
  import opened Expand

  type Text = seq<string>

  /** Head lines as ordinary context. */
  function Pads(texts: Text): (r: seq<Line>)
    ensures |r| == |texts| && forall i :: 0 <= i < |r| ==> r[i] == Kept(texts[i])
  {
    seq(|texts|, i requires 0 <= i < |texts| => Kept(texts[i]))
  }

  /** The walked line is the head text's line at the number the walk gives it. */
  predicate HeadLine(w: Walked, content: Text) {
    w.mark == Space && 1 <= w.newLine <= |content| && w.text == content[w.newLine - 1]
  }

  /** Every context line was walked in the original or is the head line at its number. */
  ghost predicate FromHead(ws: seq<Walked>, original: seq<Walked>, content: Text) {
    forall w :: w in ws && w.mark == Space ==> w in original || HeadLine(w, content)
  }

  lemma PadStep(path: string, o: nat, n: nat, text: string)
    ensures Emit(At(path, o, n), Kept(text)) == [Walked(path, Space, o, n, text)]
    ensures ChangesOf(Emit(At(path, o, n), Kept(text))) == []
    ensures Step(At(path, o, n), Kept(text)) == At(path, o + 1, n + 1)
  {
    var w := Walked(path, Space, o, n, text);
    assert ChangesOf([w]) == ChangeOf(w) + ChangesOf([]);
  }

  lemma {:induction false} PadsLen(texts: Text)
    ensures BodyOk(Pads(texts)) && OldLen(Pads(texts)) == NewLen(Pads(texts)) == |texts|
  {
    if texts != [] {
      assert Pads(texts)[1..] == Pads(texts[1..]);
      PadsLen(texts[1..]);
    }
  }

  /** Pads are walked as context, line by line, and change nothing. */
  lemma {:induction false} PadsWalk(path: string, o: nat, n: nat, texts: Text)
    ensures var ws := Walk(At(path, o, n), Pads(texts));
            |ws| == |texts| && forall i :: 0 <= i < |ws| ==> ws[i] == Walked(path, Space, o + i, n + i, texts[i])
    ensures Changed(At(path, o, n), Pads(texts)) == []
    decreases |texts|
  {
    if texts != [] {
      var ls := Pads(texts);
      assert ls[0] == Kept(texts[0]) && ls[1..] == Pads(texts[1..]);
      PadStep(path, o, n, texts[0]);
      hide Emit, Step, ChangesOf, Pads;
      ChangedCons(At(path, o, n), ls);
      PadsWalk(path, o + 1, n + 1, texts[1..]);
    }
  }

  lemma PadsAreHead(path: string, o: nat, n: nat, content: Text, end: nat, original: seq<Walked>)
    requires 1 <= n && n - 1 <= end <= |content|
    ensures FromHead(Walk(At(path, o, n), Pads(content[n - 1..end])), original, content)
  {
    hide Walk, Pads;
    var texts := content[n - 1..end];
    PadsWalk(path, o, n, texts);
    var ws := Walk(At(path, o, n), Pads(texts));
    forall w | w in ws
      ensures HeadLine(w, content)
    {
      var i :| 0 <= i < |ws| && ws[i] == w;
      assert texts[i] == content[n - 1 + i];
    }
  }

  // ---------------------------------------------------------------------
  // The merged body of a group
  // ---------------------------------------------------------------------

  /** Every hunk after the first can be joined to the one before it with head lines. */
  ghost predicate Mergeable(hs: seq<Hunk>, size: nat) {
    hs != [] && WellFormedHunks(hs) && forall i :: 0 < i < |hs| ==> Fillable(hs[i], size)
  }

  lemma MergeablePrefix(hs: seq<Hunk>, size: nat)
    requires Mergeable(hs, size) && |hs| > 1
    ensures Mergeable(hs[..|hs| - 1], size)
    ensures 0 <= LastNew(hs[|hs| - 2]) <= FirstNew(hs[|hs| - 1]) - 1 <= size
  {
    assert Follows(hs[|hs| - 2], hs[|hs| - 1]);
    assert WellFormed(hs[|hs| - 2]);
  }

  /** The head lines between two hunks. */
  function Gap(previous: Hunk, h: Hunk, content: Text): seq<Line>
    requires 0 <= LastNew(previous) <= FirstNew(h) - 1 <= |content|
  {
    Pads(content[LastNew(previous)..FirstNew(h) - 1])
  }

  /** The hunks' bodies with the gaps between them filled from the head text. */
  function Merged(hs: seq<Hunk>, content: Text): seq<Line>
    requires Mergeable(hs, |content|)
    decreases |hs|
  {
    var k := |hs| - 1;
    if k == 0 then hs[0].body
    else
      MergeablePrefix(hs, |content|);
      Merged(hs[..k], content) + Gap(hs[k - 1], hs[k], content) + hs[k].body
  }

  function Start(path: string, h: Hunk): State {
    At(path, FirstOld(h), FirstNew(h))
  }

  /** A hunk means the same read from its first lines as from its header's starts. */
  lemma HunkFromFirst(path: string, h: Hunk, content: Text)
    requires WellFormed(h)
    ensures Changed(Start(path, h), h.body) == HunkChanges(path, h)
    ensures FromHead(Walk(Start(path, h), h.body), WalkHunk(path, h), content)
  {
    EmptySideNumber(path, FirstOld(h), FirstNew(h), h.header.oldStart, h.header.newStart, h.body);
    if h.header.oldLen == 0 || h.header.newLen == 0 {
      EmptySideNoContext(path, FirstOld(h), FirstNew(h), h.body);
    }
  }

  lemma FromHeadConcat(a: seq<Walked>, b: seq<Walked>, original: seq<Walked>, more: seq<Walked>, content: Text)
    requires FromHead(a, original, content) && FromHead(b, more, content)
    ensures FromHead(a + b, original + more, content)
  {
  }

  /** What is known of lines read from `s`: how far they advance each side, what they change, where their context is from. */
  ghost predicate Reads(s: State, body: seq<Line>, s': State, cs: seq<Change>, original: seq<Walked>, content: Text) {
    && BodyOk(body)
    && s.file.Some? && s.inHunk && s' == At(s.file.value, s.oldLine + OldLen(body), s.newLine + NewLen(body))
    && Changed(s, body) == cs
    && FromHead(Walk(s, body), original, content)
  }

  lemma ReadsConcat(s: State, a: seq<Line>, s1: State, cs: seq<Change>, ws: seq<Walked>,
                    b: seq<Line>, s2: State, ds: seq<Change>, vs: seq<Walked>, content: Text)
    requires Reads(s, a, s1, cs, ws, content) && Reads(s1, b, s2, ds, vs, content)
    ensures Reads(s, a + b, s2, cs + ds, ws + vs, content)
  {
    hide FromHead, Walk, ChangesOf, Run, OldLen, NewLen, IsBody;
    RunBody(s.file.value, s.oldLine, s.newLine, a);
    ChangedConcat(s, a, b);
    WalkConcat(s, a, b);
    LenConcat(a, b);
    FromHeadConcat(Walk(s, a), Walk(s1, b), ws, vs, content);
  }

  lemma FillReads(path: string, o: nat, n: nat, content: Text, end: nat)
    requires 1 <= n && n - 1 <= end <= |content|
    ensures Reads(At(path, o, n), Pads(content[n - 1..end]), At(path, o + end + 1 - n, end + 1), [], [], content)
  {
    PadsLen(content[n - 1..end]);
    PadsWalk(path, o, n, content[n - 1..end]);
    hide Walk, Pads, FromHead;
    PadsAreHead(path, o, n, content, end, []);
  }

  lemma HunkReads(path: string, h: Hunk, content: Text)
    requires WellFormed(h)
    ensures Reads(Start(path, h), h.body, At(path, (LastOld(h) + 1) as nat, (LastNew(h) + 1) as nat),
                  HunkChanges(path, h), WalkHunk(path, h), content)
  {
    HunkFromFirst(path, h, content);
  }

  /** The state just after a hunk. */
  function End(path: string, h: Hunk): State
    requires WellFormed(h)
  {
    At(path, (LastOld(h) + 1) as nat, (LastNew(h) + 1) as nat)
  }

  /** The gap before `last` is filled and `last` appended. */
  lemma MergeStep(path: string, s: State, body: seq<Line>, cs: seq<Change>, ws: seq<Walked>,
                  previous: Hunk, last: Hunk, content: Text)
    requires WellFormed(previous) && WellFormed(last) && Follows(previous, last) && Fillable(last, |content|)
    requires Reads(s, body, End(path, previous), cs, ws, content)
    ensures Reads(s, body + Gap(previous, last, content) + last.body, End(path, last),
                  cs + HunkChanges(path, last), ws + WalkHunk(path, last), content)
  {
    hide Reads, FromHead, Pads, HunkChanges, WalkHunk;
    var o, n := (LastOld(previous) + 1) as nat, (LastNew(previous) + 1) as nat;
    var fill := Gap(previous, last, content);
    FillReads(path, o, n, content, FirstNew(last) - 1);
    ReadsConcat(s, body, End(path, previous), cs, ws, fill, Start(path, last), [], [], content);
    assert cs + [] == cs && ws + [] == ws;
    HunkReads(path, last, content);
    ReadsConcat(s, body + fill, Start(path, last), cs, ws,
                last.body, End(path, last), HunkChanges(path, last), WalkHunk(path, last), content);
  }

  /** A merged body reads as its hunks do, from the first hunk's first lines to the last hunk's last. */
  lemma {:induction false} MergedReads(path: string, hs: seq<Hunk>, content: Text)
    requires Mergeable(hs, |content|)
    ensures WellFormed(hs[0]) && WellFormed(hs[|hs| - 1])
    ensures Reads(Start(path, hs[0]), Merged(hs, content), End(path, hs[|hs| - 1]),
                  HunksChanges(path, hs), WalkHunks(path, hs), content)
    decreases |hs|
  {
    var k := |hs| - 1;
    var front, last := hs[..k], hs[k];
    assert WellFormed(last);
    assert hs == front + [last];
    HunksSnoc(path, front, last);
    if k == 0 {
      HunkReads(path, last, content);
      assert HunksChanges(path, hs) == [] + HunkChanges(path, last) == HunkChanges(path, last);
      assert WalkHunks(path, hs) == [] + WalkHunk(path, last) == WalkHunk(path, last);
    } else {
      MergeablePrefix(hs, |content|);
      assert Follows(hs[k - 1], last);
      MergedReads(path, front, content);
      MergeStep(path, Start(path, hs[0]), Merged(front, content), HunksChanges(path, front), WalkHunks(path, front),
                hs[k - 1], last, content);
    }
  }

  // ---------------------------------------------------------------------
  // One group
  // ---------------------------------------------------------------------

  /** The group's bodies can be merged and its leading pad keeps both starts at 1 or later. */
  ghost predicate Renderable(g: Group, size: nat) {
    && Mergeable(g.hunks, size)
    && g.leadStart >= 1
    && FirstNew(g.hunks[0]) - g.leadStart <= FirstOld(g.hunks[0]) - 1
  }

  /** Where the leading pad starts and stops; reads are clamped to the head text. */
  function LeadEnd(g: Group, size: nat): int
    requires g.hunks != []
  {
    Min(FirstNew(g.hunks[0]), size + 1)
  }

  function Leading(g: Group, content: Text): Text
    requires Renderable(g, |content|)
  {
    assert WellFormed(g.hunks[0]);
    var leadEnd := LeadEnd(g, |content|);
    content[Min(g.leadStart, leadEnd) - 1..leadEnd - 1]
  }

  function Trailing(last: Hunk, content: Text, nAfter: nat): Text
    requires WellFormed(last)
  {
    if LastNew(last) <= |content| then content[LastNew(last)..TrailEnd(last, |content|, nAfter)] else []
  }

  function RenderedBody(g: Group, content: Text, nAfter: nat): seq<Line>
    requires Renderable(g, |content|)
  {
    assert WellFormed(LastHunk(g));
    Pads(Leading(g, content)) + Merged(g.hunks, content) + Pads(Trailing(LastHunk(g), content, nAfter))
  }

  lemma LeadingFits(g: Group, content: Text)
    requires Renderable(g, |content|)
    ensures |Leading(g, content)| <= FirstOld(g.hunks[0]) - 1
    ensures |Leading(g, content)| <= FirstNew(g.hunks[0]) - 1
    ensures |Leading(g, content)| > 0 ==> |Leading(g, content)| <= LeadEnd(g, |content|) - g.leadStart
  {
    assert WellFormed(g.hunks[0]);
  }

  /** The group as one hunk: its header counts the body it holds. */
  function Rendered(g: Group, content: Text, nAfter: nat): Hunk
    requires Renderable(g, |content|)
  {
    LeadingFits(g, content);
    var first, k, body := g.hunks[0], |Leading(g, content)|, RenderedBody(g, content, nAfter);
    Hunk(Header(FirstOld(first) - k, OldLen(body), FirstNew(first) - k, NewLen(body), first.header.section), body)
  }

  lemma FromHeadThrough(ws: seq<Walked>, lead: seq<Walked>, original: seq<Walked>, content: Text)
    requires FromHead(ws, lead + original + [], content) && FromHead(lead, [], content)
    ensures FromHead(ws, original, content)
  {
    forall w | w in ws && w.mark == Space
      ensures w in original || HeadLine(w, content)
    {
      assert w in lead + original + [] ==> w in lead || w in original;
    }
  }

  /** The walk of the leading pad: its lines as context, numbered down from the group's first hunk. */
  ghost predicate IsLead(path: string, g: Group, content: Text, lw: seq<Walked>)
    requires Renderable(g, |content|)
  {
    var lead, first := Leading(g, content), g.hunks[0];
    && |lw| == |lead| < FirstOld(first) && |lead| < FirstNew(first)
    && forall i :: 0 <= i < |lw| ==>
         lw[i] == Walked(path, Space, FirstOld(first) - |lead| + i, FirstNew(first) - |lead| + i, lead[i])
  }

  /** Leading pad lines are numbered down from the first hunk; they are those head lines if the head text reaches it. */
  lemma LeadingReads(path: string, g: Group, content: Text) returns (s: State)
    requires Renderable(g, |content|)
    ensures var k := |Leading(g, content)|;
            && k < FirstOld(g.hunks[0]) && k < FirstNew(g.hunks[0])
            && s == At(path, FirstOld(g.hunks[0]) - k, FirstNew(g.hunks[0]) - k)
    ensures Reads(s, Pads(Leading(g, content)), Start(path, g.hunks[0]), [], Walk(s, Pads(Leading(g, content))), content)
    ensures Fillable(g.hunks[0], |content|) ==> FromHead(Walk(s, Pads(Leading(g, content))), [], content)
    ensures IsLead(path, g, content, Walk(s, Pads(Leading(g, content))))
  {
    hide Pads, HeadLine, Walk, Changed;
    LeadingFits(g, content);
    var lead := Leading(g, content);
    var o, n := FirstOld(g.hunks[0]) - |lead|, FirstNew(g.hunks[0]) - |lead|;
    s := At(path, o, n);
    PadsLen(lead);
    PadsWalk(path, o, n, lead);
    if Fillable(g.hunks[0], |content|) {
      assert lead == content[n - 1..LeadEnd(g, |content|) - 1];
      PadsAreHead(path, o, n, content, LeadEnd(g, |content|) - 1, []);
    }
  }

  lemma TrailingReads(path: string, last: Hunk, content: Text, nAfter: nat)
    requires WellFormed(last)
    ensures var t := |Trailing(last, content, nAfter)|;
            Reads(End(path, last), Pads(Trailing(last, content, nAfter)),
                  At(path, LastOld(last) + 1 + t, LastNew(last) + 1 + t), [], [], content)
  {
    var o, n := (LastOld(last) + 1) as nat, (LastNew(last) + 1) as nat;
    if LastNew(last) <= |content| {
      FillReads(path, o, n, content, TrailEnd(last, |content|, nAfter));
    } else {
      assert Pads([]) == [];
    }
  }

  /** Padding on both sides adds context only. */
  lemma {:induction false} PaddedReads(s: State, lead: seq<Line>, s1: State, mid: seq<Line>, s2: State, cs: seq<Change>, ws: seq<Walked>,
                    trail: seq<Line>, s3: State, content: Text)
    requires Reads(s, lead, s1, [], Walk(s, lead), content)
    requires Reads(s1, mid, s2, cs, ws, content)
    requires Reads(s2, trail, s3, [], [], content)
    ensures Reads(s, lead + mid + trail, s3, cs, Walk(s, lead) + ws + [], content)
  {
    ReadsConcat(s, lead, s1, [], Walk(s, lead), mid, s2, cs, ws, content);
    ReadsConcat(s, lead + mid, s2, [] + cs, Walk(s, lead) + ws, trail, s3, [], [], content);
    assert [] + cs + [] == cs;
  }

  lemma LeadFirst(s: State, lead: seq<Line>, mid: seq<Line>, trail: seq<Line>)
    ensures Walk(s, lead) <= Walk(s, lead + mid + trail)
  {
    hide Walk;
    WalkConcat(s, lead, mid + trail);
    Assoc(lead, mid, trail);
  }

  lemma GroupReads(path: string, g: Group, content: Text, nAfter: nat) returns (s: State, lw: seq<Walked>)
    requires Renderable(g, |content|)
    ensures WellFormed(g.hunks[0]) && WellFormed(LastHunk(g))
    ensures |Leading(g, content)| < FirstOld(g.hunks[0]) && |Leading(g, content)| < FirstNew(g.hunks[0])
    ensures s == At(path, FirstOld(g.hunks[0]) - |Leading(g, content)|, FirstNew(g.hunks[0]) - |Leading(g, content)|)
    ensures var t := |Trailing(LastHunk(g), content, nAfter)|;
            Reads(s, RenderedBody(g, content, nAfter),
                  At(path, LastOld(LastHunk(g)) + 1 + t, LastNew(LastHunk(g)) + 1 + t),
                  HunksChanges(path, g.hunks), lw + WalkHunks(path, g.hunks) + [], content)
    ensures Fillable(g.hunks[0], |content|) ==> FromHead(lw, [], content)
    ensures IsLead(path, g, content, lw)
    ensures lw <= Walk(s, RenderedBody(g, content, nAfter))
  {
    hide Reads, FromHead, Pads, Leading, Trailing, Merged, HunksChanges, WalkHunks, Walk, Fillable, IsLead;
    var hs, last := g.hunks, LastHunk(g);
    assert WellFormed(last);
    s := LeadingReads(path, g, content);
    lw := Walk(s, Pads(Leading(g, content)));
    MergedReads(path, hs, content);
    TrailingReads(path, last, content, nAfter);
    var t := |Trailing(last, content, nAfter)|;
    PaddedReads(s, Pads(Leading(g, content)), Start(path, hs[0]), Merged(hs, content), End(path, last),
                HunksChanges(path, hs), WalkHunks(path, hs), Pads(Trailing(last, content, nAfter)),
                At(path, LastOld(last) + 1 + t, LastNew(last) + 1 + t), content);
    LeadFirst(s, Pads(Leading(g, content)), Merged(hs, content), Pads(Trailing(last, content, nAfter)));
  }

  /** The rendered hunk reads as the group's hunks, and its ranges are theirs plus the pads. */
  lemma RenderedReads(path: string, g: Group, content: Text, nAfter: nat)
    requires Renderable(g, |content|)
    ensures WellFormed(g.hunks[0]) && WellFormed(LastHunk(g))
    ensures var r := Rendered(g, content, nAfter);
            && BodyOk(r.body)
            && HunkChanges(path, r) == HunksChanges(path, g.hunks)
            && (Fillable(g.hunks[0], |content|) ==> FromHead(WalkHunk(path, r), WalkHunks(path, g.hunks), content))
    ensures var r, t := Rendered(g, content, nAfter), |Trailing(LastHunk(g), content, nAfter)|;
            && r.header.oldStart + r.header.oldLen == LastOld(LastHunk(g)) + 1 + t
            && r.header.newStart + r.header.newLen == LastNew(LastHunk(g)) + 1 + t
  {
    var s, lw := GroupReads(path, g, content, nAfter);
    var r := Rendered(g, content, nAfter);
    assert s == At(path, r.header.oldStart, r.header.newStart);
    if Fillable(g.hunks[0], |content|) {
      FromHeadThrough(WalkHunk(path, r), lw, WalkHunks(path, g.hunks), content);
    }
  }

  // ---------------------------------------------------------------------
  // Leading context that is off
  // ---------------------------------------------------------------------

  lemma {:induction false} WalkFrom(path: string, o: nat, n: nat, body: seq<Line>)
    requires BodyOk(body)
    ensures forall w :: w in Walk(At(path, o, n), body) ==> w.newLine >= n
    decreases |body|
  {
    if body != [] {
      var l := body[0];
      assert IsBody(l);
      assert Step(At(path, o, n), l) == At(path, o + OldCount(l), n + NewCount(l));
      WalkFrom(path, o + OldCount(l), n + NewCount(l), body[1..]);
    }
  }

  lemma {:induction false} WalkUpTo(path: string, o: nat, n: nat, body: seq<Line>)
    requires BodyOk(body)
    ensures forall w :: w in Walk(At(path, o, n), body) && w.mark == Space ==> w.newLine < n + NewLen(body)
    decreases |body|
  {
    if body != [] {
      var l := body[0];
      assert IsBody(l);
      assert Step(At(path, o, n), l) == At(path, o + OldCount(l), n + NewCount(l));
      WalkUpTo(path, o + OldCount(l), n + NewCount(l), body[1..]);
    }
  }

  /** Every walked context line stands at this line of the new side or earlier. */
  ghost predicate ContextUpTo(ws: seq<Walked>, n: int) {
    forall w :: w in ws && w.mark == Space ==> w.newLine <= n
  }

  lemma {:induction false} HunksUpToLine(path: string, hs: seq<Hunk>)
    requires hs != [] && WellFormedHunks(hs)
    ensures ContextUpTo(WalkHunks(path, hs), LastNew(hs[|hs| - 1]))
    decreases |hs|
  {
    hide Walk;
    var front, last := hs[..|hs| - 1], hs[|hs| - 1];
    assert WellFormed(last) && hs == front + [last];
    WalkUpTo(path, last.header.oldStart, last.header.newStart, last.body);
    HunksSnoc(path, front, last);
    if front != [] {
      assert Follows(front[|front| - 1], last);
      HunksUpToLine(path, front);
    }
  }

  /** Every walked context line stands at this line of the new side or later. */
  ghost predicate ContextFrom(ws: seq<Walked>, n: nat) {
    forall w :: w in ws && w.mark == Space ==> w.newLine >= n
  }

  lemma HunkFromLine(path: string, h: Hunk)
    requires WellFormed(h)
    ensures ContextFrom(WalkHunk(path, h), FirstNew(h))
  {
    WalkFrom(path, h.header.oldStart, h.header.newStart, h.body);
    if h.header.newLen == 0 {
      EmptySideNoContext(path, h.header.oldStart, h.header.newStart, h.body);
    }
  }

  lemma {:induction false} HunksFromLine(path: string, hs: seq<Hunk>)
    requires hs != [] && WellFormedHunks(hs)
    ensures ContextFrom(WalkHunks(path, hs), FirstNew(hs[0]))
    decreases |hs|
  {
    hide WalkHunk;
    assert WellFormed(hs[0]);
    HunkFromLine(path, hs[0]);
    if |hs| > 1 {
      assert Follows(hs[0], hs[1]);
      HunksFromLine(path, hs[1..]);
    }
    assert WalkHunks(path, hs) == WalkHunk(path, hs[0]) + WalkHunks(path, hs[1..]);
  }

  /**
    Head text that stops short of the first hunk puts the leading pad off. Line
    `i` of the pad is line `headLine` of the head text, and the walk of the
    rendered hunk reads it at that number if and only if the head text reaches
    the line before the hunk.
   */
  lemma LeadingIsRightIff(path: string, g: Group, content: Text, nAfter: nat, i: nat)
    requires Renderable(g, |content|) && i < |Leading(g, content)|
    ensures var ws := WalkHunk(path, Rendered(g, content, nAfter));
            var headLine := LeadEnd(g, |content|) - |Leading(g, content)| + i;
            && i < |ws| && 1 <= headLine <= |content|
            && ws[i].mark == Space && ws[i].text == content[headLine - 1]
            && (ws[i].newLine == headLine <==> Fillable(g.hunks[0], |content|))
  {
    LeadingAt(g, content, i);
    hide Rendered, WalkHunk, Leading, LeadEnd, Renderable;
    var lw := LeadWalk(path, g, content, nAfter);
    assert WalkHunk(path, Rendered(g, content, nAfter))[i] == lw[i];
  }

  /** The walk of a rendered group starts with the walk of its leading pad. */
  lemma LeadWalk(path: string, g: Group, content: Text, nAfter: nat) returns (lw: seq<Walked>)
    requires Renderable(g, |content|)
    ensures IsLead(path, g, content, lw) && lw <= WalkHunk(path, Rendered(g, content, nAfter))
  {
    hide Walk, Reads, FromHead, RenderedBody, HunksChanges, WalkHunks, Leading, Merged, Pads, IsLead;
    var s;
    s, lw := GroupReads(path, g, content, nAfter);
    assert WalkHunk(path, Rendered(g, content, nAfter)) == Walk(s, RenderedBody(g, content, nAfter));
  }

  /** Line `i` of the pad, and where it is in the head text. */
  lemma LeadingAt(g: Group, content: Text, i: nat)
    requires Renderable(g, |content|) && i < |Leading(g, content)|
    ensures var headLine := LeadEnd(g, |content|) - |Leading(g, content)| + i;
            && 1 <= headLine <= |content| && Leading(g, content)[i] == content[headLine - 1]
            && (LeadEnd(g, |content|) == FirstNew(g.hunks[0]) <==> Fillable(g.hunks[0], |content|))
  {
    LeadingFits(g, content);
  }

  /**
    So every context line of a rendered group is one of the original or the head
    line at its number, if and only if nothing is padded in front or the head text
    reaches the line before the first hunk.
   */
  lemma ContextIsRightIff(path: string, g: Group, content: Text, nAfter: nat)
    requires Renderable(g, |content|)
    ensures FromHead(WalkHunk(path, Rendered(g, content, nAfter)), WalkHunks(path, g.hunks), content)
       <==> Leading(g, content) == [] || Fillable(g.hunks[0], |content|)
  {
    hide Walk, Reads, FromHead, RenderedBody, HunksChanges, WalkHunks, HeadLine, Leading, Merged, Pads;
    var s, lw := GroupReads(path, g, content, nAfter);
    var ws, first := WalkHunk(path, Rendered(g, content, nAfter)), g.hunks[0];
    assert ws == Walk(s, RenderedBody(g, content, nAfter));
    if Leading(g, content) == [] || Fillable(first, |content|) {
      NoLead(lw, content);
      GroupFromHead(s, RenderedBody(g, content, nAfter), lw, path, g, content, nAfter);
    } else {
      HunksFromLine(path, g.hunks);
      var w := LastLeadIsOff(path, g, content, nAfter);
      OffLineShows(ws, WalkHunks(path, g.hunks), content, w);
    }
  }

  lemma NoLead(lw: seq<Walked>, content: Text)
    ensures lw == [] ==> FromHead(lw, [], content)
  {
  }

  lemma GroupFromHead(s: State, body: seq<Line>, lw: seq<Walked>, path: string, g: Group, content: Text, nAfter: nat)
    requires Renderable(g, |content|) && FromHead(lw, [], content)
    requires exists s', cs :: Reads(s, body, s', cs, lw + WalkHunks(path, g.hunks) + [], content)
    ensures FromHead(Walk(s, body), WalkHunks(path, g.hunks), content)
  {
    hide FromHead, Walk, WalkHunks;
    FromHeadThrough(Walk(s, body), lw, WalkHunks(path, g.hunks), content);
  }

  lemma OffLineShows(ws: seq<Walked>, original: seq<Walked>, content: Text, w: Walked)
    requires w in ws && w.mark == Space && !HeadLine(w, content) && w !in original
    ensures !FromHead(ws, original, content)
  {
    hide HeadLine;
  }

  /** The last line of a short head text is read past its end, on the line before the group's first hunk. */
  lemma LastLeadIsOff(path: string, g: Group, content: Text, nAfter: nat) returns (w: Walked)
    requires Renderable(g, |content|) && Leading(g, content) != [] && !Fillable(g.hunks[0], |content|)
    ensures w in WalkHunk(path, Rendered(g, content, nAfter)) && w.mark == Space
    ensures w.newLine == FirstNew(g.hunks[0]) - 1 && !HeadLine(w, content)
  {
    hide Rendered, WalkHunk, Leading;
    var lw := LeadWalk(path, g, content, nAfter);
    w := lw[|lw| - 1];
    assert WalkHunk(path, Rendered(g, content, nAfter))[|lw| - 1] == w;
  }

  /** One line replaced at line 5, under a head text of one line: that line is put in front, and read as line 4. */
  lemma ShortHeadExample(path: string, text: string, was: string, now: string)
    ensures var g := Group([Hunk(Header(5, 1, 5, 1, ""), [Deleted(was), Added(now)])], 1);
            var content := [text];
            && Renderable(g, |content|)
            && var ws := WalkHunk(path, Rendered(g, content, 0));
               ws != [] && ws[0] == Walked(path, Space, 4, 4, text) && !FromHead(ws, WalkHunks(path, g.hunks), content)
  {
    var h := Hunk(Header(5, 1, 5, 1, ""), [Deleted(was), Added(now)]);
    var g, content := Group([h], 1), [text];
    ShortHeadLead(text, was, now);
    hide Rendered, WalkHunk, WalkHunks, FromHead, Leading, Renderable;
    ContextIsRightIff(path, g, content, 0);
    var lw := LeadWalk(path, g, content, 0);
    assert lw[0] == Walked(path, Space, 4, 4, text);
  }

  lemma ShortHeadLead(text: string, was: string, now: string)
    ensures var g := Group([Hunk(Header(5, 1, 5, 1, ""), [Deleted(was), Added(now)])], 1);
            Renderable(g, 1) && Leading(g, [text]) == [text] && !Fillable(g.hunks[0], 1)
  {
    Replacement(was, now);
    hide BodyOk, OldLen, NewLen;
  }

  lemma Replacement(was: string, now: string)
    ensures WellFormed(Hunk(Header(5, 1, 5, 1, ""), [Deleted(was), Added(now)]))
  {
    DropFirst(Deleted(was), [Added(now)]);
    DropFirst(Added(now), []);
    assert [Deleted(was), Added(now)] == [Deleted(was)] + [Added(now)] && [Added(now)] == [Added(now)] + [];
    assert OldLen([Added(now)]) == 0 + OldLen([]) && NewLen([Added(now)]) == 1 + NewLen([]);
  }

  /** `_render_group`'s counting pass, on what it emits. */
  method CountSides(lines: seq<Line>) returns (oldLen: nat, newLen: nat)
    requires BodyOk(lines)
    ensures oldLen == OldLen(lines) && newLen == NewLen(lines)
  {
    oldLen, newLen := 0, 0;
    for i := 0 to |lines|
      invariant oldLen == OldLen(lines[..i]) && newLen == NewLen(lines[..i])
    {
      var line := lines[i];
      assert IsBody(line);
      assert lines[..i + 1] == lines[..i] + [line];
      LenConcat(lines[..i], [line]);
      assert OldLen([line]) == OldCount(line) + OldLen([]);
      assert NewLen([line]) == NewCount(line) + NewLen([]);
      if line.Kept? || line.Empty? || MarkOf(line) == Minus {
        oldLen := oldLen + 1;
      }
      if line.Kept? || line.Empty? || MarkOf(line) == Plus {
        newLen := newLen + 1;
      }
    }
    assert lines[..|lines|] == lines;
  }

  lemma MergeableSnoc(front: seq<Hunk>, h: Hunk, size: nat)
    requires Mergeable(front, size)
    requires WellFormed(h) && Follows(front[|front| - 1], h) && Fillable(h, size)
    ensures Mergeable(front + [h], size)
  {
  }

  lemma {:induction false} MergedSnoc(front: seq<Hunk>, h: Hunk, content: Text)
    requires Mergeable(front, |content|)
    requires WellFormed(h) && Follows(front[|front| - 1], h) && Fillable(h, |content|)
    ensures Mergeable(front + [h], |content|)
    ensures 0 <= LastNew(front[|front| - 1]) <= FirstNew(h) - 1 <= |content|
    ensures Merged(front + [h], content)
         == Merged(front, content) + Gap(front[|front| - 1], h, content) + h.body
  {
    MergeableSnoc(front, h, |content|);
    assert WellFormed(front[|front| - 1]);
    var hs, k := front + [h], |front|;
    assert hs[..k] == front && hs[k] == h && hs[k - 1] == front[k - 1];
    assert Merged(hs, content) == Merged(hs[..k], content) + Gap(hs[k - 1], hs[k], content) + hs[k].body;
  }

  method MergeBodies(hs: seq<Hunk>, content: Text) returns (body: seq<Line>)
    requires Mergeable(hs, |content|)
    ensures body == Merged(hs, content)
  {
    assert WellFormed(hs[0]);
    body := hs[0].body;
    for i := 1 to |hs|
      invariant Mergeable(hs[..i], |content|) && body == Merged(hs[..i], content)
    {
      assert WellFormed(hs[i]) && Follows(hs[i - 1], hs[i]) && Fillable(hs[i], |content|);
      MergedSnoc(hs[..i], hs[i], content);
      assert hs[..i + 1] == hs[..i] + [hs[i]];
      var previousEnd := LastNew(hs[i - 1]);
      body := body + Pads(content[previousEnd..FirstNew(hs[i]) - 1]);
      body := body + hs[i].body;
    }
    assert hs[..|hs|] == hs;
  }

  lemma RenderedBodyOk(g: Group, content: Text, nAfter: nat)
    requires Renderable(g, |content|)
    ensures BodyOk(RenderedBody(g, content, nAfter))
    ensures |Leading(g, content)| <= FirstOld(g.hunks[0]) - 1 && |Leading(g, content)| <= FirstNew(g.hunks[0]) - 1
    ensures var first, k, body := g.hunks[0], |Leading(g, content)|, RenderedBody(g, content, nAfter);
            Rendered(g, content, nAfter)
            == Hunk(Header(FirstOld(first) - k, OldLen(body), FirstNew(first) - k, NewLen(body), first.header.section), body)
  {
    LeadingFits(g, content);
    RenderedReads("", g, content, nAfter);
  }

  method RenderGroup(g: Group, content: Text, nAfter: nat) returns (r: Hunk)
    requires Renderable(g, |content|)
    ensures r == Rendered(g, content, nAfter)
  {
    hide Pads, Merged, OldLen, NewLen, BodyOk, Walk;
    var first, last := g.hunks[0], LastHunk(g);
    assert WellFormed(first) && WellFormed(last);
    var leadEnd := Min(FirstNew(first), |content| + 1);
    var leading := content[Min(g.leadStart, leadEnd) - 1..leadEnd - 1];
    var body := MergeBodies(g.hunks, content);
    var trailing := if LastNew(last) > |content| then [] else content[LastNew(last)..Min(|content|, LastNew(last) + nAfter)];
    var lines := Pads(leading) + body + Pads(trailing);
    assert leading == Leading(g, content) && trailing == Trailing(last, content, nAfter);
    RenderedBodyOk(g, content, nAfter);
    var oldLen, newLen := CountSides(lines);
    r := Hunk(Header(FirstOld(first) - |leading|, oldLen, FirstNew(first) - |leading|, newLen, first.header.section), lines);
  }
}
