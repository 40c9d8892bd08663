/** Padding hunks with the lines around them (`expand_hunks` in `engine/compress.py`). */
module Expand {
  import opened Wrappers
  import opened DiffParse
  import opened Patches

  const MAX_CONTEXT_LINES: nat := 20
  const MAX_BOUNDARY_REACH: nat := 2 * MAX_CONTEXT_LINES

  function Min(a: int, b: int): int { if a <= b then a else b }
  function Max(a: int, b: int): int { if a >= b then a else b }

  // ---------------------------------------------------------------------
  // The leading pad
  // ---------------------------------------------------------------------

  /** An inclusive definition span. */
  type Span = (nat, nat)

  /** Sorted 1-based spans. */
  predicate SortedSpans(spans: seq<Span>) {
    && (forall i :: 0 <= i < |spans| ==> spans[i].0 >= 1)
    && (forall i, j :: 0 <= i < j < |spans| ==> spans[i].0 <= spans[j].0)
  }

  /** The definition contains the line and starts within reach above it. */
  predicate Encloses(span: Span, line: nat) {
    span.0 <= line <= span.1 && line - span.0 <= MAX_BOUNDARY_REACH
  }

  /** The start of the last, hence innermost, span that encloses the line. */
  function Enclosing(spans: seq<Span>, line: nat): Option<nat> {
    if spans == [] then None
    else
      var last := spans[|spans| - 1];
      if Encloses(last, line) then Some(last.0) else Enclosing(spans[..|spans| - 1], line)
  }

  lemma {:induction false} EnclosingSkips(spans: seq<Span>, k: nat, line: nat)
    requires k <= |spans| && forall i :: k <= i < |spans| ==> !Encloses(spans[i], line)
    ensures Enclosing(spans, line) == Enclosing(spans[..k], line)
    decreases |spans|
  {
    if k < |spans| {
      EnclosingSkips(spans[..|spans| - 1], k, line);
      assert spans[..|spans| - 1][..k] == spans[..k];
    } else {
      assert spans[..k] == spans;
    }
  }

  /** The insertion point after every span that starts at or before the line. */
  method BisectRight(spans: seq<Span>, line: nat) returns (at: nat)
    requires SortedSpans(spans)
    ensures at <= |spans|
    ensures forall i :: 0 <= i < at ==> spans[i].0 <= line
    ensures forall i :: at <= i < |spans| ==> line < spans[i].0
  {
    var hi := |spans|;
    at := 0;
    while at < hi
      invariant 0 <= at <= hi <= |spans|
      invariant forall i :: 0 <= i < at ==> spans[i].0 <= line
      invariant forall i :: hi <= i < |spans| ==> line < spans[i].0
    {
      var mid := (at + hi) / 2;
      if line < spans[mid].0 {
        hi := mid;
      } else {
        at := mid + 1;
      }
    }
  }

  method EnclosingBoundary(spans: seq<Span>, newStart: nat) returns (r: Option<nat>)
    requires SortedSpans(spans)
    ensures r == Enclosing(spans, newStart)
  {
    var idx: int := BisectRight(spans, newStart);
    idx := idx - 1;
    while idx >= 0
      invariant -1 <= idx < |spans|
      invariant forall i :: 0 <= i <= idx ==> spans[i].0 <= newStart
      invariant forall i :: idx < i < |spans| ==> !Encloses(spans[i], newStart)
    {
      var start, end := spans[idx].0, spans[idx].1;
      if newStart - start > MAX_BOUNDARY_REACH {
        EnclosingSkips(spans, 0, newStart);
        return None;
      }
      if end >= newStart {
        EnclosingSkips(spans, idx + 1, newStart);
        assert spans[..idx + 1][idx] == spans[idx];
        return Some(start);
      }
      idx := idx - 1;
    }
    EnclosingSkips(spans, 0, newStart);
    return None;
  }

  /** The line the leading pad reaches back to: the fixed window, or the enclosing definition if that starts above it. */
  function LeadStart(h: Hunk, n: nat, spans: seq<Span>): int {
    var pad := Max(1, FirstNew(h) - n);
    var enclosing := Enclosing(spans, FirstNew(h));
    var widened := if enclosing.Some? && enclosing.value < pad then enclosing.value else pad;
    Max(widened, FirstNew(h) - (FirstOld(h) - 1))
  }

  lemma {:induction false} EnclosingInReach(spans: seq<Span>, line: nat)
    requires SortedSpans(spans) && Enclosing(spans, line).Some?
    ensures 1 <= Enclosing(spans, line).value <= line
    ensures line - Enclosing(spans, line).value <= MAX_BOUNDARY_REACH
    ensures exists i :: 0 <= i < |spans| && Encloses(spans[i], line) && spans[i].0 == Enclosing(spans, line).value
    decreases |spans|
  {
    var k := |spans| - 1;
    if !Encloses(spans[k], line) {
      EnclosingInReach(spans[..k], line);
      var i :| 0 <= i < k && Encloses(spans[..k][i], line) && spans[..k][i].0 == Enclosing(spans, line).value;
      assert Encloses(spans[i], line);
    } else {
      assert Encloses(spans[k], line);
    }
  }

  /** A boundary only ever widens the pad, by a bounded reach, and never past the first old line. */
  lemma LeadStartBounds(h: Hunk, n: nat, spans: seq<Span>)
    requires WellFormed(h) && SortedSpans(spans)
    ensures 1 <= LeadStart(h, n, spans) <= FirstNew(h)
    ensures FirstNew(h) - LeadStart(h, n, spans) <= FirstOld(h) - 1
    ensures LeadStart(h, n, spans) <= LeadStart(h, n, [])
    ensures FirstNew(h) - LeadStart(h, n, spans) <= Max(n, MAX_BOUNDARY_REACH)
  {
    if Enclosing(spans, FirstNew(h)).Some? {
      EnclosingInReach(spans, FirstNew(h));
    }
  }

  // ---------------------------------------------------------------------
  // Grouping
  // ---------------------------------------------------------------------

  datatype Group = Group(hunks: seq<Hunk>, leadStart: int)

  function GroupedHunks(groups: seq<Group>): seq<Hunk> {
    if groups == [] then [] else groups[0].hunks + GroupedHunks(groups[1..])
  }

  lemma {:induction false} GroupedSnoc(groups: seq<Group>, g: Group)
    ensures GroupedHunks(groups + [g]) == GroupedHunks(groups) + g.hunks
  {
    if groups == [] {
      assert [g][1..] == [];
      assert GroupedHunks([g]) == g.hunks + GroupedHunks([]);
    } else {
      assert (groups + [g])[1..] == groups[1..] + [g];
      GroupedSnoc(groups[1..], g);
    }
  }

  /** The last line the hunk's trailing pad reaches in a head text of `size` lines. */
  function TrailEnd(h: Hunk, size: nat, nAfter: nat): int {
    Min(size, LastNew(h) + nAfter)
  }

  /** `h`'s leading pad reaches the trailing pad of `previous`, or the line just after it. */
  predicate Reaches(previous: Hunk, h: Hunk, size: nat, n: nat, nAfter: nat, spans: seq<Span>) {
    LeadStart(h, n, spans) <= TrailEnd(previous, size, nAfter) + 1
  }

  /** The head text holds every line before the hunk. */
  predicate Fillable(h: Hunk, size: nat) {
    FirstNew(h) - 1 <= size
  }

  predicate Joins(previous: Hunk, h: Hunk, size: nat, n: nat, nAfter: nat, spans: seq<Span>) {
    Reaches(previous, h, size, n, nAfter, spans) && Fillable(h, size)
  }

  function LastHunk(g: Group): Hunk
    requires g.hunks != []
  {
    g.hunks[|g.hunks| - 1]
  }

  /** Inside a group every hunk joins the one before it. */
  ghost predicate GroupOk(g: Group, size: nat, n: nat, nAfter: nat, spans: seq<Span>) {
    && g.hunks != []
    && forall i, j :: 0 <= i < j < |g.hunks| && j == i + 1 ==> Joins(g.hunks[i], g.hunks[j], size, n, nAfter, spans)
  }

  /**
    Between two groups the hunks do not join, and the later pad clears the
    earlier group's trailing pad even where it reached it.
   */
  predicate Apart(a: Group, b: Group, size: nat, n: nat, nAfter: nat, spans: seq<Span>)
    requires a.hunks != [] && b.hunks != []
  {
    && !Joins(LastHunk(a), b.hunks[0], size, n, nAfter, spans)
    && b.leadStart == Max(LeadStart(b.hunks[0], n, spans), TrailEnd(LastHunk(a), size, nAfter) + 1)
  }

  ghost predicate Grouped(groups: seq<Group>, hunks: seq<Hunk>, size: nat, n: nat, nAfter: nat, spans: seq<Span>) {
    && GroupedHunks(groups) == hunks
    && (forall i :: 0 <= i < |groups| ==> GroupOk(groups[i], size, n, nAfter, spans))
    && (groups != [] ==> groups[0].leadStart == LeadStart(groups[0].hunks[0], n, spans))
    && (forall i, j :: 0 <= i < j < |groups| && j == i + 1 ==> Apart(groups[i], groups[j], size, n, nAfter, spans))
  }

  lemma JoinLast(groups: seq<Group>, hunks: seq<Hunk>, h: Hunk, size: nat, n: nat, nAfter: nat, spans: seq<Span>)
    returns (grown: seq<Group>)
    requires groups != [] && Grouped(groups, hunks, size, n, nAfter, spans)
    requires GroupOk(groups[|groups| - 1], size, n, nAfter, spans)
    requires Joins(LastHunk(groups[|groups| - 1]), h, size, n, nAfter, spans)
    ensures var last := groups[|groups| - 1];
            grown == groups[..|groups| - 1] + [Group(last.hunks + [h], last.leadStart)]
    ensures Grouped(grown, hunks + [h], size, n, nAfter, spans)
  {
    var k := |groups| - 1;
    var last := groups[k];
    var g := Group(last.hunks + [h], last.leadStart);
    assert groups == groups[..k] + [last];
    GroupedSnoc(groups[..k], last);
    GroupedSnoc(groups[..k], g);
    grown := groups[..k] + [g];
    assert GroupOk(g, size, n, nAfter, spans);
    assert GroupedHunks(grown) == hunks + [h];
    assert k > 0 ==> Apart(groups[k - 1], groups[k], size, n, nAfter, spans);
    assert k > 0 ==> Apart(grown[k - 1], g, size, n, nAfter, spans);
  }

  method GroupHunks(hunks: seq<Hunk>, size: nat, n: nat, nAfter: nat, spans: seq<Span>) returns (groups: seq<Group>)
    requires SortedSpans(spans)
    ensures Grouped(groups, hunks, size, n, nAfter, spans)
  {
    groups := [];
    for i := 0 to |hunks|
      invariant Grouped(groups, hunks[..i], size, n, nAfter, spans)
      invariant groups == [] <==> i == 0
    {
      var hunk := hunks[i];
      assert hunks[..i + 1] == hunks[..i] + [hunk];
      var leadStart: int := Max(1, FirstNew(hunk) - n);
      var enclosing := EnclosingBoundary(spans, FirstNew(hunk));
      if enclosing.Some? && enclosing.value < leadStart {
        leadStart := enclosing.value;
      }
      leadStart := Max(leadStart, FirstNew(hunk) - (FirstOld(hunk) - 1));
      assert leadStart == LeadStart(hunk, n, spans);
      if groups != [] {
        var last := groups[|groups| - 1];
        assert GroupOk(last, size, n, nAfter, spans);
        var previous := LastHunk(last);
        var trailEnd := TrailEnd(previous, size, nAfter);
        var reaches := leadStart <= trailEnd + 1;
        if reaches && Fillable(hunk, size) {
          ghost var grown := JoinLast(groups, hunks[..i], hunk, size, n, nAfter, spans);
          groups := groups[..|groups| - 1] + [Group(last.hunks + [hunk], last.leadStart)];
          continue;
        }
        if reaches {
          leadStart := Max(leadStart, trailEnd + 1);
        }
      }
      GroupedSnoc(groups, Group([hunk], leadStart));
      groups := groups + [Group([hunk], leadStart)];
    }
    assert hunks[..|hunks|] == hunks;
  }
}
