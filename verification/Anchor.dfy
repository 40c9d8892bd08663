/** Re-anchoring findings to changed lines, and collapsing duplicates (`engine/engine.py`). */
module Anchor {
  import opened Wrappers
  import opened DiffParse
  import opened Patches
  import opened Lookup
  import opened Findings
  import opened Texts

  // ---------------------------------------------------------------------
  // Matching
  // ---------------------------------------------------------------------

  /** The words of a text that starts with one, joined by single spaces. */
  function Collapse(s: string): string
    decreases |s|
  {
    if s == [] then []
    else if IsBlank(s[0]) then
      var rest := TrimLeft(s[1..]);
      if rest == [] then [] else [' '] + Collapse(rest)
    else [s[0]] + Collapse(s[1..])
  }

  function Normalised(s: string): string { Collapse(TrimLeft(s)) }

  predicate Contains(text: string, part: string) {
    part <= text || (text != [] && Contains(text[1..], part))
  }

  const MIN_SUBSTRING_ANCHOR: nat := 8

  /** The changed lines of one (path, side), with their numbers. */
  type Candidates = seq<(nat, string)>

  /** The numbers of the candidates that pass the test, in order. */
  function LinesWhere(candidates: Candidates, test: string -> bool): seq<nat> {
    if candidates == [] then []
    else (if test(candidates[0].1) then [candidates[0].0] else []) + LinesWhere(candidates[1..], test)
  }

  predicate SameTrimmed(target: string, text: string) { Trim(text) == target }

  predicate SameWords(target: string, text: string) { Normalised(text) == Normalised(target) }

  predicate Overlaps(target: string, text: string) {
    Contains(text, target) || (|Trim(text)| >= MIN_SUBSTRING_ANCHOR && Contains(target, Trim(text)))
  }

  /** The changed lines that match the anchor at the tightest level that hits. */
  function MatchAnchor(anchor: string, candidates: Candidates): seq<nat> {
    var target := Trim(anchor);
    var exact := LinesWhere(candidates, text => SameTrimmed(target, text));
    if exact != [] then exact
    else
      var normalised := LinesWhere(candidates, text => SameWords(target, text));
      if normalised != [] then normalised
      else
        var near := LinesWhere(candidates, text => Overlaps(target, text));
        if |target| >= MIN_SUBSTRING_ANCHOR && |near| == 1 then near else []
  }

  lemma {:induction false} LinesWhereAre(candidates: Candidates, test: string -> bool, line: nat)
    ensures line in LinesWhere(candidates, test) <==>
            exists i :: 0 <= i < |candidates| && candidates[i].0 == line && test(candidates[i].1)
    decreases |candidates|
  {
    if candidates != [] {
      var rest := candidates[1..];
      LinesWhereAre(rest, test, line);
      if i :| 0 <= i < |rest| && rest[i].0 == line && test(rest[i].1) {
        assert candidates[i + 1] == rest[i];
      }
      if i :| 0 <= i < |candidates| && candidates[i].0 == line && test(candidates[i].1) {
        assert i > 0 ==> rest[i - 1] == candidates[i];
      }
    }
  }

  /** A match is the number of a candidate whose text agrees with the anchor at one of the three levels. */
  lemma MatchesAreCandidates(anchor: string, candidates: Candidates, line: nat)
    requires line in MatchAnchor(anchor, candidates)
    ensures exists i :: 0 <= i < |candidates| && candidates[i].0 == line
              && (SameTrimmed(Trim(anchor), candidates[i].1) || SameWords(Trim(anchor), candidates[i].1)
                  || Overlaps(Trim(anchor), candidates[i].1))
  {
    hide Trim, Normalised, Contains;
    var target := Trim(anchor);
    LinesWhereAre(candidates, text => SameTrimmed(target, text), line);
    LinesWhereAre(candidates, text => SameWords(target, text), line);
    LinesWhereAre(candidates, text => Overlaps(target, text), line);
  }

  /** One text holds another exactly when it is a prefix of some rest of it. */
  lemma {:induction false} ContainsIs(text: string, part: string)
    ensures Contains(text, part) <==> exists k :: 0 <= k <= |text| && part <= text[k..]
  {
    if part <= text {
      assert text[0..] == text;
    } else if text != [] {
      ContainsIs(text[1..], part);
      assert forall k :: 0 < k <= |text| ==> text[k..] == text[1..][k - 1..];
      assert text[0..] == text;
      if k :| 0 <= k <= |text[1..]| && part <= text[1..][k..] {
        assert text[k + 1..] == text[1..][k..];
      }
    }
  }

  predicate IsWord(w: string) { w != [] && forall i :: 0 <= i < |w| ==> !IsBlank(w[i]) }

  /** The words, each behind its own blanks. */
  function Spaced(words: seq<string>, blanks: seq<string>): string
    requires |words| == |blanks|
  {
    if words == [] then [] else blanks[0] + words[0] + Spaced(words[1..], blanks[1..])
  }

  /** The words with one space between them. */
  function SingleSpaced(words: seq<string>): string {
    if words == [] then [] else if |words| == 1 then words[0] else words[0] + " " + SingleSpaced(words[1..])
  }

  /** However many blanks of whatever kind stand between the words, one space is left, and none around them. */
  lemma {:induction false} NormalisedIs(words: seq<string>, blanks: seq<string>, end: string)
    requires |words| == |blanks| && (forall i :: 0 <= i < |words| ==> IsWord(words[i]) && AllBlank(blanks[i])) && AllBlank(end)
    requires forall i :: 0 < i < |words| ==> blanks[i] != []
    ensures Normalised(Spaced(words, blanks) + end) == SingleSpaced(words)
  {
    hide Collapse, Spaced, SingleSpaced;
    if words == [] {
      NoneSpaced(end);
      BlanksNormalised(end);
    } else {
      var rest := Spaced(words[1..], blanks[1..]) + end;
      SpacedNext(words, blanks, end);
      TrimLeftIs(blanks[0], words[0] + rest);
      NoLeft(words[0], rest);
      CollapseWord(words[0], rest);
      CollapseRest(words[1..], blanks[1..], end);
    }
  }

  lemma NoLeft(w: string, rest: string)
    requires IsWord(w)
    ensures TrimLeft(w + rest) == w + rest
  {
  }

  lemma BlanksNormalised(end: string)
    requires AllBlank(end)
    ensures Normalised(Spaced([], []) + end) == SingleSpaced([])
  {
    assert Spaced([], []) + end == end && end + [] == end;
    TrimLeftIs(end, []);
    NothingCollapsed();
  }

  lemma NothingCollapsed()
    ensures Collapse([]) == []
  {
  }

  lemma {:induction false} CollapseWord(w: string, rest: string)
    requires forall i :: 0 <= i < |w| ==> !IsBlank(w[i])
    ensures Collapse(w + rest) == w + Collapse(rest)
  {
    if w == [] {
      assert w + rest == rest;
    } else {
      assert (w + rest)[1..] == w[1..] + rest;
      CollapseWord(w[1..], rest);
    }
  }

  /** A run of blanks leaves one space, or nothing at the end. */
  lemma CollapseBlanks(blanks: string, tail: string)
    requires blanks != [] && AllBlank(blanks) && (tail != [] ==> !IsBlank(tail[0]))
    ensures Collapse(blanks + tail) == if tail == [] then [] else [' '] + Collapse(tail)
  {
    var all := blanks + tail;
    assert all[0] == blanks[0] && all[1..] == blanks[1..] + tail;
    TrimLeftIs(blanks[1..], tail);
    assert TrimLeft(all[1..]) == tail;
  }

  lemma SpacedNext(words: seq<string>, blanks: seq<string>, end: string)
    requires |words| == |blanks| && words != []
    ensures Spaced(words, blanks) + end == blanks[0] + (words[0] + (Spaced(words[1..], blanks[1..]) + end))
    ensures SingleSpaced(words) == words[0] + if |words| == 1 then [] else " " + SingleSpaced(words[1..])
  {
    var rest := Spaced(words[1..], blanks[1..]);
    assert Spaced(words, blanks) == blanks[0] + words[0] + rest;
    hide Spaced;
    Assoc(blanks[0], words[0], rest + end);
    Assoc(blanks[0] + words[0], rest, end);
  }

  lemma NoneSpaced(end: string)
    requires AllBlank(end)
    ensures Collapse(Spaced([], []) + end) == []
  {
    assert Spaced([], []) + end == end && end + [] == end;
    if end != [] {
      CollapseBlanks(end, []);
    }
  }

  /** What is left of the words after the first: a space before each. */
  lemma {:induction false} CollapseRest(words: seq<string>, blanks: seq<string>, end: string)
    requires |words| == |blanks| && (forall i :: 0 <= i < |words| ==> IsWord(words[i]) && AllBlank(blanks[i]) && blanks[i] != []) && AllBlank(end)
    ensures Collapse(Spaced(words, blanks) + end) == if words == [] then [] else " " + SingleSpaced(words)
  {
    hide Collapse, Spaced, SingleSpaced, AllBlank;
    if words == [] {
      NoneSpaced(end);
    } else {
      var rest := Spaced(words[1..], blanks[1..]) + end;
      SpacedNext(words, blanks, end);
      CollapseBlanks(blanks[0], words[0] + rest);
      CollapseWord(words[0], rest);
      CollapseRest(words[1..], blanks[1..], end);
    }
  }

  /** How closely a line can match an anchor. */
  datatype Level = Exact | Words | Near

  /** The line matches the trimmed anchor this closely. */
  predicate Agrees(level: Level, target: string, text: string) {
    match level
    case Exact => Trim(text) == target
    case Words => Normalised(text) == Normalised(target)
    case Near => Contains(text, target) || (|Trim(text)| >= 8 && Contains(target, Trim(text)))
  }

  /** Some candidate of this line, some at all, or exactly one, matches this closely. */
  ghost predicate HitsAt(candidates: Candidates, level: Level, target: string, line: nat) {
    exists i :: 0 <= i < |candidates| && candidates[i].0 == line && Agrees(level, target, candidates[i].1)
  }

  ghost predicate Hits(candidates: Candidates, level: Level, target: string) {
    exists i :: 0 <= i < |candidates| && Agrees(level, target, candidates[i].1)
  }

  ghost predicate HitsOnce(candidates: Candidates, level: Level, target: string) {
    exists i :: 0 <= i < |candidates| && Agrees(level, target, candidates[i].1)
                && forall j :: 0 <= j < |candidates| && Agrees(level, target, candidates[j].1) ==> j == i
  }

  lemma {:induction false} LinesWhereHit(candidates: Candidates, test: string -> bool, level: Level, target: string, line: nat)
    requires forall text :: test(text) <==> Agrees(level, target, text)
    ensures line in LinesWhere(candidates, test) <==> HitsAt(candidates, level, target, line)
    ensures LinesWhere(candidates, test) != [] <==> Hits(candidates, level, target)
    ensures |LinesWhere(candidates, test)| == 1 <==> HitsOnce(candidates, level, target)
    decreases |candidates|
  {
    hide Agrees;
    LinesWhereAre(candidates, test, line);
    if candidates != [] {
      var rest := candidates[1..];
      LinesWhereHit(rest, test, level, target, line);
      HitsCons(candidates, level, target);
    }
  }

  lemma HitsCons(candidates: Candidates, level: Level, target: string)
    requires candidates != []
    ensures var rest, first := candidates[1..], Agrees(level, target, candidates[0].1);
            && (Hits(candidates, level, target) <==> first || Hits(rest, level, target))
            && (HitsOnce(candidates, level, target) <==> if first then !Hits(rest, level, target) else HitsOnce(rest, level, target))
  {
    OnceFirst(candidates, level, target);
    hide Agrees;
    var rest := candidates[1..];
    if i :| 0 <= i < |rest| && Agrees(level, target, rest[i].1) {
      assert candidates[i + 1] == rest[i];
    }
    if i :| 0 < i < |candidates| && Agrees(level, target, candidates[i].1) {
      assert candidates[i] == rest[i - 1];
    }
    if !Agrees(level, target, candidates[0].1) {
      OnceShifted(candidates, level, target);
    }
  }

  lemma OnceFirst(candidates: Candidates, level: Level, target: string)
    requires candidates != []
    ensures Agrees(level, target, candidates[0].1) ==> (HitsOnce(candidates, level, target) <==> !Hits(candidates[1..], level, target))
  {
    hide Agrees;
    var rest := candidates[1..];
    assert forall i :: 0 < i < |candidates| ==> candidates[i] == rest[i - 1];
    if i :| 0 <= i < |rest| && Agrees(level, target, rest[i].1) {
      assert candidates[i + 1] == rest[i];
    }
  }

  lemma OnceShifted(candidates: Candidates, level: Level, target: string)
    requires candidates != [] && !Agrees(level, target, candidates[0].1)
    ensures HitsOnce(candidates, level, target) <==> HitsOnce(candidates[1..], level, target)
  {
    hide Agrees;
    var rest := candidates[1..];
    if HitsOnce(rest, level, target) {
      var i :| 0 <= i < |rest| && Agrees(level, target, rest[i].1) && forall j :: 0 <= j < |rest| && Agrees(level, target, rest[j].1) ==> j == i;
      assert candidates[i + 1] == rest[i];
      forall j | 0 <= j < |candidates| && Agrees(level, target, candidates[j].1)
        ensures j == i + 1
      {
        assert candidates[j] == rest[j - 1];
      }
    }
    if HitsOnce(candidates, level, target) {
      var i :| 0 <= i < |candidates| && Agrees(level, target, candidates[i].1)
               && forall j :: 0 <= j < |candidates| && Agrees(level, target, candidates[j].1) ==> j == i;
      assert rest[i - 1] == candidates[i];
      forall j | 0 <= j < |rest| && Agrees(level, target, rest[j].1)
        ensures j == i - 1
      {
        assert candidates[j + 1] == rest[j];
      }
    }
  }

  /**
    Which lines match: those equal to the anchor but for blanks around it; if there
    is none, those with the same words; if there is none of them either, the only
    line that overlaps an anchor of eight characters or more.
   */
  lemma MatchesAre(anchor: string, candidates: Candidates, line: nat)
    ensures var target := Trim(anchor);
            line in MatchAnchor(anchor, candidates) <==>
              if Hits(candidates, Exact, target) then HitsAt(candidates, Exact, target, line)
              else if Hits(candidates, Words, target) then HitsAt(candidates, Words, target, line)
              else |target| >= 8 && HitsOnce(candidates, Near, target) && HitsAt(candidates, Near, target, line)
    ensures MatchAnchor(anchor, candidates) == [] <==>
              var target := Trim(anchor);
              !Hits(candidates, Exact, target) && !Hits(candidates, Words, target)
              && (|target| < 8 || !HitsOnce(candidates, Near, target))
  {
    hide Trim, Normalised, Contains, Hits, HitsAt, HitsOnce;
    var target := Trim(anchor);
    LinesWhereHit(candidates, text => SameTrimmed(target, text), Exact, target, line);
    LinesWhereHit(candidates, text => SameWords(target, text), Words, target, line);
    LinesWhereHit(candidates, text => Overlaps(target, text), Near, target, line);
  }

  /** A candidate that equals the anchor, up to surrounding blanks, is always a match, and then only such ones are. */
  lemma ExactMatchesWin(anchor: string, candidates: Candidates, i: nat, line: nat)
    requires i < |candidates| && SameTrimmed(Trim(anchor), candidates[i].1)
    ensures candidates[i].0 in MatchAnchor(anchor, candidates)
    ensures line in MatchAnchor(anchor, candidates) <==>
            exists j :: 0 <= j < |candidates| && candidates[j].0 == line && SameTrimmed(Trim(anchor), candidates[j].1)
  {
    hide Trim, Normalised, Contains;
    var target := Trim(anchor);
    LinesWhereAre(candidates, text => SameTrimmed(target, text), line);
    LinesWhereAre(candidates, text => SameTrimmed(target, text), candidates[i].0);
  }

  // ---------------------------------------------------------------------
  // Snapping
  // ---------------------------------------------------------------------

  function Distance(a: nat, b: nat): nat { if a <= b then b - a else a - b }

  /** The first of the numbers nearest to the line. */
  function Nearest(matches: seq<nat>, line: nat): nat
    requires matches != []
  {
    if |matches| == 1 then matches[0]
    else
      var best := Nearest(matches[1..], line);
      if Distance(matches[0], line) <= Distance(best, line) then matches[0] else best
  }

  lemma {:induction false} NearestIsNearest(matches: seq<nat>, line: nat)
    requires matches != []
    ensures Nearest(matches, line) in matches
    ensures forall m :: m in matches ==> Distance(Nearest(matches, line), line) <= Distance(m, line)
  {
    if |matches| > 1 {
      NearestIsNearest(matches[1..], line);
      assert matches == [matches[0]] + matches[1..];
    }
  }

  /** The finding quotes a line. */
  predicate Quotes(f: Finding) {
    f.anchor.Some? && Trim(f.anchor.value) != []
  }

  function CandidatesOf(index: Index, f: Finding): Candidates {
    if (f.path, f.side) in index then index[(f.path, f.side)] else []
  }

  function SnapOne(f: Finding, index: Index): Finding {
    if !Quotes(f) then f
    else
      var matches := MatchAnchor(f.anchor.value, CandidatesOf(index, f));
      if matches == [] then f.(anchored := false)
      else if f.line in matches then f
      else f.(line := Nearest(matches, f.line))
  }

  /** Snapping a second time changes nothing. */
  lemma SnapIsIdempotent(f: Finding, index: Index)
    ensures SnapOne(SnapOne(f, index), index) == SnapOne(f, index)
  {
    hide MatchAnchor, Trim;
    var matches := if Quotes(f) then MatchAnchor(f.anchor.value, CandidatesOf(index, f)) else [];
    if matches != [] {
      NearestIsNearest(matches, f.line);
    }
  }

  lemma {:induction false} NearestIsFirst(matches: seq<nat>, line: nat) returns (i: nat)
    requires matches != []
    ensures i < |matches| && matches[i] == Nearest(matches, line)
    ensures forall j :: 0 <= j < i ==> Distance(matches[j], line) > Distance(matches[i], line)
  {
    if |matches| == 1 || Distance(matches[0], line) <= Distance(Nearest(matches[1..], line), line) {
      i := 0;
    } else {
      i := NearestIsFirst(matches[1..], line);
      forall j | 0 <= j < i + 1
        ensures Distance(matches[j], line) > Distance(matches[i + 1], line)
      {
        assert j > 0 ==> matches[1..][j - 1] == matches[j];
      }
      i := i + 1;
    }
  }

  /**
    What snapping does to a finding that quotes a line: it moves to the match
    nearest to the line it claims, the first of the nearest, and keeps its anchor;
    where nothing matches it stays where it is and loses its anchor. Nothing else
    of it changes, and a finding without a quote does not change at all.
   */
  lemma SnapIs(f: Finding, index: Index) returns (i: nat)
    ensures f.anchor.None? || Trim(f.anchor.value) == [] ==> SnapOne(f, index) == f
    ensures f.anchor.Some? && Trim(f.anchor.value) != [] ==>
              var matches := MatchAnchor(f.anchor.value, if (f.path, f.side) in index then index[(f.path, f.side)] else []);
              if matches == [] then SnapOne(f, index) == f.(anchored := false)
              else
                && i < |matches| && SnapOne(f, index) == f.(line := matches[i])
                && (forall m :: m in matches ==> NoFurther(matches[i], m, f.line))
                && (forall j :: 0 <= j < i ==> !NoFurther(matches[j], matches[i], f.line) || matches[j] == matches[i])
  {
    hide MatchAnchor, Trim;
    i := 0;
    var matches := if Quotes(f) then MatchAnchor(f.anchor.value, CandidatesOf(index, f)) else [];
    if matches != [] {
      NearestIsNearest(matches, f.line);
      i := NearestIsFirst(matches, f.line);
      if f.line in matches {
        assert Nearest(matches, f.line) == f.line;
      }
    }
  }

  /** `a` is no further from the line than `b`. */
  predicate NoFurther(a: nat, b: nat, line: nat) {
    (if a <= line then line - a else a - line) <= if b <= line then line - b else b - line
  }

  /** A quoting finding still anchored after snapping is on a match, and on the one nearest to the claimed line. */
  lemma SnapIsNearest(f: Finding, index: Index)
    requires Quotes(f) && SnapOne(f, index).anchored
    ensures var matches := MatchAnchor(f.anchor.value, CandidatesOf(index, f));
            && SnapOne(f, index).line in matches
            && forall m :: m in matches ==> Distance(SnapOne(f, index).line, f.line) <= Distance(m, f.line)
  {
    hide MatchAnchor, Trim;
    var matches := MatchAnchor(f.anchor.value, CandidatesOf(index, f));
    if matches != [] {
      NearestIsNearest(matches, f.line);
    }
  }

  function PlaceOf(f: Finding): Place { (f.path, f.line, f.side) }

  /**
    Snapped against a diff with the same meaning as the original, for instance
    its expansion, a quoting finding that is still anchored sits on a changed
    line of the original, which a comment can attach to.
   */
  lemma SnapLandsOnTheDiff(f: Finding, index: Index, reviewed: seq<Line>, original: seq<Line>)
    requires Indexes(index, Changes(reviewed)) && Changes(reviewed) == Changes(original)
    requires Quotes(f) && SnapOne(f, index).anchored
    ensures exists text :: Change(f.path, f.side, SnapOne(f, index).line, text) in Changes(original)
    ensures PlaceOf(SnapOne(f, index)) in PlacesIn(Walk(INIT, original))
  {
    hide MatchAnchor, Trim, OnKey, PlacesIn, Walk, ChangesOf;
    var line := SnapOne(f, index).line;
    var candidates := CandidatesOf(index, f);
    SnapIsNearest(f, index);
    MatchesAreCandidates(f.anchor.value, candidates, line);
    var i :| 0 <= i < |candidates| && candidates[i].0 == line;
    var text := candidates[i].1;
    assert (line, text) in candidates;
    assert candidates == OnKey(Changes(original), f.path, f.side);
    OnKeyMember(Changes(original), f.path, f.side, line, text);
    var c := Change(f.path, f.side, line, text);
    ChangedLinesAreCommentable(Walk(INIT, original), c);
    PlacesAreShown(Walk(INIT, original), PlaceOf(SnapOne(f, index)));
  }

  /** `_snap_findings` over the diff that was reviewed. */
  method SnapFindings(findings: seq<Finding>, reviewed: seq<Line>, ghost original: seq<Line>)
    returns (snapped: seq<Finding>, ghost index: Index)
    requires Changes(reviewed) == Changes(original)
    ensures Indexes(index, Changes(original))
    ensures |snapped| == |findings| && forall i :: 0 <= i < |findings| ==> snapped[i] == SnapOne(findings[i], index)
    ensures forall f :: f in snapped && Quotes(f) && f.anchored ==> PlaceOf(f) in PlacesIn(Walk(INIT, original))
  {
    hide Quotes, SnapOne, PlacesIn, Walk, Indexes, Changes;
    var built := ChangedLineIndex(reviewed);
    index := built;
    snapped := [];
    for i := 0 to |findings|
      invariant |snapped| == i && forall k :: 0 <= k < i ==> snapped[k] == SnapOne(findings[k], index)
      invariant forall f :: f in snapped && Quotes(f) && f.anchored ==> PlaceOf(f) in PlacesIn(Walk(INIT, original))
    {
      var s := SnapOne(findings[i], built);
      SnapKeepsQuote(findings[i], built);
      if Quotes(s) && s.anchored {
        SnapLandsOnTheDiff(findings[i], built, reviewed, original);
      }
      snapped := snapped + [s];
    }
  }

  lemma SnapKeepsQuote(f: Finding, index: Index)
    ensures Quotes(SnapOne(f, index)) == Quotes(f)
    ensures SnapOne(f, index).(line := f.line, anchored := f.anchored) == f
  {
    hide MatchAnchor;
  }

  // ---------------------------------------------------------------------
  // Duplicates
  // ---------------------------------------------------------------------

  /** `a` replaces `b` at their place: more severe, or as severe with a longer body. */
  predicate Better(a: Finding, b: Finding) {
    a.severity.Rank() > b.severity.Rank() || (a.severity.Rank() == b.severity.Rank() && |a.body| > |b.body|)
  }

  /** Among the first `n` findings `i` wins its place: nothing is better, and everything earlier is worse. */
  ghost predicate Wins(fs: seq<Finding>, n: nat, i: nat)
    requires n <= |fs|
  {
    && i < n
    && forall j :: 0 <= j < n && PlaceOf(fs[j]) == PlaceOf(fs[i]) ==>
         !Better(fs[j], fs[i]) && (j < i ==> Better(fs[i], fs[j]))
  }

  /** A winner is the most severe at its place; of equals the longest; and of those the earliest. */
  lemma WinnerIs(fs: seq<Finding>, i: nat, j: nat)
    requires Wins(fs, |fs|, i) && j < |fs| && fs[j].path == fs[i].path && fs[j].line == fs[i].line && fs[j].side == fs[i].side
    ensures fs[i].severity.Rank() >= fs[j].severity.Rank()
    ensures fs[i].severity.Rank() == fs[j].severity.Rank() ==> |fs[i].body| >= |fs[j].body|
    ensures fs[i].severity.Rank() == fs[j].severity.Rank() && |fs[i].body| == |fs[j].body| ==> i <= j
  {
  }

  /** `at` is the first of the findings at its place. */
  ghost predicate First(fs: seq<Finding>, at: nat) {
    at < |fs| && forall j :: 0 <= j < at ==> PlaceOf(fs[j]) != PlaceOf(fs[at])
  }

  /**
    The places met so far, in order of first appearance, and the finding held
    for each: `picks` and `firsts` say which findings these are.
   */
  ghost predicate Holding(fs: seq<Finding>, n: nat, order: seq<Place>, best: map<Place, Finding>,
                          picks: map<Place, nat>, firsts: map<Place, nat>)
    requires n <= |fs|
  {
    && (forall p :: p in order <==> p in best) && best.Keys == picks.Keys == firsts.Keys
    && (forall i :: 0 <= i < n ==> PlaceOf(fs[i]) in best)
    && (forall p :: p in best ==> Wins(fs, n, picks[p]) && best[p] == fs[picks[p]] && PlaceOf(fs[picks[p]]) == p)
    && (forall p :: p in best ==> firsts[p] < n && First(fs, firsts[p]) && PlaceOf(fs[firsts[p]]) == p)
    && (forall a, b :: 0 <= a < b < |order| ==> order[a] in firsts && order[b] in firsts && firsts[order[a]] < firsts[order[b]])
  }

  lemma NotBetterThanItself(a: Finding)
    ensures !Better(a, a)
  {
  }

  lemma BetterThrough(a: Finding, b: Finding, c: Finding)
    requires Better(a, b) && !Better(c, b)
    ensures Better(a, c) && !Better(c, a)
  {
  }

  /** A later finding that is not better leaves the winner of its place. */
  lemma WinsOn(fs: seq<Finding>, n: nat, i: nat)
    requires n < |fs| && Wins(fs, n, i)
    requires PlaceOf(fs[n]) == PlaceOf(fs[i]) ==> !Better(fs[n], fs[i])
    ensures Wins(fs, n + 1, i) && i < n
  {
    hide Better;
  }

  /** The first finding at a place wins it. */
  lemma WinsFresh(fs: seq<Finding>, n: nat)
    requires n < |fs| && forall i :: 0 <= i < n ==> PlaceOf(fs[i]) != PlaceOf(fs[n])
    ensures Wins(fs, n + 1, n) && First(fs, n)
  {
    hide Better;
    NotBetterThanItself(fs[n]);
  }

  /** A better finding wins the place from its winner. */
  lemma WinsOver(fs: seq<Finding>, n: nat, i: nat)
    requires n < |fs| && Wins(fs, n, i) && PlaceOf(fs[i]) == PlaceOf(fs[n]) && Better(fs[n], fs[i])
    ensures Wins(fs, n + 1, n)
  {
    hide Better;
    forall j | 0 <= j < n + 1 && PlaceOf(fs[j]) == PlaceOf(fs[n])
      ensures !Better(fs[j], fs[n]) && (j < n ==> Better(fs[n], fs[j]))
    {
      if j < n {
        BetterThrough(fs[n], fs[i], fs[j]);
      } else {
        NotBetterThanItself(fs[n]);
      }
    }
  }

  /** Every other place keeps its winner. */
  lemma OthersWinOn(fs: seq<Finding>, n: nat, order: seq<Place>, best: map<Place, Finding>,
                    picks: map<Place, nat>, firsts: map<Place, nat>)
    requires n < |fs| && Holding(fs, n, order, best, picks, firsts)
    ensures forall q :: q in best && q != PlaceOf(fs[n]) ==> Wins(fs, n + 1, picks[q])
  {
    hide Better, Wins, First;
    forall q | q in best && q != PlaceOf(fs[n])
      ensures Wins(fs, n + 1, picks[q])
    {
      WinsEarlier(fs, n, picks[q]);
      assert PlaceOf(fs[picks[q]]) == q;
      WinsOn(fs, n, picks[q]);
    }
  }

  lemma WinsEarlier(fs: seq<Finding>, n: nat, i: nat)
    requires n <= |fs| && Wins(fs, n, i)
    ensures i < n
  {
  }

  lemma {:induction false} HoldNew(fs: seq<Finding>, n: nat, order: seq<Place>, best: map<Place, Finding>,
                picks: map<Place, nat>, firsts: map<Place, nat>)
    requires n < |fs| && Holding(fs, n, order, best, picks, firsts) && PlaceOf(fs[n]) !in best
    ensures var p := PlaceOf(fs[n]);
            Holding(fs, n + 1, order + [p], best[p := fs[n]], picks[p := n], firsts[p := n])
  {
    hide Better, Wins, First;
    WinsFresh(fs, n);
    OthersWinOn(fs, n, order, best, picks, firsts);
    var order' := order + [PlaceOf(fs[n])];
    forall a | 0 <= a < |order|
      ensures order'[a] in best
    {
      assert order[a] in order;
    }
  }

  lemma {:induction false} HoldBetter(fs: seq<Finding>, n: nat, order: seq<Place>, best: map<Place, Finding>,
                   picks: map<Place, nat>, firsts: map<Place, nat>)
    requires n < |fs| && Holding(fs, n, order, best, picks, firsts)
    requires PlaceOf(fs[n]) in best && Better(fs[n], best[PlaceOf(fs[n])])
    ensures var p := PlaceOf(fs[n]);
            Holding(fs, n + 1, order, best[p := fs[n]], picks[p := n], firsts)
  {
    hide Better, Wins, First;
    var p := PlaceOf(fs[n]);
    WinsEarlier(fs, n, picks[p]);
    WinsOver(fs, n, picks[p]);
    OthersWinOn(fs, n, order, best, picks, firsts);
  }

  lemma {:induction false} HoldSame(fs: seq<Finding>, n: nat, order: seq<Place>, best: map<Place, Finding>,
                 picks: map<Place, nat>, firsts: map<Place, nat>)
    requires n < |fs| && Holding(fs, n, order, best, picks, firsts)
    requires PlaceOf(fs[n]) in best && !Better(fs[n], best[PlaceOf(fs[n])])
    ensures Holding(fs, n + 1, order, best, picks, firsts)
  {
    hide Better, Wins, First;
    WinsOn(fs, n, picks[PlaceOf(fs[n])]);
    OthersWinOn(fs, n, order, best, picks, firsts);
  }

  /**
    The result is one finding per place, in order of first appearance: the most
    severe, then the longest, then the earliest.
   */
  ghost predicate Deduped(fs: seq<Finding>, result: seq<Finding>, picks: seq<nat>, firsts: seq<nat>) {
    && |picks| == |firsts| == |result|
    && (forall m :: 0 <= m < |result| ==>
          Wins(fs, |fs|, picks[m]) && result[m] == fs[picks[m]]
          && First(fs, firsts[m]) && PlaceOf(fs[firsts[m]]) == PlaceOf(result[m]))
    && (forall a, b :: 0 <= a < b < |firsts| ==> firsts[a] < firsts[b])
    && (forall f :: f in fs ==> exists m :: 0 <= m < |result| && PlaceOf(result[m]) == PlaceOf(f))
  }

  /** Every finding has one at its place among the results, and that one is the best of the place. */
  lemma OneStands(fs: seq<Finding>, result: seq<Finding>, picks: seq<nat>, firsts: seq<nat>, j: nat) returns (m: nat)
    requires Deduped(fs, result, picks, firsts) && j < |fs|
    ensures m < |result| && picks[m] < |fs| && result[m] == fs[picks[m]]
    ensures result[m].path == fs[j].path && result[m].line == fs[j].line && result[m].side == fs[j].side
    ensures result[m].severity.Rank() >= fs[j].severity.Rank()
    ensures result[m].severity == fs[j].severity ==> |result[m].body| >= |fs[j].body| && (|result[m].body| == |fs[j].body| ==> picks[m] <= j)
  {
    assert fs[j] in fs;
    m :| 0 <= m < |result| && PlaceOf(result[m]) == PlaceOf(fs[j]);
    WinnerIs(fs, picks[m], j);
  }

  method Dedupe(findings: seq<Finding>) returns (result: seq<Finding>, ghost picks: seq<nat>, ghost firsts: seq<nat>)
    ensures Deduped(findings, result, picks, firsts)
    ensures forall i, j :: 0 <= i < j < |result| ==>
              result[i].path != result[j].path || result[i].line != result[j].line || result[i].side != result[j].side
    ensures forall f :: f in result ==> f in findings
  {
    var order: seq<Place>, best: map<Place, Finding> := [], map[];
    ghost var pickOf: map<Place, nat>, firstOf: map<Place, nat> := map[], map[];
    for i := 0 to |findings|
      invariant Holding(findings, i, order, best, pickOf, firstOf)
    {
      hide Holding, Better;
      var f := findings[i];
      var key := PlaceOf(f);
      if key !in best {
        HoldNew(findings, i, order, best, pickOf, firstOf);
        order := order + [key];
        best := best[key := f];
        pickOf, firstOf := pickOf[key := i], firstOf[key := i];
      } else if Better(f, best[key]) {
        HoldBetter(findings, i, order, best, pickOf, firstOf);
        best := best[key := f];
        pickOf := pickOf[key := i];
      } else {
        HoldSame(findings, i, order, best, pickOf, firstOf);
      }
    }
    result, picks, firsts := [], [], [];
    for m := 0 to |order|
      invariant |result| == |picks| == |firsts| == m
      invariant forall k :: 0 <= k < m ==>
                  order[k] in best && result[k] == best[order[k]] && picks[k] == pickOf[order[k]] && firsts[k] == firstOf[order[k]]
    {
      assert order[m] in order;
      result := result + [best[order[m]]];
      picks, firsts := picks + [pickOf[order[m]]], firsts + [firstOf[order[m]]];
    }
    HeldIsDeduped(findings, order, best, pickOf, firstOf, result, picks, firsts);
    DedupedIsOnePerPlace(findings, result, picks, firsts);
  }

  lemma HeldIsDeduped(fs: seq<Finding>, order: seq<Place>, best: map<Place, Finding>, pickOf: map<Place, nat>,
                      firstOf: map<Place, nat>, result: seq<Finding>, picks: seq<nat>, firsts: seq<nat>)
    requires Holding(fs, |fs|, order, best, pickOf, firstOf)
    requires |result| == |picks| == |firsts| == |order|
    requires forall k :: 0 <= k < |order| ==>
               order[k] in best && result[k] == best[order[k]] && picks[k] == pickOf[order[k]] && firsts[k] == firstOf[order[k]]
    ensures Deduped(fs, result, picks, firsts)
  {
    hide Wins, First;
    forall f | f in fs
      ensures exists m :: 0 <= m < |result| && PlaceOf(result[m]) == PlaceOf(f)
    {
      var i :| 0 <= i < |fs| && fs[i] == f;
      assert PlaceOf(fs[i]) in best;
      assert PlaceOf(f) in order;
      var m :| 0 <= m < |order| && order[m] == PlaceOf(f);
      assert PlaceOf(result[m]) == PlaceOf(f);
    }
  }

  lemma DedupedIsOnePerPlace(fs: seq<Finding>, result: seq<Finding>, picks: seq<nat>, firsts: seq<nat>)
    requires Deduped(fs, result, picks, firsts)
    ensures forall i, j :: 0 <= i < j < |result| ==> PlaceOf(result[i]) != PlaceOf(result[j])
    ensures forall f :: f in result ==> f in fs
  {
    hide Better;
    forall i, j | 0 <= i < j < |result|
      ensures PlaceOf(result[i]) != PlaceOf(result[j])
    {
      assert First(fs, firsts[j]) && firsts[i] < firsts[j];
      assert PlaceOf(fs[firsts[i]]) == PlaceOf(result[i]);
    }
  }
}
