/** The whole review: from the diff to the calls, and from their findings to the summary (`review` in `engine/engine.py`). */
module Pipeline {
  import opened Wrappers
  import opened DiffParse
  import opened Patches
  import Cuts
  import opened Compress
  import opened Lookup
  import opened Triage
  import opened Expand
  import opened Render
  import opened ExpandHunks
  import opened Windows
  import Batching
  import opened Findings
  import opened Anchor
  import Reflect
  import opened Retrieve
  import opened Ladder
  import opened Rungs
  import opened Engine
  import opened Schedule
  import opened FanOut
  import opened Notices

  /** The security rules and tool hits that keep a file out of triage's hands. */
  datatype Rules = Rules(hinted: set<string>, pathRule: string -> bool, tokenRule: seq<Line> -> bool)

  /** What the review reads of its configuration. `keeps` is the built-in skip list and the path filters. */
  datatype Settings = Settings(
    keeps: string -> bool,
    maxFileDiffLines: nat,
    triage: Option<Rules>,
    maxFiles: nat,
    maxInputTokens: nat,
    contextLines: nat,
    batchBudget: nat,
    recursive: bool,
    lenses: seq<Lens>,
    suppresses: Finding -> bool,
    evidenced: Finding -> bool,
    reflect: bool,
    minConfidence: int,
    clears: Finding -> bool)

  /** What the review reads of the pull request. */
  datatype Context = Context(
    diff: seq<Line>,
    changedFiles: seq<string>,
    heads: map<string, Text>,
    spans: map<string, seq<Span>>,
    openThreads: nat)

  datatype Result =
    | Incomplete                                                             // every call failed: an exception
    | Posted(findings: seq<Finding>, notices: seq<Notice>, thumbsUp: bool)

  function Filter<T(!new)>(s: seq<T>, p: T -> bool): (r: seq<T>)
    ensures forall x :: x in r <==> x in s && p(x)
    ensures |r| <= |s| && (|r| == |s| ==> r == s)
  {
    if s == [] then []
    else
      var front := Filter(s[..|s| - 1], p);
      assert s == s[..|s| - 1] + [s[|s| - 1]];
      if p(s[|s| - 1]) then front + [s[|s| - 1]] else front
  }

  // ---------------------------------------------------------------------
  // The meaning of a list of files, by membership
  // ---------------------------------------------------------------------

  lemma {:induction false} MeaningOfMember(units: seq<Unit>, u: Unit, c: Change)
    requires u in units && c in Changes(u.1)
    ensures c in UnitsChanges(units)
  {
    if u != units[0] {
      MeaningOfMember(units[1..], u, c);
    }
  }

  lemma {:induction false} MemberWith(units: seq<Unit>, c: Change) returns (u: Unit)
    requires c in UnitsChanges(units)
    ensures u in units && c in Changes(u.1)
  {
    if c in Changes(units[0].1) {
      u := units[0];
    } else {
      u := MemberWith(units[1..], c);
    }
  }

  /** Every changed line of `a` is one of `b`. */
  ghost predicate MeansNoMore(a: seq<Unit>, b: seq<Unit>) {
    forall c :: c in UnitsChanges(a) ==> c in UnitsChanges(b)
  }

  lemma SubsetMeansNoMore(a: seq<Unit>, b: seq<Unit>)
    requires forall u :: u in a ==> u in b
    ensures MeansNoMore(a, b)
  {
    forall c | c in UnitsChanges(a)
      ensures c in UnitsChanges(b)
    {
      var u := MemberWith(a, c);
      MeaningOfMember(b, u, c);
    }
  }

  /** A file as git writes it. */
  ghost predicate GoodFile(u: Unit) {
    CleanPatch(u.0, u.1) && WellFormedHunks(HunksOf(u.1))
  }

  ghost predicate GoodFiles(units: seq<Unit>) {
    forall u :: u in units ==> GoodFile(u)
  }

  /** Both readers of a patch's path find the one it is filed under. */
  predicate Named(units: seq<Unit>, changedFiles: seq<string>) {
    forall i :: 0 <= i < |units| ==> PathOf(units[i].1, i, changedFiles) == units[i].0
  }

  /** The diff is the well-formed patches of `units`, at least one of them, each path once. */
  ghost predicate GoodDiff(units: seq<Unit>, ctx: Context) {
    && units != [] && GoodFiles(units) && DistinctPaths(units) && Named(units, ctx.changedFiles)
    && ctx.diff == DiffOf(units)
    && forall path :: path in ctx.spans ==> SortedSpans(ctx.spans[path])
  }

  lemma GoodFilesAreClean(units: seq<Unit>)
    requires GoodFiles(units)
    ensures AllClean(units)
  {
    hide CleanPatch, WellFormedHunks;
    forall i | 0 <= i < |units|
      ensures CleanPatch(units[i].0, units[i].1)
    {
      assert GoodFile(units[i]);
    }
  }

  // ---------------------------------------------------------------------
  // Choosing the files
  // ---------------------------------------------------------------------

  /** The files worth reviewing: not generated, binary or vendored, and let through by the path filters. */
  function Reviewable(units: seq<Unit>, s: Settings): seq<Unit> {
    Filter(units, (u: Unit) => s.keeps(u.0))
  }

  predicate PassesSizeCap(patch: seq<Line>, maxLines: nat) {
    maxLines == 0 || |patch| <= maxLines
  }

  lemma {:induction false} FilterDistinct(units: seq<Unit>, p: Unit -> bool)
    requires DistinctPaths(units)
    ensures DistinctPaths(Filter(units, p))
  {
    if units != [] {
      var front, last := units[..|units| - 1], units[|units| - 1];
      FilterDistinct(front, p);
      var kept := Filter(front, p);
      forall i | 0 <= i < |kept|
        ensures kept[i].0 != last.0
      {
        assert kept[i] in front;
      }
    }
  }

  lemma SplitIsUnits(units: seq<Unit>, ctx: Context, files: seq<Unit>)
    requires GoodDiff(units, ctx)
    requires Cuts.Before(ctx.diff, IsFileHeader) != ctx.diff ==>
              && |files| == |FileParts(ctx.diff)|
              && forall i :: 0 <= i < |files| ==>
                   files[i] == (PathOf(FileParts(ctx.diff)[i], i, ctx.changedFiles), FileParts(ctx.diff)[i])
    ensures files == units
  {
    GoodFilesAreClean(units);
    SplitRecoversPatches(units);
    FlattenPatches(units);
    assert Cuts.Before(ctx.diff, IsFileHeader) == [] != ctx.diff;
    hide FileParts, PathOf, PatchesOf, DiffOf;
    assert |files| == |units|;
    forall i | 0 <= i < |files|
      ensures files[i] == units[i]
    {
      assert files[i] == (PathOf(units[i].1, i, ctx.changedFiles), units[i].1);
    }
  }

  /** What passes, each element as often and in the order it stood: `at` says where. */
  lemma {:induction false} FilterIs<T(!new)>(s: seq<T>, p: T -> bool) returns (at: seq<nat>)
    ensures |at| == |Filter(s, p)| && (forall k :: 0 <= k < |at| ==> at[k] < |s| && Filter(s, p)[k] == s[at[k]])
    ensures (forall k, l :: 0 <= k < l < |at| ==> at[k] < at[l]) && forall i :: 0 <= i < |s| && p(s[i]) ==> i in at
  {
    hide Filter;
    if s == [] {
      at := [];
      NothingPasses(p);
    } else {
      var front, last := s[..|s| - 1], |s| - 1;
      at := FilterIs(front, p);
      assert s == front + [s[last]];
      FilterSnoc(front, s[last], p);
      var less := Filter(front, p);
      if p(s[last]) {
        PositionsNext(front, s[last], less, at, p);
        at := at + [last];
      } else {
        assert less + [] == less;
      }
    }
  }

  lemma PositionsNext<T(!new)>(front: seq<T>, x: T, less: seq<T>, at: seq<nat>, p: T -> bool)
    requires |at| == |less| && (forall k :: 0 <= k < |at| ==> at[k] < |front| && less[k] == front[at[k]])
    requires (forall k, l :: 0 <= k < l < |at| ==> at[k] < at[l]) && forall i :: 0 <= i < |front| && p(front[i]) ==> i in at
    ensures var s, all, at' := front + [x], less + [x], at + [|front|];
            && |at'| == |all| && (forall k :: 0 <= k < |at'| ==> at'[k] < |s| && all[k] == s[at'[k]])
            && (forall k, l :: 0 <= k < l < |at'| ==> at'[k] < at'[l]) && forall i :: 0 <= i < |s| && p(s[i]) ==> i in at'
  {
    var s, at' := front + [x], at + [|front|];
    assert at'[|at|] == |front|;
    forall i | 0 <= i < |s| && p(s[i])
      ensures i in at'
    {
      if i < |front| {
        assert s[i] == front[i] && i in at;
      }
    }
  }

  lemma NothingPasses<T(!new)>(p: T -> bool)
    ensures Filter([], p) == []
  {
  }

  lemma FilterSnoc<T(!new)>(s: seq<T>, x: T, p: T -> bool)
    ensures Filter(s + [x], p) == Filter(s, p) + (if p(x) then [x] else [])
  {
    assert (s + [x])[..|s + [x]| - 1] == s;
  }

  /** Sets aside the files over the size cap, by name. */
  method ApplySizeCap(files: seq<Unit>, maxLines: nat) returns (kept: seq<Unit>, oversized: seq<string>)
    ensures kept == Filter(files, (u: Unit) => PassesSizeCap(u.1, maxLines))
    ensures oversized == PathsOf(Filter(files, (u: Unit) => !PassesSizeCap(u.1, maxLines)))
  {
    hide PassesSizeCap, Filter, PathsOf;
    ghost var fits, exceeds := (u: Unit) => PassesSizeCap(u.1, maxLines), (u: Unit) => !PassesSizeCap(u.1, maxLines);
    kept, oversized := [], [];
    NothingFiltered(fits, exceeds);
    for i := 0 to |files|
      invariant kept == Filter(files[..i], fits) && oversized == PathsOf(Filter(files[..i], exceeds))
    {
      TakeNext(files, i);
      FilterSnoc(files[..i], files[i], fits);
      FilterSnoc(files[..i], files[i], exceeds);
      PathsOfSnoc(Filter(files[..i], exceeds), files[i]);
      if PassesSizeCap(files[i].1, maxLines) {
        kept := kept + [files[i]];
        assert Filter(files[..i], exceeds) + [] == Filter(files[..i], exceeds);
      } else {
        oversized := oversized + [files[i].0];
        assert kept + [] == kept;
      }
    }
    assert files[..|files|] == files;
  }

  lemma NothingFiltered(p: Unit -> bool, q: Unit -> bool)
    ensures Filter<Unit>([], p) == [] && PathsOf(Filter<Unit>([], q)) == []
  {
  }

  /** What fits and what does not are all there is: nothing set aside means everything kept. */
  lemma {:induction false} AllFit(files: seq<Unit>, maxLines: nat)
    requires PathsOf(Filter(files, (u: Unit) => !PassesSizeCap(u.1, maxLines))) == []
    ensures Filter(files, (u: Unit) => PassesSizeCap(u.1, maxLines)) == files
  {
    hide PassesSizeCap;
    if files != [] {
      var front, last := files[..|files| - 1], files[|files| - 1];
      assert files == front + [last];
      FilterSnoc(front, last, (u: Unit) => !PassesSizeCap(u.1, maxLines));
      FilterSnoc(front, last, (u: Unit) => PassesSizeCap(u.1, maxLines));
      AllFit(front, maxLines);
    }
  }

  /** Splits the diff, filters by path, and sets aside the files over the size cap. */
  method SelectFiles(ctx: Context, s: Settings, ghost units: seq<Unit>) returns (kept: seq<Unit>, oversized: seq<string>)
    requires GoodDiff(units, ctx)
    ensures kept == Filter(Reviewable(units, s), (u: Unit) => PassesSizeCap(u.1, s.maxFileDiffLines))
    ensures oversized == PathsOf(Filter(Reviewable(units, s), (u: Unit) => !PassesSizeCap(u.1, s.maxFileDiffLines)))
    ensures oversized == [] ==> kept == Reviewable(units, s)
    ensures oversized == [] <==> forall u :: u in Reviewable(units, s) ==> PassesSizeCap(u.1, s.maxFileDiffLines)
  {
    var files := SplitByFile(ctx.diff, ctx.changedFiles);
    SplitIsUnits(units, ctx, files);
    hide *;
    kept, oversized := ApplySizeCap(Reviewable(files, s), s.maxFileDiffLines);
    if oversized == [] {
      AllFit(Reviewable(units, s), s.maxFileDiffLines);
    }
    OversizedIff(Reviewable(units, s), s.maxFileDiffLines, oversized);
  }

  /** A file is kept exactly when it passes the path filters and the size limit, and named when it fails only the latter. */
  lemma SelectedAre(units: seq<Unit>, s: Settings, kept: seq<Unit>, oversized: seq<string>, u: Unit)
    requires kept == Filter(Reviewable(units, s), (u: Unit) => PassesSizeCap(u.1, s.maxFileDiffLines))
    requires oversized == PathsOf(Filter(Reviewable(units, s), (u: Unit) => !PassesSizeCap(u.1, s.maxFileDiffLines)))
    ensures u in kept <==> u in units && s.keeps(u.0) && (s.maxFileDiffLines == 0 || |u.1| <= s.maxFileDiffLines)
    ensures u in units && s.keeps(u.0) && 0 < s.maxFileDiffLines < |u.1| ==> u.0 in oversized
  {
    var exceeding := Filter(Reviewable(units, s), (u: Unit) => !PassesSizeCap(u.1, s.maxFileDiffLines));
    if u in exceeding {
      var i :| 0 <= i < |exceeding| && exceeding[i] == u;
      assert oversized[i] == u.0;
    }
  }

  lemma OversizedNames(units: seq<Unit>, s: Settings, oversized: seq<string>)
    requires oversized == PathsOf(Filter(Reviewable(units, s), (u: Unit) => !PassesSizeCap(u.1, s.maxFileDiffLines)))
    ensures OversizedAre(units, s, oversized)
  {
    var exceeding := Filter(Reviewable(units, s), (u: Unit) => !PassesSizeCap(u.1, s.maxFileDiffLines));
    forall p | p in oversized
      ensures exists u :: u in units && u.0 == p && s.keeps(p) && 0 < s.maxFileDiffLines < |u.1|
    {
      var i :| 0 <= i < |oversized| && oversized[i] == p;
      assert exceeding[i] in exceeding;
    }
    forall u | u in units && s.keeps(u.0) && 0 < s.maxFileDiffLines < |u.1|
      ensures u.0 in oversized
    {
      var i :| 0 <= i < |exceeding| && exceeding[i] == u;
      assert oversized[i] == u.0;
    }
  }

  lemma OversizedIff(files: seq<Unit>, maxLines: nat, oversized: seq<string>)
    requires oversized == PathsOf(Filter(files, (u: Unit) => !PassesSizeCap(u.1, maxLines)))
    ensures oversized == [] <==> forall u :: u in files ==> PassesSizeCap(u.1, maxLines)
  {
    hide PassesSizeCap, Filter;
    var exceeding := Filter(files, (u: Unit) => !PassesSizeCap(u.1, maxLines));
    assert oversized == [] <==> exceeding == [];
    if exceeding != [] {
      assert exceeding[0] in exceeding;
    }
  }

  /** The floor holds the files with a tool's hit, a security path or token, or 200 changed lines. */
  ghost predicate HeldBack(files: seq<Unit>, rules: Rules, floor: seq<bool>) {
    && |floor| == |files|
    && forall i :: 0 <= i < |files| ==>
         (floor[i] <==> files[i].0 in rules.hinted || rules.pathRule(files[i].0) || rules.tokenRule(files[i].1)
                        || |Changes(files[i].1)| + Surplus(files[i].1, |files[i].1|) >= 200)
  }

  /**
    The order in which the files are reviewed: as they come without triage, or when the
    cheap model failed, or the floor holds every path; else as triage ranks them.
   */
  ghost predicate InReviewOrder(files: seq<Unit>, s: Settings, verdicts: Option<Verdicts>, order: seq<Unit>, skipped: seq<string>) {
    if s.triage.None? || files == [] then order == files && skipped == []
    else exists floor :: HeldBack(files, s.triage.value, floor) && RoutedBy(files, floor, verdicts, order, skipped)
  }

  ghost predicate RoutedBy(files: seq<Unit>, floor: seq<bool>, verdicts: Option<Verdicts>, order: seq<Unit>, skipped: seq<string>)
    requires |floor| == |files|
  {
    if verdicts.None? || (forall i :: !OffFloor(files, floor, i)) then order == files && skipped == []
    else exists at, out :: Triaged(files, floor, verdicts.value, order, skipped, at, out)
  }

  lemma HowTriaged(files: seq<Unit>, rules: Rules, floor: seq<bool>, verdicts: Option<Verdicts>, review: seq<Unit>, skipped: seq<string>,
                   at: seq<nat>, out: seq<nat>)
    requires |floor| == |files|
    requires forall i :: 0 <= i < |files| ==> (floor[i] <==> IsRisky(files[i].0, files[i].1, rules.hinted, rules.pathRule, rules.tokenRule))
    requires verdicts.None? || (forall i :: !OffFloor(files, floor, i)) ==> review == files && skipped == []
    requires verdicts.Some? && (exists i :: OffFloor(files, floor, i)) ==> Triaged(files, floor, verdicts.value, review, skipped, at, out)
    ensures files != [] ==> forall s: Settings :: s.triage == Some(rules) ==> InReviewOrder(files, s, verdicts, review, skipped)
  {
    hide OffFloor, Triaged, Surplus, Changes;
    assert HeldBack(files, rules, floor) && RoutedBy(files, floor, verdicts, review, skipped);
  }

  lemma Unrouted(files: seq<Unit>, s: Settings, verdicts: Option<Verdicts>)
    ensures s.triage.None? || files == [] ==> InReviewOrder(files, s, verdicts, files, [])
  {
  }

  /** Triage when it is configured, then the file cap: what is left is reviewed, riskiest first. */
  method Prioritise(files: seq<Unit>, s: Settings, verdicts: Option<Verdicts>)
    returns (review: seq<Unit>, skipped: seq<string>, capped: bool, ghost order: seq<Unit>)
    requires DistinctPaths(files)
    ensures InReviewOrder(files, s, verdicts, order, skipped)
    ensures capped == (|order| > s.maxFiles) && review == if capped then order[..s.maxFiles] else order
    ensures forall u :: u in review ==> u in files
    ensures skipped == [] && !capped ==> forall u :: u in files ==> u in review
    ensures |review| <= s.maxFiles && (capped ==> |review| == s.maxFiles)
    ensures s.triage.None? ==> skipped == [] && (capped <==> |files| > s.maxFiles)
                               && review == if |files| <= s.maxFiles then files else files[..s.maxFiles]
    ensures s.triage.Some? && !capped ==>
              forall u :: u in files && IsRisky(u.0, u.1, s.triage.value.hinted, s.triage.value.pathRule, s.triage.value.tokenRule) ==>
                u in review
  {
    hide Routes, WithFate, IsRisky, InReviewOrder, HeldBack, RoutedBy, OffFloor, Triaged, DistinctPaths;
    review, skipped := files, [];
    Unrouted(files, s, verdicts);
    if s.triage.Some? && files != [] {
      var floor := FloorOf(files, s.triage.value);
      ghost var rated, at, out;
      review, skipped, rated, at, out := TriageFiles(files, floor, verdicts);
      TriagedFrom(files, floor, verdicts, review, skipped);
      HowTriaged(files, s.triage.value, floor, verdicts, review, skipped, at, out);
    }
    order := review;
    capped := |review| > s.maxFiles;
    if capped {
      review := review[..s.maxFiles];
    }
  }

  lemma {:induction false} TriagedFrom(files: seq<Unit>, floor: seq<bool>, verdicts: Option<Verdicts>, review: seq<Unit>, skipped: seq<string>)
    requires |floor| == |files| && DistinctPaths(files)
    requires !Routes(files, floor, verdicts) ==> review == files && skipped == []
    requires Routes(files, floor, verdicts) ==>
               multiset(review) + multiset(WithFate(files, floor, verdicts.value, Skipped, |files|))
               + multiset(WithFate(files, floor, verdicts.value, Shadowed, |files|)) == multiset(files)
    requires skipped == [] ==> multiset(review) == multiset(files)
    ensures forall u :: u in review ==> u in files
    ensures skipped == [] ==> forall u :: u in files ==> u in review
  {
    hide WithFate, Routes, DistinctPaths;
    forall u | u in review
      ensures u in files
    {
      assert u in multiset(review);
      assert u in multiset(files);
    }
    if skipped == [] {
      forall u | u in files
        ensures u in review
      {
        assert u in multiset(files);
        assert u in multiset(review);
      }
    }
  }

  /** Which files the deterministic floor keeps from triage. */
  method FloorOf(files: seq<Unit>, rules: Rules) returns (floor: seq<bool>)
    ensures |floor| == |files|
    ensures forall i :: 0 <= i < |files| ==>
              (floor[i] <==> IsRisky(files[i].0, files[i].1, rules.hinted, rules.pathRule, rules.tokenRule))
  {
    hide IsRisky;
    floor := [];
    for i := 0 to |files|
      invariant |floor| == i
      invariant forall k :: 0 <= k < i ==>
                  (floor[k] <==> IsRisky(files[k].0, files[k].1, rules.hinted, rules.pathRule, rules.tokenRule))
    {
      var held := AlwaysEscalate(files[i].0, files[i].1, rules.hinted, rules.pathRule, rules.tokenRule);
      floor := floor + [held];
    }
  }

  // ---------------------------------------------------------------------
  // Preparing the calls
  // ---------------------------------------------------------------------

  const TOKENS_PER_CONTEXT_LINE: nat := 5000

  function ContextLinesForBudget(remaining: nat): nat {
    var lines := remaining / TOKENS_PER_CONTEXT_LINE;
    if lines <= MAX_CONTEXT_LINES then lines else MAX_CONTEXT_LINES
  }

  function TrailingContextLines(before: nat): nat {
    if before == 0 then 0 else if before / 4 < 1 then 1 else before / 4
  }

  /** The same files under the same paths, clean, meaning what they meant. */
  ghost predicate SameMeaning(files: seq<Unit>, expanded: seq<Unit>) {
    && |expanded| == |files| && (forall i :: 0 <= i < |files| ==> expanded[i].0 == files[i].0)
    && AllClean(expanded) && UnitsChanges(expanded) == UnitsChanges(files)
  }

  lemma SameMeaningNext(files: seq<Unit>, i: nat, expanded: seq<Unit>, out: seq<Line>)
    requires i < |files| && SameMeaning(files[..i], expanded)
    requires CleanPatch(files[i].0, out) && Changes(out) == Changes(files[i].1)
    ensures SameMeaning(files[..i + 1], expanded + [(files[i].0, out)])
  {
    hide CleanPatch, Changes, UnitsChanges;
    TakeNext(files, i);
    UnitsChangesSnoc(files[..i], files[i]);
    UnitsChangesSnoc(expanded, (files[i].0, out));
  }

  function TokensOf(files: seq<Unit>, count: Counter): nat {
    if files == [] then 0 else TokensOf(files[..|files| - 1], count) + count(files[|files| - 1].1)
  }

  /** How many lines a hunk may be padded by: what is configured, as far as the tokens left over buy them. */
  function PadBudget(files: seq<Unit>, s: Settings, count: Counter): nat {
    var used := TokensOf(files, count);
    var budgeted := ContextLinesForBudget(if used < s.maxInputTokens then s.maxInputTokens - used else 0);
    if s.contextLines <= budgeted then s.contextLines else budgeted
  }

  /** So many lines are configured, within the cap, and paid for by what the files leave of the token budget. */
  predicate Affordable(files: seq<Unit>, s: Settings, count: Counter, lines: nat) {
    && lines <= s.contextLines && lines <= MAX_CONTEXT_LINES
    && (lines > 0 ==> TokensOf(files, count) + TOKENS_PER_CONTEXT_LINE * lines <= s.maxInputTokens)
  }

  /** The affordable numbers are exactly those up to the result. */
  lemma PadBudgetIsLargest(files: seq<Unit>, s: Settings, count: Counter, m: nat)
    ensures m <= PadBudget(files, s, count) <==> Affordable(files, s, count, m)
  {
    hide TokensOf;
    var used := TokensOf(files, count);
    BudgetBuys(if used < s.maxInputTokens then s.maxInputTokens - used else 0, m);
  }

  lemma BudgetBuys(remaining: nat, m: nat)
    ensures m <= remaining / TOKENS_PER_CONTEXT_LINE <==> TOKENS_PER_CONTEXT_LINE * m <= remaining
  {
  }

  /** How far hunks are padded: as many lines as are affordable, none once the files use the budget up. */
  method PadLines(files: seq<Unit>, s: Settings, count: Counter) returns (lines: nat)
    ensures Affordable(files, s, count, lines) && forall m: nat :: Affordable(files, s, count, m) ==> m <= lines
    ensures TokensOf(files, count) + TOKENS_PER_CONTEXT_LINE > s.maxInputTokens ==> lines == 0
    ensures lines == PadBudget(files, s, count)
  {
    var used := 0;
    for i := 0 to |files|
      invariant used == TokensOf(files[..i], count)
    {
      assert files[..i + 1][..i] == files[..i];
      used := used + count(files[i].1);
    }
    assert files[..|files|] == files;
    var remaining := if used < s.maxInputTokens then s.maxInputTokens - used else 0;
    var budgeted := ContextLinesForBudget(remaining);
    lines := if s.contextLines <= budgeted then s.contextLines else budgeted;
    forall m: nat
      ensures m <= lines <==> Affordable(files, s, count, m)
    {
      PadBudgetIsLargest(files, s, count, m);
    }
    assert Affordable(files, s, count, lines);
  }

  function HeadOf(ctx: Context, path: string): Text { if path in ctx.heads then ctx.heads[path] else [] }

  function SpansOf(ctx: Context, path: string): seq<Span> { if path in ctx.spans then ctx.spans[path] else [] }

  /** File `i` is padded by `lines`, with its own head text and definition spans. */
  ghost predicate Padded(files: seq<Unit>, expanded: seq<Unit>, groups: seq<seq<Group>>, i: nat, lines: nat, ctx: Context)
    requires i < |files| == |expanded| == |groups|
  {
    Expansion(files[i].1, HeadOf(ctx, files[i].0), lines, TrailingContextLines(lines), SpansOf(ctx, files[i].0),
              expanded[i].1, groups[i])
  }

  ghost predicate AllPadded(files: seq<Unit>, expanded: seq<Unit>, groups: seq<seq<Group>>, lines: nat, ctx: Context) {
    |files| == |expanded| == |groups| && forall i :: 0 <= i < |files| ==> Padded(files, expanded, groups, i, lines, ctx)
  }

  lemma PaddedNext(files: seq<Unit>, i: nat, expanded: seq<Unit>, groups: seq<seq<Group>>, lines: nat, ctx: Context,
                   out: seq<Line>, g: seq<Group>)
    requires i < |files| && AllPadded(files[..i], expanded, groups, lines, ctx)
    requires Expansion(files[i].1, HeadOf(ctx, files[i].0), lines, TrailingContextLines(lines), SpansOf(ctx, files[i].0), out, g)
    ensures AllPadded(files[..i + 1], expanded + [(files[i].0, out)], groups + [g], lines, ctx)
  {
    hide Expansion, HeadOf, SpansOf;
    var files', expanded', groups' := files[..i + 1], expanded + [(files[i].0, out)], groups + [g];
    forall k | 0 <= k < |files'|
      ensures Padded(files', expanded', groups', k, lines, ctx)
    {
      if k < i {
        assert Padded(files[..i], expanded, groups, k, lines, ctx);
      }
    }
  }

  /** Pads every file's hunks as far as the token budget allows; with no room or no head texts the files stay as they are. */
  method ExpandFiles(files: seq<Unit>, ctx: Context, s: Settings, count: Counter)
    returns (expanded: seq<Unit>, ghost groups: seq<seq<Group>>)
    requires GoodFiles(files) && forall path :: path in ctx.spans ==> SortedSpans(ctx.spans[path])
    ensures SameMeaning(files, expanded)
    ensures var lines := PadBudget(files, s, count);
            if lines == 0 || ctx.heads == map[] then expanded == files else AllPadded(files, expanded, groups, lines, ctx)
  {
    hide SameMeaning, GoodFiles, SortedSpans, CleanPatch, WellFormedHunks, Changed, HunksOf, Expansion, AllPadded, PadBudget;
    var lines := PadLines(files, s, count);
    groups := [];
    if lines == 0 || ctx.heads == map[] {
      AlreadySame(files);
      return files, groups;
    }
    expanded := [];
    SameMeaningOfNone(files, lines, ctx);
    for i := 0 to |files|
      invariant SameMeaning(files[..i], expanded) && AllPadded(files[..i], expanded, groups, lines, ctx)
    {
      var path, patch := files[i].0, files[i].1;
      GoodFileIs(files, i);
      NoSpansSorted();
      ghost var g;
      var out;
      out, g := ExpandHunks.ExpandHunks(path, patch, HeadOf(ctx, path), lines, TrailingContextLines(lines), SpansOf(ctx, path));
      SameMeaningNext(files, i, expanded, out);
      PaddedNext(files, i, expanded, groups, lines, ctx, out, g);
      expanded, groups := expanded + [(path, out)], groups + [g];
    }
    assert files[..|files|] == files;
  }

  lemma AlreadySame(files: seq<Unit>)
    requires GoodFiles(files)
    ensures SameMeaning(files, files)
  {
    hide GoodFiles, UnitsChanges;
    GoodFilesAreClean(files);
  }

  lemma SameMeaningOfNone(files: seq<Unit>, lines: nat, ctx: Context)
    ensures SameMeaning(files[..0], []) && AllPadded(files[..0], [], [], lines, ctx)
  {
    assert files[..0] == [];
  }

  lemma NoSpansSorted()
    ensures SortedSpans([])
  {
  }

  lemma GoodFileIs(files: seq<Unit>, i: nat)
    requires GoodFiles(files) && i < |files|
    ensures CleanPatch(files[i].0, files[i].1) && WellFormedHunks(HunksOf(files[i].1))
  {
    hide CleanPatch, WellFormedHunks, HunksOf;
    assert GoodFile(files[i]);
  }

  function CallsFor(lenses: seq<Lens>, batchNum: nat, batch: seq<Unit>): (r: seq<PreparedCall>)
    ensures |r| == |lenses| && forall i :: 0 <= i < |r| ==> r[i] == PreparedCall(lenses[i], batchNum, batch)
  {
    if lenses == [] then [] else [PreparedCall(lenses[0], batchNum, batch)] + CallsFor(lenses[1..], batchNum, batch)
  }

  /** One call a lens for every batch; a batch may send its first call ahead to warm the cache. */
  method PrepareCalls(batches: seq<seq<Unit>>, lenses: seq<Lens>) returns (perBatch: seq<BatchCalls>)
    ensures |perBatch| == |batches|
    ensures forall b :: 0 <= b < |batches| ==> perBatch[b].calls == CallsFor(lenses, b + 1, batches[b])
    ensures forall b :: 0 <= b < |batches| && perBatch[b].warm ==> perBatch[b].calls != []
  {
    hide CallsFor;
    perBatch := [];
    for b := 0 to |batches|
      invariant |perBatch| == b
      invariant forall a :: 0 <= a < b ==> perBatch[a].calls == CallsFor(lenses, a + 1, batches[a])
      invariant forall a :: 0 <= a < b && perBatch[a].warm ==> perBatch[a].calls != []
    {
      var wide: bool := *;  // more than one worker, and a payload large enough to be worth caching
      perBatch := perBatch + [BatchCalls(wide && |lenses| > 1, CallsFor(lenses, b + 1, batches[b]))];
    }
  }

  lemma {:induction false} CallAmong(perBatch: seq<BatchCalls>, b: nat, k: nat) returns (i: nat)
    requires b < |perBatch| && k < |perBatch[b].calls|
    ensures i < |AllCalls(perBatch)| && AllCalls(perBatch)[i] == perBatch[b].calls[k]
  {
    var front := perBatch[..|perBatch| - 1];
    if b == |perBatch| - 1 {
      i := |AllCalls(front)| + k;
    } else {
      i := CallAmong(front, b, k);
    }
  }

  // ---------------------------------------------------------------------
  // Every call succeeded: every changed line was in an answered payload
  // ---------------------------------------------------------------------

  ghost predicate Among(part: Log, log: Log) {
    forall c :: c in part ==> c in log
  }

  lemma CoveredAmong(part: Log, log: Log, lens: string, c: Change)
    requires Among(part, log) && CoveredBy(part, lens, c)
    ensures CoveredBy(log, lens, c)
  {
    var i :| 0 <= i < |part| && Answered(part[i]) && part[i].lens == lens && c in Changes(part[i].prompt.diff);
    assert part[i] in log;
    var k :| 0 <= k < |log| && log[k] == part[i];
  }

  lemma {:induction false} RunAmongTrace(runs: map<nat, Log>, order: seq<nat>, i: nat)
    requires (forall j :: j in order ==> j in runs) && i in order
    ensures Among(runs[i], Trace(runs, order))
  {
    var front, last := order[..|order| - 1], order[|order| - 1];
    assert order == front + [last];
    if i != last {
      RunAmongTrace(runs, front, i);
    }
  }

  lemma {:induction false} PartAmongFlatten(parts: seq<Log>, i: nat)
    requires i < |parts|
    ensures Among(parts[i], Flatten(parts))
  {
    if i > 0 {
      PartAmongFlatten(parts[1..], i - 1);
    }
  }

  /** Both attempts at call `i` are part of the record. */
  lemma AttemptsAmong(runs: map<nat, Log>, order: seq<nat>, again: seq<Log>, i: nat)
    requires (forall j :: j in order ==> j in runs) && i in order && i < |again|
    ensures Among(runs[i] + again[i], Trace(runs, order) + Flatten(again))
  {
    RunAmongTrace(runs, order, i);
    PartAmongFlatten(again, i);
    hide Trace, Flatten;
  }

  lemma {:induction false} InSomeBatch(batches: seq<seq<Unit>>, u: Unit) returns (b: nat)
    requires u in Flatten(batches)
    ensures b < |batches| && u in batches[b]
  {
    if u in batches[0] {
      b := 0;
    } else {
      b := InSomeBatch(batches[1..], u);
      b := b + 1;
    }
  }

  /** The calls all succeeded, each leaving its completions in the record. */
  ghost predicate AllSucceeded(calls: seq<PreparedCall>, cap: nat, runs: seq<Log>, merged: seq<Outcome>, made: Log) {
    && |runs| == |merged| == |calls|
    && forall i :: 0 <= i < |calls| ==>
         RanCall(calls[i], cap, runs[i], merged[i]) && merged[i].error.None? && Among(runs[i], made)
  }

  lemma CallCovers(call: PreparedCall, cap: nat, log: Log, outcome: Outcome, made: Log, c: Change)
    requires RanCall(call, cap, log, outcome) && outcome.error.None? && Among(log, made)
    requires AllClean(call.units) && c in UnitsChanges(call.units)
    ensures CoveredBy(made, call.lens.id, c)
  {
    JoinedChanges(INIT, call.units);
    hide AllClean, CoveredBy, Gathered, OfLens, UnitsChanges, Changed, Joined, Among;
    assert c in Owed(Joined(call.units), call.units, true);
    CoveredAmong(log, made, call.lens.id, c);
  }

  /** With no failed call every lens had every changed line of every batch in an answered payload. */
  lemma {:induction false} SuccessCovers(perBatch: seq<BatchCalls>, batches: seq<seq<Unit>>, lenses: seq<Lens>, cap: nat,
                      runs: seq<Log>, merged: seq<Outcome>, made: Log, k: nat, c: Change)
    requires |perBatch| == |batches| && k < |lenses|
    requires forall b :: 0 <= b < |batches| ==> perBatch[b].calls == CallsFor(lenses, b + 1, batches[b])
    requires AllSucceeded(AllCalls(perBatch), cap, runs, merged, made)
    requires AllClean(Flatten(batches)) && c in UnitsChanges(Flatten(batches))
    ensures CoveredBy(made, lenses[k].id, c)
  {
    hide RanCall, CoveredBy, AllCalls, CleanPatch, Changes, Among;
    var u := MemberWith(Flatten(batches), c);
    var b := InSomeBatch(batches, u);
    MeaningOfMember(batches[b], u, c);
    PartIsClean(batches, b);
    var i := CallAmong(perBatch, b, k);
    CallCovers(AllCalls(perBatch)[i], cap, runs[i], merged[i], made, c);
  }

  // ---------------------------------------------------------------------
  // Collecting
  // ---------------------------------------------------------------------

  function FindingsOf(outcomes: seq<Outcome>): seq<Finding> {
    if outcomes == [] then [] else FindingsOf(outcomes[..|outcomes| - 1]) + outcomes[|outcomes| - 1].findings
  }

  function ErrorsOf(outcomes: seq<Outcome>): seq<Reason> {
    if outcomes == [] then []
    else
      var last := outcomes[|outcomes| - 1].error;
      ErrorsOf(outcomes[..|outcomes| - 1]) + (if last.Some? then [last.value] else [])
  }

  lemma {:induction false} NoErrors(outcomes: seq<Outcome>)
    ensures |ErrorsOf(outcomes)| <= |outcomes|
    ensures ErrorsOf(outcomes) == [] <==> forall i :: 0 <= i < |outcomes| ==> outcomes[i].error.None?
    ensures |ErrorsOf(outcomes)| == |outcomes| <==> forall i :: 0 <= i < |outcomes| ==> outcomes[i].error.Some?
  {
    if outcomes != [] {
      var front := outcomes[..|outcomes| - 1];
      NoErrors(front);
      assert forall i :: 0 <= i < |front| ==> outcomes[i] == front[i];
    }
  }

  /** Finding `k` of call `i` comes before finding `l` of call `j`. */
  predicate Earlier(a: (nat, nat), b: (nat, nat)) { a.0 < b.0 || (a.0 == b.0 && a.1 < b.1) }

  /**
    The findings are the calls' own, each once, one call's after another and each
    call's in its order, and there are no others: `from` says which call's and which of its findings each is.
   */
  ghost predicate Collected(outcomes: seq<Outcome>, findings: seq<Finding>, from: seq<(nat, nat)>) {
    && |from| == |findings|
    && (forall k :: 0 <= k < |from| ==>
          from[k].0 < |outcomes| && from[k].1 < |outcomes[from[k].0].findings| && findings[k] == outcomes[from[k].0].findings[from[k].1])
    && (forall k, l :: 0 <= k < l < |from| ==> Earlier(from[k], from[l]))
    && (forall i, j :: 0 <= i < |outcomes| && 0 <= j < |outcomes[i].findings| ==> (i, j) in from)
  }

  /** The errors are those of the failed calls, in call order: `at` says which call each is of. */
  ghost predicate ErrorsCollected(outcomes: seq<Outcome>, errors: seq<Reason>, at: seq<nat>) {
    && |at| == |errors|
    && (forall k :: 0 <= k < |at| ==> at[k] < |outcomes| && outcomes[at[k]].error == Some(errors[k]))
    && (forall k, l :: 0 <= k < l < |at| ==> at[k] < at[l])
    && (forall i :: 0 <= i < |outcomes| && outcomes[i].error.Some? ==> i in at)
  }

  /** The findings of one call. */
  function OfCall(i: nat, n: nat): (r: seq<(nat, nat)>)
    ensures |r| == n && forall j :: 0 <= j < n ==> r[j] == (i, j)
  {
    seq(n, j => (i, j))
  }

  lemma CollectedNext(outcomes: seq<Outcome>, i: nat, findings: seq<Finding>, from: seq<(nat, nat)>)
    requires i < |outcomes| && Collected(outcomes[..i], findings, from)
    ensures Collected(outcomes[..i + 1], findings + outcomes[i].findings, from + OfCall(i, |outcomes[i].findings|))
  {
    var own := OfCall(i, |outcomes[i].findings|);
    var front, more, from' := outcomes[..i], outcomes[..i + 1], from + own;
    assert forall j :: 0 <= j < i ==> more[j] == front[j];
    AllAmong(front, more, i, from, own);
    forall k | 0 <= k < |from'|
      ensures from'[k].0 < |more| && from'[k].1 < |more[from'[k].0].findings|
              && (findings + outcomes[i].findings)[k] == more[from'[k].0].findings[from'[k].1]
    {
      if k < |from| {
        assert from'[k] == from[k];
      } else {
        assert from'[k] == own[k - |from|];
      }
    }
    forall k, l | 0 <= k < l < |from'|
      ensures Earlier(from'[k], from'[l])
    {
      if k < |from| {
        assert from'[k] == from[k];
      } else {
        assert from'[k] == own[k - |from|] && from'[l] == own[l - |from|];
      }
    }
  }

  lemma AllAmong(front: seq<Outcome>, more: seq<Outcome>, i: nat, from: seq<(nat, nat)>, own: seq<(nat, nat)>)
    requires |front| == i && |more| == i + 1 && forall j :: 0 <= j < i ==> more[j] == front[j]
    requires forall a, j :: 0 <= a < |front| && 0 <= j < |front[a].findings| ==> (a, j) in from
    requires own == OfCall(i, |more[i].findings|)
    ensures forall a, j :: 0 <= a < |more| && 0 <= j < |more[a].findings| ==> (a, j) in from + own
  {
    forall a, j | 0 <= a < |more| && 0 <= j < |more[a].findings|
      ensures (a, j) in from + own
    {
      if a == i {
        assert own[j] in own;
      } else {
        assert (a, j) in from;
      }
    }
  }

  lemma ErrorsCollectedNext(outcomes: seq<Outcome>, i: nat, errors: seq<Reason>, at: seq<nat>)
    requires i < |outcomes| && ErrorsCollected(outcomes[..i], errors, at)
    ensures outcomes[i].error.Some? ==> ErrorsCollected(outcomes[..i + 1], errors + [outcomes[i].error.value], at + [i])
    ensures outcomes[i].error.None? ==> ErrorsCollected(outcomes[..i + 1], errors, at)
  {
    TakeNext(outcomes, i);
    assert forall j :: 0 <= j < i ==> outcomes[..i + 1][j] == outcomes[..i][j];
    if outcomes[i].error.Some? {
      var at' := at + [i];
      assert at'[|at|] == i;
      assert forall j :: j in at ==> j in at';
    }
  }

  /** The findings and the errors of the calls, in call order. */
  method Collect(outcomes: seq<Outcome>)
    returns (findings: seq<Finding>, errors: seq<Reason>, ghost from: seq<(nat, nat)>, ghost at: seq<nat>)
    ensures findings == FindingsOf(outcomes) && errors == ErrorsOf(outcomes)
    ensures Collected(outcomes, findings, from) && ErrorsCollected(outcomes, errors, at)
  {
    hide *;
    NothingToCollect(outcomes);
    findings, errors, from, at := [], [], [], [];
    for i := 0 to |outcomes|
      invariant findings == FindingsOf(outcomes[..i]) && errors == ErrorsOf(outcomes[..i])
      invariant Collected(outcomes[..i], findings, from) && ErrorsCollected(outcomes[..i], errors, at)
    {
      CollectedNext(outcomes, i, findings, from);
      ErrorsCollectedNext(outcomes, i, errors, at);
      OfNext(outcomes, i);
      if outcomes[i].error.Some? {
        errors, at := errors + [outcomes[i].error.value], at + [i];
      } else {
        assert ErrorsOf(outcomes[..i]) + [] == ErrorsOf(outcomes[..i]);
      }
      from := from + OfCall(i, |outcomes[i].findings|);
      findings := findings + outcomes[i].findings;
    }
    assert outcomes[..|outcomes|] == outcomes;
  }

  lemma NothingToCollect(outcomes: seq<Outcome>)
    ensures FindingsOf(outcomes[..0]) == [] && ErrorsOf(outcomes[..0]) == []
    ensures Collected(outcomes[..0], [], []) && ErrorsCollected(outcomes[..0], [], [])
  {
  }

  lemma OfNext(outcomes: seq<Outcome>, i: nat)
    requires i < |outcomes|
    ensures FindingsOf(outcomes[..i + 1]) == FindingsOf(outcomes[..i]) + outcomes[i].findings
    ensures ErrorsOf(outcomes[..i + 1]) == ErrorsOf(outcomes[..i]) + if outcomes[i].error.Some? then [outcomes[i].error.value] else []
  {
    assert outcomes[..i + 1][..i] == outcomes[..i];
  }

  // ---------------------------------------------------------------------
  // From findings to comments
  // ---------------------------------------------------------------------

  /** A finding that quotes a line and is anchored sits on a changed line. */
  ghost predicate WellPlaced(f: Finding, cs: seq<Change>) {
    Quotes(f) && f.anchored ==> exists text :: Change(f.path, f.side, f.line, text) in cs
  }

  lemma SnappedWellPlaced(f: Finding, index: Index, reviewed: seq<Line>)
    requires Indexes(index, Changes(reviewed))
    ensures WellPlaced(SnapOne(f, index), Changes(reviewed))
  {
    hide SnapOne, Quotes, Indexes, Changes;
    SnapKeepsQuote(f, index);
    if Quotes(f) && SnapOne(f, index).anchored {
      SnapLandsOnTheDiff(f, index, reviewed, reviewed);
    }
  }

  lemma {:induction false} InBag(fs: seq<Finding>, x: Finding) returns (f: Finding)
    requires x in Reflect.Bag(fs)
    ensures f in fs && Reflect.Erase(f) == x
  {
    if x == Reflect.Erase(fs[0]) {
      f := fs[0];
    } else {
      f := InBag(fs[1..], x);
    }
  }

  lemma {:induction false} BagHolds(fs: seq<Finding>, f: Finding)
    requires f in fs
    ensures Reflect.Erase(f) in Reflect.Bag(fs)
  {
    if f != fs[0] {
      BagHolds(fs[1..], f);
    }
  }

  /** Reflection moves no finding. */
  lemma KeptWellPlaced(kept: seq<Finding>, lost: seq<Reflect.Loss>, given: seq<Finding>, cs: seq<Change>)
    requires Reflect.Bag(kept) + Reflect.LostBag(lost) == Reflect.Bag(given)
    requires forall f :: f in given ==> WellPlaced(f, cs)
    ensures forall f :: f in kept ==> WellPlaced(f, cs)
  {
    forall f | f in kept
      ensures WellPlaced(f, cs)
    {
      BagHolds(kept, f);
      hide Reflect.Bag, Reflect.LostBag, WellPlaced;
      var g := InBag(given, Reflect.Erase(f));
      SamePlace(f, g, cs);
    }
  }

  lemma SamePlace(f: Finding, g: Finding, cs: seq<Change>)
    requires Reflect.Erase(f) == Reflect.Erase(g) && WellPlaced(g, cs)
    ensures WellPlaced(f, cs)
  {
    assert f == g.(broad := f.broad, confidence := f.confidence);
  }

  /** How the posted findings came from the offered ones, stage by stage. */
  datatype Trail = Trail(
    index: Index,
    snapped: seq<Finding>,
    merged: seq<Finding>, picks: seq<nat>, firsts: seq<nat>,
    kept: seq<Finding>, lost: seq<Reflect.Loss>, rounds: seq<Reflect.Round>)

  function Current(merged: seq<Finding>, s: Settings): seq<Finding> {
    Filter(Filter(merged, (f: Finding) => !s.suppresses(f)), s.evidenced)
  }

  /**
    Every offered finding is accounted for: snapped; merged with those at its
    place; and then posted unless it is suppressed, lacks evidence, is lost for a
    reason by an audit that took place, or does not clear the severity floors.
   */
  ghost predicate Refined(findings: seq<Finding>, reviewed: seq<Line>, s: Settings, auditor: Reflect.Auditor, fetcher: Option<Env>, stops: bool,
                          t: Trail, posted: seq<Finding>, suppressed: nat, unaudited: bool) {
    && Indexes(t.index, Changes(reviewed))
    && |t.snapped| == |findings| && (forall i :: 0 <= i < |findings| ==> t.snapped[i] == SnapOne(findings[i], t.index))
    && Deduped(t.snapped, t.merged, t.picks, t.firsts)
    && suppressed == |t.merged| - |Filter(t.merged, (f: Finding) => !s.suppresses(f))|
    && Reflect.Bag(t.kept) + Reflect.LostBag(t.lost) == Reflect.Bag(Current(t.merged, s))
    && unaudited == (stops && s.reflect && Current(t.merged, s) != [])
    && (if s.reflect && Current(t.merged, s) != [] && !unaudited
        then Reflect.Accounted(t.kept, t.lost, t.rounds, auditor, s.minConfidence, fetcher)
             && Reflect.Keeps(Current(t.merged, s), s.minConfidence, auditor, fetcher, 0, t.kept)
        else t.kept == Current(t.merged, s) && t.lost == [])
    && posted == Filter(t.kept, s.clears)
  }

  /** Re-anchors, merges duplicates, and lets the filters and the auditor remove what they may: no finding moves after snapping. */
  method Refine(findings: seq<Finding>, reviewed: seq<Line>, s: Settings, auditor: Reflect.Auditor, fetcher: Option<Env>, stops: bool)
    returns (posted: seq<Finding>, suppressed: nat, unaudited: bool, ghost t: Trail)
    ensures Refined(findings, reviewed, s, auditor, fetcher, stops, t, posted, suppressed, unaudited)
    ensures forall f :: f in posted ==> WellPlaced(f, Changes(reviewed)) && s.clears(f)
    ensures findings == [] ==> posted == [] && suppressed == 0 && !unaudited
  {
    hide WellPlaced, SnapOne, Deduped, Indexes, Changes, Reflect.Bag, Reflect.LostBag, Reflect.Accounted, Reflect.Keeps, Quotes;
    var snapped;
    ghost var index, picks, firsts;
    snapped, index := SnapFindings(findings, reviewed, reviewed);
    forall f | f in snapped
      ensures WellPlaced(f, Changes(reviewed))
    {
      var i :| 0 <= i < |snapped| && snapped[i] == f;
      SnappedWellPlaced(findings[i], index, reviewed);
    }
    var merged;
    merged, picks, firsts := Dedupe(snapped);
    var shown := Filter(merged, (f: Finding) => !s.suppresses(f));
    suppressed := |merged| - |shown|;
    var current := Filter(shown, s.evidenced);
    ghost var lost: seq<Reflect.Loss>, rounds: seq<Reflect.Round> := [], [];
    var kept := current;
    NothingLost(current);
    unaudited := false;
    if s.reflect && current != [] {
      unaudited := stops;
      if !unaudited {
        var audits, files;
        kept, audits, files, lost, rounds := Reflect.ReflectFindings(current, s.minConfidence, auditor, fetcher, 0);
        KeptWellPlaced(kept, lost, current, Changes(reviewed));
      }
    }
    posted := Filter(kept, s.clears);
    t := Trail(index, snapped, merged, picks, firsts, kept, lost, rounds);
  }

  /**
    Without an audit every offered finding has one at its snapped place, no less
    severe, that is posted unless it is suppressed, lacks evidence or does not clear the floors.
   */
  lemma {:induction false} OfferedIsPosted(findings: seq<Finding>, reviewed: seq<Line>, s: Settings, auditor: Reflect.Auditor, fetcher: Option<Env>, stops: bool,
                        t: Trail, posted: seq<Finding>, suppressed: nat, unaudited: bool, f: Finding) returns (w: Finding)
    requires Refined(findings, reviewed, s, auditor, fetcher, stops, t, posted, suppressed, unaudited)
    requires f in findings && (!s.reflect || unaudited)
    ensures PlaceOf(w) == PlaceOf(SnapOne(f, t.index)) && w.severity.Rank() >= f.severity.Rank()
    ensures w in posted <==> !s.suppresses(w) && s.evidenced(w) && s.clears(w)
  {
    hide SnapOne, Indexes, Wins;
    var i :| 0 <= i < |findings| && findings[i] == f;
    assert t.snapped[i] in t.snapped;
    var m :| 0 <= m < |t.merged| && PlaceOf(t.merged[m]) == PlaceOf(t.snapped[i]);
    w := t.merged[m];
    assert w in t.merged;
    WinnerIs(t.snapped, t.picks[m], i);
    SnapKeepsQuote(f, t.index);
  }

  lemma NothingLost(fs: seq<Finding>)
    ensures Reflect.Bag(fs) + Reflect.LostBag([]) == Reflect.Bag(fs)
  {
  }

  // ---------------------------------------------------------------------
  // The review
  // ---------------------------------------------------------------------

  /** Some drop is disclosed: a cap, the size limit, triage, or a failed call. */
  predicate AdmitsGaps(notices: seq<Notice>) {
    FileCap in notices || Oversized in notices || TriageSkipped in notices || CallsFailed in notices
  }

  /** For every lens, every changed line of these files was in the payload of a call that answered. */
  ghost predicate FullyReviewed(made: Log, lenses: seq<Lens>, files: seq<Unit>) {
    forall k, c :: 0 <= k < |lenses| && c in UnitsChanges(files) ==> CoveredBy(made, lenses[k].id, c)
  }

  /** One call for every lens and batch, batch by batch. */
  function CallsOf(lenses: seq<Lens>, batches: seq<seq<Unit>>): seq<PreparedCall> {
    if batches == [] then []
    else CallsOf(lenses, batches[..|batches| - 1]) + CallsFor(lenses, |batches|, batches[|batches| - 1])
  }

  lemma {:induction false} PreparedAreCallsOf(perBatch: seq<BatchCalls>, lenses: seq<Lens>, batches: seq<seq<Unit>>)
    requires |perBatch| == |batches|
    requires forall b :: 0 <= b < |batches| ==> perBatch[b].calls == CallsFor(lenses, b + 1, batches[b])
    ensures AllCalls(perBatch) == CallsOf(lenses, batches)
  {
    hide CallsFor;
    if batches != [] {
      PreparedAreCallsOf(perBatch[..|batches| - 1], lenses, batches[..|batches| - 1]);
    }
  }

  /**
    What the world answers: to the calls at first, and to those that get a second chance;
    to triage's question, if its answer came and parses; and whether it stops the review before the audit.
   */
  datatype Worlds = Worlds(first: nat -> World, again: nat -> World, triage: Option<Verdicts>, stops: bool)

  /**
    What ran: each call's outcome is a function of its own answers alone, and its
    completions, rescue included, are its own, bounded, and part of the record; the
    first of them is the first answer, unless the call was stopped before it.
   */
  ghost predicate CallsRan(cfg: Config, count: Counter, calls: seq<PreparedCall>, ws: Worlds, logs: seq<Log>, outcomes: seq<Outcome>, made: Log) {
    && |logs| == |outcomes| == |calls|
    && forall i :: 0 <= i < |calls| ==>
         && outcomes[i] == SecondChance(cfg, count, calls[i], Task(cfg, count, calls[i], ws.first(i)), ws.again(i))
         && RanCall(calls[i], cfg.maxFindingsPerLens, logs[i], outcomes[i]) && |logs[i]| <= 2 * CallBound(calls[i]) && Among(logs[i], made)
         && Delivered(calls[i].lens, cfg.maxFindingsPerLens, logs[i], outcomes[i].findings)
         && (StopAt(ws.first(i), 0).None? ==> logs[i] != [] && Answers(logs[i][0], ws.first(i)(1)))
  }

  /** Every first call is answered at once, with nothing to report. */
  ghost predicate CleanWorlds(ws: Worlds, cfg: Config) {
    forall i :: Clean(ws.first(i), cfg)
  }

  /** The batches' calls, all of them, in any order of completion, with the rescue wave. */
  method ReviewBatches(review: Review, batches: seq<seq<Unit>>, lenses: seq<Lens>, ws: Worlds)
    returns (findings: seq<Finding>, errors: seq<Reason>, total: nat, ghost logs: seq<Log>, ghost outcomes: seq<Outcome>,
             ghost from: seq<(nat, nat)>, ghost at: seq<nat>)
    requires AllClean(Flatten(batches)) && review.made == []
    modifies review
    ensures CallsRan(review.cfg, review.count, CallsOf(lenses, batches), ws, logs, outcomes, review.made)
    ensures findings == FindingsOf(outcomes) && errors == ErrorsOf(outcomes) && total == |outcomes|
    ensures Collected(outcomes, findings, from) && ErrorsCollected(outcomes, errors, at)
    ensures errors == [] ==> FullyReviewed(review.made, lenses, Flatten(batches))
    ensures errors == [] && review.made != [] ==> EndsAnswered(review.made)
    ensures CleanWorlds(ws, review.cfg) ==> findings == [] && errors == [] && forall c :: c in review.made ==> IsPlain(c, review.cfg)
    ensures Honest(old(review.Disclosures()), review.Disclosures(), review.made, review.cfg, false, false)
  {
    hide *;
    ghost var cfg, count, cap := review.cfg, review.count, review.cfg.maxFindingsPerLens;
    var perBatch := PrepareCalls(batches, lenses);
    PreparedAreCallsOf(perBatch, lenses, batches);
    var merged;
    ghost var order, released, runs, first, again;
    merged, order, released, runs, first, again := FanOut.FanOut(review, perBatch, ws.first, ws.again);
    outcomes := merged;
    findings, errors, from, at := Collect(merged);
    total := |merged|;
    NoErrors(merged);
    ghost var calls := AllCalls(perBatch);
    logs := seq(|merged|, (i: nat) requires i < |merged| => runs[i] + again[i]);
    OrderedRuns(Shape(perBatch), calls, order, released, runs);
    assert [] + Trace(runs, order) == Trace(runs, order);
    assert [] + Trace(runs, order) + Flatten(again) == Trace(runs, order) + Flatten(again);
    forall i | 0 <= i < |merged|
      ensures Among(logs[i], review.made)
    {
      AttemptsAmong(runs, order, again, i);
    }
    EachRan(cfg, count, calls, ws, runs, again, first, merged, logs, review.made);
    if errors == [] {
      if total > 0 {
        RecordEndsAnswered(calls, cap, order, runs, again, merged);
      } else {
        NoCallsNoRecord(order, runs, again);
      }
      AllSucceed(calls, cap, logs, merged, review.made);
      forall k, c | 0 <= k < |lenses| && c in UnitsChanges(Flatten(batches))
        ensures CoveredBy(review.made, lenses[k].id, c)
      {
        SuccessCovers(perBatch, batches, lenses, cap, logs, merged, review.made, k, c);
      }
      CoversAll(review.made, lenses, Flatten(batches));
    }
    if CleanWorlds(ws, cfg) {
      WorldsClean(ws, cfg);
      CleanFanOut(cfg, count, calls, ws.first, ws.again, order, runs, first, again, merged);
      NothingFound(merged);
    }
  }

  lemma NoCallsNoRecord(order: seq<nat>, runs: map<nat, Log>, again: seq<Log>)
    requires (forall i :: i !in order) && again == []
    ensures Trace(runs, order) + Flatten(again) == []
  {
    SomeMember(order);
  }

  lemma CallDelivers(call: PreparedCall, cap: nat, log: Log, outcome: Outcome)
    requires RanCall(call, cap, log, outcome)
    ensures Delivered(call.lens, cap, log, outcome.findings)
  {
    hide Ran, Delivered;
    RanDelivers(call.lens, cap, Owed(Joined(call.units), call.units, true), log, outcome.findings, outcome.error);
  }

  lemma EachRan(cfg: Config, count: Counter, calls: seq<PreparedCall>, ws: Worlds, runs: map<nat, Log>, again: seq<Log>,
                first: seq<Outcome>, merged: seq<Outcome>, logs: seq<Log>, made: Log)
    requires |merged| == |first| == |again| == |calls| == |logs| && first == Tasks(cfg, count, calls, ws.first)
    requires forall i :: 0 <= i < |merged| ==>
               i in runs && logs[i] == runs[i] + again[i] && Did(cfg, count, calls[i], ws.first(i), runs[i], first[i])
               && Retried(cfg, count, calls[i], first[i], ws.again(i), again[i], merged[i])
               && RanCall(calls[i], cfg.maxFindingsPerLens, runs[i] + again[i], merged[i])
               && |runs[i] + again[i]| <= 2 * CallBound(calls[i]) && Among(logs[i], made)
    ensures CallsRan(cfg, count, calls, ws, logs, merged, made)
  {
    hide RanCall, CallBound, Among, Task, SecondChance, RescuedOnce, Reviewed, StopAt, Answers, Delivered;
    forall i | 0 <= i < |calls|
      ensures Delivered(calls[i].lens, cfg.maxFindingsPerLens, logs[i], merged[i].findings)
    {
      CallDelivers(calls[i], cfg.maxFindingsPerLens, logs[i], merged[i]);
    }
    forall i | 0 <= i < |calls| && StopAt(ws.first(i), 0).None?
      ensures runs[i] != [] && Answers(runs[i][0], ws.first(i)(1))
    {
      UnstoppedAsks(cfg, count, ws.first(i), calls[i].lens, calls[i].units);
    }
  }

  lemma AllSucceed(calls: seq<PreparedCall>, cap: nat, logs: seq<Log>, merged: seq<Outcome>, made: Log)
    requires |logs| == |merged| == |calls|
    requires forall i :: 0 <= i < |calls| ==> RanCall(calls[i], cap, logs[i], merged[i]) && merged[i].error.None? && Among(logs[i], made)
    ensures AllSucceeded(calls, cap, logs, merged, made)
  {
    hide RanCall, Among;
  }

  lemma CoversAll(made: Log, lenses: seq<Lens>, files: seq<Unit>)
    requires forall k, c :: 0 <= k < |lenses| && c in UnitsChanges(files) ==> CoveredBy(made, lenses[k].id, c)
    ensures FullyReviewed(made, lenses, files)
  {
    hide CoveredBy, UnitsChanges;
  }

  lemma WorldsClean(ws: Worlds, cfg: Config)
    requires CleanWorlds(ws, cfg)
    ensures forall i :: Clean(ws.first(i), cfg)
  {
    hide Clean;
  }

  lemma {:induction false} NothingFound(outcomes: seq<Outcome>)
    requires forall i :: 0 <= i < |outcomes| ==> outcomes[i] == Outcome([], None)
    ensures FindingsOf(outcomes) == [] && ErrorsOf(outcomes) == []
  {
    if outcomes != [] {
      NothingFound(outcomes[..|outcomes| - 1]);
    }
  }

  lemma OrderedRuns(bs: seq<Batch>, calls: seq<PreparedCall>, order: seq<nat>, released: Releases, runs: map<nat, Log>)
    requires Ordered(bs, calls, order, released, runs)
    ensures forall i :: i in order <==> 0 <= i < |calls|
    ensures forall i :: i in runs <==> 0 <= i < |calls|
  {
    hide Waited;
  }

  /** A comment can attach where the finding is. */
  ghost predicate Attachable(f: Finding, diff: seq<Line>) {
    Quotes(f) && f.anchored ==> PlaceOf(f) in PlacesIn(Walk(INIT, diff))
  }

  lemma PlacedIsAttachable(f: Finding, units: seq<Unit>, part: seq<Unit>, ctx: Context)
    requires GoodDiff(units, ctx) && (forall u :: u in part ==> u in units)
    requires WellPlaced(f, UnitsChanges(part))
    ensures Attachable(f, ctx.diff)
  {
    hide GoodFiles, Named, DistinctPaths, PlacesIn, Walk, Quotes, AllClean, UnitsChanges, DiffOf;
    if Quotes(f) && f.anchored {
      var text :| Change(f.path, f.side, f.line, text) in UnitsChanges(part);
      var c := Change(f.path, f.side, f.line, text);
      SubsetMeansNoMore(part, units);
      GoodFilesAreClean(units);
      DiffMeansItsPatches(INIT, units);
      ChangedLinesAreCommentable(Walk(INIT, ctx.diff), c);
      PlacesAreShown(Walk(INIT, ctx.diff), PlaceOf(f));
    }
  }

  lemma ReviewableWithin(units: seq<Unit>, s: Settings, kept: seq<Unit>)
    requires kept == Filter(Reviewable(units, s), (u: Unit) => PassesSizeCap(u.1, s.maxFileDiffLines))
    requires GoodFiles(units) && DistinctPaths(units)
    ensures (forall u :: u in kept ==> u in units) && DistinctPaths(kept)
  {
    hide PassesSizeCap, DistinctPaths, GoodFiles;
    FilterDistinct(units, (u: Unit) => s.keeps(u.0));
    FilterDistinct(Reviewable(units, s), (u: Unit) => PassesSizeCap(u.1, s.maxFileDiffLines));
  }

  /** No triage is configured, and every reviewable file is within the size limit and the file cap. */
  ghost predicate AllFitIn(units: seq<Unit>, s: Settings) {
    && s.triage.None? && |Reviewable(units, s)| <= s.maxFiles
    && forall u :: u in Reviewable(units, s) ==> PassesSizeCap(u.1, s.maxFileDiffLines)
  }

  /**
    The choice: `kept` are the files that pass the filters and the size limit, `order` what triage
    makes of them, and the chosen ones the first of these, as many as the cap allows.
   */
  ghost predicate Chosen(units: seq<Unit>, s: Settings, verdicts: Option<Verdicts>, chosen: seq<Unit>, skipped: seq<string>, capped: bool, kept: seq<Unit>, order: seq<Unit>) {
    && kept == Filter(units, (u: Unit) => s.keeps(u.0) && (s.maxFileDiffLines == 0 || |u.1| <= s.maxFileDiffLines))
    && InReviewOrder(kept, s, verdicts, order, skipped)
    && capped == (|order| > s.maxFiles) && chosen == if capped then order[..s.maxFiles] else order
  }

  /** Filtering twice is filtering by both. */
  lemma {:induction false} FilterBoth(units: seq<Unit>, p: Unit -> bool, q: Unit -> bool, both: Unit -> bool)
    requires forall u :: both(u) <==> p(u) && q(u)
    ensures Filter(Filter(units, p), q) == Filter(units, both)
  {
    if units != [] {
      var front, last := units[..|units| - 1], units[|units| - 1];
      assert units == front + [last];
      FilterBoth(front, p, q, both);
      if p(last) {
        FilterSnoc(Filter(front, p), last, q);
      }
    }
  }

  /** The files that go to the calls, and what the choice left out. */
  method ChooseFiles(ctx: Context, s: Settings, verdicts: Option<Verdicts>, ghost units: seq<Unit>)
    returns (chosen: seq<Unit>, oversized: seq<string>, skipped: seq<string>, capped: bool, ghost kept: seq<Unit>, ghost order: seq<Unit>)
    requires GoodDiff(units, ctx)
    ensures Chosen(units, s, verdicts, chosen, skipped, capped, kept, order)
    ensures forall u :: u in chosen ==> u in units
    ensures |chosen| <= s.maxFiles
    ensures oversized == [] && skipped == [] && !capped ==> MeansNoMore(Reviewable(units, s), chosen)
    ensures AllFitIn(units, s) ==> oversized == [] && skipped == [] && !capped
    ensures forall u :: u in chosen ==> s.keeps(u.0) && (s.maxFileDiffLines == 0 || |u.1| <= s.maxFileDiffLines)
    ensures forall u :: u in units && s.keeps(u.0) && 0 < s.maxFileDiffLines < |u.1| ==> u.0 in oversized
    ensures OversizedAre(units, s, oversized)
  {
    var files;
    files, oversized := SelectFiles(ctx, s, units);
    kept := files;
    forall u: Unit
      ensures u in kept ==> s.keeps(u.0) && (s.maxFileDiffLines == 0 || |u.1| <= s.maxFileDiffLines)
      ensures u in units && s.keeps(u.0) && 0 < s.maxFileDiffLines < |u.1| ==> u.0 in oversized
    {
      SelectedAre(units, s, kept, oversized, u);
    }
    OversizedNames(units, s, oversized);
    ReviewableWithin(units, s, kept);
    FilterBoth(units, (u: Unit) => s.keeps(u.0), (u: Unit) => PassesSizeCap(u.1, s.maxFileDiffLines),
               (u: Unit) => s.keeps(u.0) && (s.maxFileDiffLines == 0 || |u.1| <= s.maxFileDiffLines));
    hide Reviewable, GoodFiles, Named, DistinctPaths, DiffOf, MeansNoMore;
    hide InReviewOrder;
    chosen, skipped, capped, order := Prioritise(files, s, verdicts);
    if oversized == [] && skipped == [] && !capped {
      SubsetMeansNoMore(kept, chosen);
    }
  }

  lemma ReviewedMeans(chosen: seq<Unit>, expanded: seq<Unit>)
    requires SameMeaning(chosen, expanded)
    ensures Changes(Joined(expanded)) == UnitsChanges(chosen) && AllClean(expanded)
  {
    JoinedChanges(INIT, expanded);
  }

  lemma FullyReviewedFiles(made: Log, lenses: seq<Lens>, files: seq<Unit>, chosen: seq<Unit>)
    requires FullyReviewed(made, lenses, chosen) && MeansNoMore(files, chosen)
    ensures FullyReviewed(made, lenses, files)
  {
    hide CoveredBy;
  }

  /**
    Every answer in the record is a lens call's own, asked of the configured model
    at the configured effort and under the configured schema, and none names another model.
   */
  ghost predicate AnsweredAsAsked(made: Log, cfg: Config) {
    forall i :: 0 <= i < |made| && (if made[i].Ask? then made[i].reply.Parsed? else made[i].repair.Some?) ==>
      && made[i].Ask? && !made[i].lowered && (cfg.structuredOutput ==> made[i].schema)
      && (cfg.model.Some? && cfg.fallbackModel.Some? && cfg.model != cfg.fallbackModel ==> !made[i].fallback && !made[i].switched)
  }

  lemma NothingDisclosed(d0: Disclosure, d: Disclosure, made: Log, cfg: Config)
    requires Honest(d0, d, made, cfg, false, false)
    requires d.repaired == {} && d.steppedDown == {} && d.escalated == {} && d.reAsked == {}
    ensures AnsweredAsAsked(made, cfg)
  {
    hide Caused, Sticky;
    forall i | 0 <= i < |made| && Answered(made[i])
      ensures made[i].Ask? && !made[i].lowered && (cfg.structuredOutput ==> made[i].schema)
      ensures NamesModels(cfg) ==> By(made[i]) == Primary && !made[i].fallback
    {
      assert IsDisclosed(made[i], d, cfg, false, false);
    }
  }

  /** Every answer went out under the schema. */
  ghost predicate SchemaSent(made: Log) {
    forall i :: 0 <= i < |made| && Answered(made[i]) ==> SentSchema(made[i])
  }

  /** Every answer went out at the configured effort. */
  ghost predicate EffortSent(made: Log) {
    forall i :: 0 <= i < |made| && Answered(made[i]) ==> SentEffort(made[i])
  }

  /**
    An answer was sent as it was asked for if and only if the adapter had not given
    that up for the configured model before the review, nor in any completion up to this one.
   */
  lemma AnswerSentIff(d0: Disclosure, d: Disclosure, made: Log, cfg: Config, i: nat)
    requires Honest(d0, d, made, cfg, false, false) && d.reAsked == {}
    requires AnsweredAsAsked(made, cfg) && NamesModels(cfg) && i < |made| && Answered(made[i])
    ensures cfg.structuredOutput ==> (SentSchema(made[i]) <==> Primary !in d0.adapter.off && !GivesUpSchema(made, i + 1, Primary))
    ensures SentEffort(made[i]) <==> Primary !in d0.adapter.refused && !GivesUpEffort(made, i + 1, Primary)
  {
    hide Grown, Disclosed, Caused, MemoryAfter, GivesUpSchema, GivesUpEffort;
    MemoryIs(d0.adapter, made, i + 1, Primary);
  }

  /**
    So all of them were if and only if the adapter had given nothing up for the
    configured model before the review and did not in any of its completions: it
    forgets nothing, and the last completion is an answer.
   */
  lemma {:induction false} SentIff(d0: Disclosure, d: Disclosure, made: Log, cfg: Config)
    requires Honest(d0, d, made, cfg, false, false) && d.reAsked == {} && EndsAnswered(made)
    requires AnsweredAsAsked(made, cfg) && NamesModels(cfg)
    ensures SentUnlessGivenUp(cfg, d0.adapter, d.adapter, made)
  {
    hide Honest, SentSchema, SentEffort;
    forall i | 0 <= i < |made| && Answered(made[i])
      ensures cfg.structuredOutput ==> (SentSchema(made[i]) <==> Primary !in d0.adapter.off && !GivesUpSchema(made, i + 1, Primary))
      ensures SentEffort(made[i]) <==> Primary !in d0.adapter.refused && !GivesUpEffort(made, i + 1, Primary)
    {
      AnswerSentIff(d0, d, made, cfg, i);
    }
    EndMemory(d0, d, made, cfg);
  }

  /**
    Every answer was sent under the schema if and only if the adapter had not given it up for the
    configured model at the start and did in no completion, and likewise the effort; and what it ends with says so.
   */
  ghost predicate SentUnlessGivenUp(cfg: Config, adapter: Adapter, end: Adapter, made: Log) {
    && (cfg.structuredOutput ==> (SchemaSent(made) <==> Primary !in adapter.off && !GivesUpSchema(made, |made|, Primary)))
    && (EffortSent(made) <==> Primary !in adapter.refused && !GivesUpEffort(made, |made|, Primary))
    && (Primary in end.off <==> Primary in adapter.off || GivesUpSchema(made, |made|, Primary))
    && (Primary in end.refused <==> Primary in adapter.refused || GivesUpEffort(made, |made|, Primary))
  }

  lemma EndMemory(d0: Disclosure, d: Disclosure, made: Log, cfg: Config)
    requires Honest(d0, d, made, cfg, false, false) && d.reAsked == {}
    ensures Primary in d.adapter.off <==> Primary in d0.adapter.off || GivesUpSchema(made, |made|, Primary)
    ensures Primary in d.adapter.refused <==> Primary in d0.adapter.refused || GivesUpEffort(made, |made|, Primary)
  {
    hide Grown, Disclosed, Caused, MemoryAfter, GivesUpSchema, GivesUpEffort, Remembers;
    MemoryIs(d0.adapter, made, |made|, Primary);
    assert made[..|made|] == made;
  }

  /** Completions with nothing to disclose put nothing on the lists. */
  lemma PlainListsNothing(adapter: Adapter, d: Disclosure, made: Log, cfg: Config)
    requires Honest(Disclosure({}, {}, {}, {}, {}, {}, adapter), d, made, cfg, false, false)
    requires forall c :: c in made ==> IsPlain(c, cfg)
    ensures d == Disclosure({}, {}, {}, {}, {}, {}, d.adapter)
  {
    hide Disclosed, Sticky, Grown;
    forall i | 0 <= i < |made|
      ensures IsPlain(made[i], cfg) && Offered(made[i]) == []
    {
      assert made[i] in made;
    }
    forall l: string
      ensures !Repairs(made, l) && !StepsDown(made, l) && !Escalates(made, l, cfg) && !ReAsks(made, l, cfg) && !Overflows(made, l, cfg)
    {
    }
    assert !Oversizes(made);
    hide Repairs, StepsDown, Escalates, ReAsks, Overflows, Oversizes;
    NothingListed(Disclosure({}, {}, {}, {}, {}, {}, adapter), d, made, cfg);
  }

  lemma NothingListed(d0: Disclosure, d: Disclosure, made: Log, cfg: Config)
    requires Caused(d0, d, made, cfg) && d0 == Disclosure({}, {}, {}, {}, {}, {}, d0.adapter)
    requires forall l :: !Repairs(made, l) && !StepsDown(made, l) && !Escalates(made, l, cfg) && !ReAsks(made, l, cfg) && !Overflows(made, l, cfg)
    requires !Oversizes(made)
    ensures d == Disclosure({}, {}, {}, {}, {}, {}, d.adapter)
  {
    hide Repairs, StepsDown, Escalates, ReAsks, Overflows, Oversizes;
    forall l
      ensures l !in d.repaired && l !in d.steppedDown && l !in d.escalated && l !in d.reAsked && l !in d.flooded
    {
      assert l in d.repaired - d0.repaired || l !in d.repaired;
      assert l in d.steppedDown - d0.steppedDown || l !in d.steppedDown;
      assert l in d.escalated - d0.escalated || l !in d.escalated;
      assert l in d.reAsked - d0.reAsked || l !in d.reAsked;
      assert l in d.flooded - d0.flooded || l !in d.flooded;
    }
    assert d.repaired == {} && d.steppedDown == {} && d.escalated == {} && d.reAsked == {} && d.flooded == {};
  }

  /** What a review leaves behind besides its result. */
  datatype Record = Record(
    chosen: seq<Unit>, batches: seq<seq<Unit>>, logs: seq<Log>, outcomes: seq<Outcome>,
    offered: seq<Finding>, from: seq<(nat, nat)>, reviewed: seq<Line>, trail: Trail, suppressed: nat, unaudited: bool,
    adapter: Adapter, capped: bool, oversized: seq<string>, skipped: seq<string>, disclosed: Disclosure,
    kept: seq<Unit>, order: seq<Unit>, expanded: seq<Unit>)

  /** Every call failed and nothing was found: there is no review to post. */
  predicate NoSignal(outcomes: seq<Outcome>) {
    outcomes != [] && forall i :: 0 <= i < |outcomes| ==> outcomes[i].error.Some? && outcomes[i].findings == []
  }

  /** What each notice stands for, in what the review leaves behind. */
  ghost predicate Notified(notices: seq<Notice>, r: Record, ctx: Context) {
    && (FileCap in notices <==> r.capped)
    && (Oversized in notices <==> r.oversized != [])
    && (TriageSkipped in notices <==> r.skipped != [])
    && (CallsFailed in notices <==> exists i :: 0 <= i < |r.outcomes| && r.outcomes[i].error.Some?)
    && (BudgetReached in notices <==> exists i :: 0 <= i < |r.outcomes| && r.outcomes[i].error.Some? && r.outcomes[i].error.value.what == BudgetSkip)
    && (Repaired in notices <==> r.disclosed.repaired != {})
    && (ReAsked in notices <==> r.disclosed.reAsked != {})
    && (Notices.SteppedDown in notices <==> r.disclosed.steppedDown != {})
    && (Escalated in notices <==> r.disclosed.escalated != {})
    && (Flooded in notices <==> r.disclosed.flooded != {})
    && (Split in notices <==> r.disclosed.split != {})
    && (ReflectionSkipped in notices <==> r.unaudited)
    && (Suppressed in notices <==> r.suppressed > 0)
    && (OpenThreads in notices <==> ctx.openThreads > 0)
    && (SchemaDropped in notices ==> CallsFailed in notices)
    && (CallsFailed in notices && r.adapter.off != {} ==> SchemaDropped in notices)
  }

  /** No filter takes a finding away, and no audit runs. */
  ghost predicate Unfiltered(s: Settings, r: Record) {
    (forall f :: !s.suppresses(f) && s.evidenced(f) && s.clears(f)) && (!s.reflect || r.unaudited)
  }

  /** Some finding is posted at this one's snapped place, no less severe. */
  ghost predicate PostedFor(f: Finding, index: Index, posted: seq<Finding>) {
    var g := SnapOne(f, index);
    exists w :: w in posted && w.path == g.path && w.line == g.line && w.side == g.side && w.severity.Rank() >= f.severity.Rank()
  }

  ghost predicate AllPosted(outcomes: seq<Outcome>, index: Index, posted: seq<Finding>) {
    forall i, f :: 0 <= i < |outcomes| && f in outcomes[i].findings ==> PostedFor(f, index, posted)
  }

  /**
    The review. On every well-formed diff, whatever the provider, the adapter, the
    auditor, triage and the clock do:

    - a posted review that discloses no gap, a thumbs-up in particular, had for
      every lens every changed line of every reviewable file in the payload of a
      call that answered;
    - a thumbs-up rests on answers that were asked of the configured model, at the
      configured effort and under the configured schema, and none of which names
      another model;
    - with named models they were sent under that schema if and only if the adapter
      had not given it up for the configured model before the review and gave it up in
      none of its completions, and likewise the effort; a schema given up is told of
      when calls failed too, and only then;
    - every posted finding that is anchored by a quote is on a line a comment can
      attach to, and every offered finding is accounted for;
    - the review fails outright exactly when no call gave any signal;
    - a review that leaves no file out and is answered cleanly is a thumbs-up,
      whatever the adapter gave up for it.
   */
  method RunReview(cfg: Config, count: Counter, ctx: Context, s: Settings, auditor: Reflect.Auditor,
                   adapter: Adapter, ws: Worlds, ghost units: seq<Unit>)
    returns (result: Result, ghost made: Log, ghost record: Record)
    requires GoodDiff(units, ctx)
    ensures result.Posted? ==> (result.thumbsUp <==> result.findings == [] && result.notices == [])
    ensures result.Posted? ==> Notified(result.notices, record, ctx)
    ensures Honest(Disclosure({}, {}, {}, {}, {}, {}, adapter), record.disclosed, made, cfg, false, false)
            && record.disclosed.adapter == record.adapter
    ensures result.Posted? && !AdmitsGaps(result.notices) ==>
              forall k, u, c :: 0 <= k < |s.lenses| && u in units && s.keeps(u.0) && c in Changes(u.1) ==> CoveredBy(made, s.lenses[k].id, c)
    ensures result.Posted? && !AdmitsGaps(result.notices) ==> MeansNoMore(Reviewable(units, s), record.chosen)
    ensures result.Posted? && result.thumbsUp ==> !AdmitsGaps(result.notices) && AnsweredAsAsked(made, cfg)
    ensures result.Posted? && result.thumbsUp && NamesModels(cfg) && made != [] ==> SentUnlessGivenUp(cfg, adapter, record.adapter, made)
    ensures Leq(adapter, record.adapter)
    ensures result.Posted? ==> forall f :: f in result.findings ==> Attachable(f, ctx.diff) && s.clears(f)
    ensures CallsRan(cfg, count, CallsOf(s.lenses, record.batches), ws, record.logs, record.outcomes, made)
    ensures (forall u :: u in record.chosen ==> u in units && s.keeps(u.0) && (s.maxFileDiffLines == 0 || |u.1| <= s.maxFileDiffLines))
            && |record.chosen| <= s.maxFiles
            && UnitsChanges(Flatten(record.batches)) == UnitsChanges(record.chosen) == Changes(record.reviewed)
    ensures Chosen(units, s, ws.triage, record.chosen, record.skipped, record.capped, record.kept, record.order) && OversizedAre(units, s, record.oversized)
    ensures ShowsAround(record.chosen, record.expanded, ctx, s, count) && record.reviewed == Joined(record.expanded)
    ensures Batching.Batched(record.expanded, record.batches, s.batchBudget, s.recursive, count)
    ensures result.Incomplete? <==> NoSignal(record.outcomes)
    ensures Collected(record.outcomes, record.offered, record.from)
    ensures result.Posted? ==>
              Refined(record.offered, record.reviewed, s, auditor, cfg.fetcher, ws.stops, record.trail, result.findings,
                      record.suppressed, record.unaudited)
    ensures result.Posted? && Unfiltered(s, record) ==>
              AllPosted(record.outcomes, record.trail.index, result.findings)
              && (result.thumbsUp ==> forall i :: 0 <= i < |record.outcomes| ==> record.outcomes[i].findings == [])
    ensures AllFitIn(units, s) && CleanWorlds(ws, cfg) && ctx.openThreads == 0 ==> result.Posted? && result.thumbsUp
  {
    hide *;
    var review := new Review(cfg, count, adapter);
    ghost var blank := review.Disclosures();
    var chosen, oversized, skipped, capped, reviewed, batches;
    ghost var kept, order, expanded;
    chosen, oversized, skipped, capped, reviewed, batches, kept, order, expanded := PrepareBatches(ctx, s, ws.triage, count, units);
    var findings, errors, total;
    ghost var logs, outcomes, from, at;
    findings, errors, total, logs, outcomes, from, at := ReviewBatches(review, batches, s.lenses, ws);
    made := review.made;
    review.DisclosuresAre();
    ghost var d := review.Disclosures();
    record := Record(chosen, batches, logs, outcomes, findings, from, reviewed, Trail(map[], [], [], [], [], [], [], []), 0, false,
                     review.adapter, capped, oversized, skipped, d, kept, order, expanded);
    SignalIs(outcomes, findings, errors, from);
    Grew(blank, d, made, cfg);
    if total > 0 && |errors| == total && findings == [] {
      NotAllFit(units, s, ws, cfg, errors);
      return Incomplete, made, record;
    }
    var posted, suppressed, unaudited;
    ghost var t;
    posted, suppressed, unaudited, t := Refine(findings, reviewed, s, auditor, cfg.fetcher, ws.stops);
    record := Record(chosen, batches, logs, outcomes, findings, from, reviewed, t, suppressed, unaudited,
                     review.adapter, capped, oversized, skipped, d, kept, order, expanded);
    var audited: Adapter := *;  // what the adapter learnt from the audit's calls
    var state := NoticeState(capped, oversized, skipped, errors, review.splitBatches, review.steppedDown,
                             review.escalated, review.repaired, review.reAsked, Learn(review.adapter, audited).off != {}, unaudited,
                             review.flooded, suppressed, 0, ctx.openThreads);
    var notices := BuildNotices(state);
    forall f | f in posted
      ensures Attachable(f, ctx.diff)
    {
      PlacedIsAttachable(f, units, chosen, ctx);
    }
    NotifiedOf(state, notices, record, ctx, at, audited);
    if !AdmitsGaps(notices) {
      NoGapsAre(notices, record, ctx, errors, at);
      SameLines(made, s.lenses, batches, chosen);
      FullyReviewedFiles(made, s.lenses, Reviewable(units, s), chosen);
      KeptAreReviewed(made, s.lenses, units, s);
    }
    if notices == [] {
      NothingNotified(record, ctx);
      NothingDisclosed(blank, d, made, cfg);
      if made != [] && NamesModels(cfg) {
        NoGapsAre(notices, record, ctx, errors, at);
        SentIff(blank, d, made, cfg);
      }
    }
    if Unfiltered(s, record) {
      OfferedArePosted(record, s, auditor, cfg.fetcher, ws.stops, posted);
    }
    if AllFitIn(units, s) && CleanWorlds(ws, cfg) && ctx.openThreads == 0 {
      PlainListsNothing(adapter, d, made, cfg);
      NothingToTell(state, notices);
    }
    return Posted(posted, notices, posted == [] && notices == []), made, record;
  }

  /** The names of the files that pass the filters and are over the size limit. */
  ghost predicate OversizedAre(units: seq<Unit>, s: Settings, oversized: seq<string>) {
    forall p :: p in oversized <==> exists u :: u in units && u.0 == p && s.keeps(p) && 0 < s.maxFileDiffLines < |u.1|
  }

  /** So many lines of padding are configured, within 20, and paid for by what the files leave of the token budget, 5000 a line. */
  predicate Afforded(files: seq<Unit>, s: Settings, count: Counter, lines: nat) {
    lines <= s.contextLines && lines <= 20 && (lines > 0 ==> TokensOf(files, count) + 5000 * lines <= s.maxInputTokens)
  }

  ghost predicate MostAfforded(files: seq<Unit>, s: Settings, count: Counter, lines: nat) {
    Afforded(files, s, count, lines) && forall m: nat :: Afforded(files, s, count, m) ==> m <= lines
  }

  /** Behind a hunk it is a quarter of that, but one line at least. */
  function Quarter(lines: nat): nat { if lines < 4 then 1 else lines / 4 }

  /**
    What the padded files show: around every hunk of a file whose head text is known,
    as many lines as the budget affords, and its enclosing definition, and nothing else.
   */
  ghost predicate ShowsAround(files: seq<Unit>, expanded: seq<Unit>, ctx: Context, s: Settings, count: Counter) {
    exists lines :: MostAfforded(files, s, count, lines) && ShowsLines(files, expanded, ctx, lines)
  }

  ghost predicate ShowsLines(files: seq<Unit>, expanded: seq<Unit>, ctx: Context, lines: nat) {
    if lines == 0 || ctx.heads == map[] then expanded == files
    else |expanded| == |files| && forall i :: 0 <= i < |files| ==> ShowsInFile(files[i], expanded[i], ctx, lines)
  }

  ghost predicate ShowsInFile(file: Unit, expanded: Unit, ctx: Context, lines: nat) {
    var spans := if file.0 in ctx.spans then ctx.spans[file.0] else [];
    && expanded.0 == file.0
    && (file.0 in ctx.heads && ctx.heads[file.0] != [] && HunksOf(file.1) != [] ==>
          forall m: nat :: ShowsLine(Walk(INIT, expanded.1), m) ==>
            exists h :: h in HunksOf(file.1) && InWindow(h, |ctx.heads[file.0]|, lines, Quarter(lines), spans, m))
    && (file.0 in ctx.heads && ctx.heads[file.0] != [] ==>
          forall k: nat, m: nat :: k < |HunksOf(file.1)| ==>
            PadsShown(HunksOf(file.1), ctx.heads[file.0], lines, Quarter(lines), spans, Walk(INIT, expanded.1), k, m))
  }

  lemma PaddedShow(files: seq<Unit>, expanded: seq<Unit>, groups: seq<seq<Group>>, ctx: Context, s: Settings, count: Counter)
    requires GoodFiles(files) && (forall path :: path in ctx.spans ==> SortedSpans(ctx.spans[path])) && SameMeaning(files, expanded)
    requires var lines := PadBudget(files, s, count);
             if lines == 0 || ctx.heads == map[] then expanded == files else AllPadded(files, expanded, groups, lines, ctx)
    ensures ShowsAround(files, expanded, ctx, s, count)
  {
    hide GoodFiles, SortedSpans, CleanPatch, UnitsChanges, AllPadded, TokensOf, ShowsInFile;
    var lines := PadBudget(files, s, count);
    forall m: nat
      ensures Afforded(files, s, count, m) <==> m <= lines
    {
      PadBudgetIsLargest(files, s, count, m);
    }
    assert MostAfforded(files, s, count, lines);
    if lines > 0 && ctx.heads != map[] {
      forall i | 0 <= i < |files|
        ensures ShowsInFile(files[i], expanded[i], ctx, lines)
      {
        PaddedShowsFile(files, expanded, groups, ctx, lines, i);
      }
    }
  }

  lemma PaddedShowsFile(files: seq<Unit>, expanded: seq<Unit>, groups: seq<seq<Group>>, ctx: Context, lines: nat, i: nat)
    requires GoodFiles(files) && (forall path :: path in ctx.spans ==> SortedSpans(ctx.spans[path])) && SameMeaning(files, expanded)
    requires lines > 0 && AllPadded(files, expanded, groups, lines, ctx) && i < |files|
    ensures ShowsInFile(files[i], expanded[i], ctx, lines)
  {
    hide GoodFiles, SortedSpans, CleanPatch, UnitsChanges, Expansion, HunksOf, WellFormedHunks, Walk, PadsShown, ShowsLine, InWindow;
    GoodFileIs(files, i);
    NoSpansSorted();
    assert Padded(files, expanded, groups, i, lines, ctx);
    var path := files[i].0;
    assert CleanPatch(expanded[i].0, expanded[i].1);
    if path in ctx.heads && ctx.heads[path] != [] {
      forall m: nat | HunksOf(files[i].1) != [] && ShowsLine(Walk(INIT, expanded[i].1), m)
        ensures exists h :: h in HunksOf(files[i].1) && InWindow(h, |ctx.heads[path]|, lines, Quarter(lines), SpansOf(ctx, path), m)
      {
        var h := NothingElseIsShown(path, files[i].1, ctx.heads[path], lines, TrailingContextLines(lines), SpansOf(ctx, path),
                                    expanded[i].1, groups[i], m);
      }
      forall k: nat, m: nat | k < |HunksOf(files[i].1)|
        ensures PadsShown(HunksOf(files[i].1), ctx.heads[path], lines, Quarter(lines), SpansOf(ctx, path), Walk(INIT, expanded[i].1), k, m)
      {
        PadsAreShown(path, files[i].1, ctx.heads[path], lines, TrailingContextLines(lines), SpansOf(ctx, path), expanded[i].1, groups[i], k, m);
      }
    }
  }

  /** The files that go to the calls, padded and cut into batches. */
  method PrepareBatches(ctx: Context, s: Settings, verdicts: Option<Verdicts>, count: Counter, ghost units: seq<Unit>)
    returns (chosen: seq<Unit>, oversized: seq<string>, skipped: seq<string>, capped: bool, reviewed: seq<Line>, batches: seq<seq<Unit>>,
             ghost kept: seq<Unit>, ghost order: seq<Unit>, ghost expanded: seq<Unit>)
    requires GoodDiff(units, ctx)
    ensures Chosen(units, s, verdicts, chosen, skipped, capped, kept, order) && OversizedAre(units, s, oversized)
    ensures ShowsAround(chosen, expanded, ctx, s, count) && reviewed == Joined(expanded)
    ensures Batching.Batched(expanded, batches, s.batchBudget, s.recursive, count)
    ensures forall u :: u in chosen ==> u in units && s.keeps(u.0) && (s.maxFileDiffLines == 0 || |u.1| <= s.maxFileDiffLines)
    ensures |chosen| <= s.maxFiles
    ensures oversized == [] && skipped == [] && !capped ==> MeansNoMore(Reviewable(units, s), chosen)
    ensures AllFitIn(units, s) ==> oversized == [] && skipped == [] && !capped
    ensures AllClean(Flatten(batches)) && UnitsChanges(Flatten(batches)) == UnitsChanges(chosen) == Changes(reviewed)
  {
    hide *;
    chosen, oversized, skipped, capped, kept, order := ChooseFiles(ctx, s, verdicts, units);
    ChosenAreGood(units, ctx, chosen);
    var files;
    ghost var groups;
    files, groups := ExpandFiles(chosen, ctx, s, count);
    expanded := files;
    PaddedShow(chosen, expanded, groups, ctx, s, count);
    ReviewedMeans(chosen, expanded);
    batches := Batching.BatchFiles(files, s.batchBudget, s.recursive, count);
    BatchesMean(batches, expanded, chosen);
    reviewed := Joined(files);
  }

  lemma NotAllFit(units: seq<Unit>, s: Settings, ws: Worlds, cfg: Config, errors: seq<Reason>)
    requires errors != [] && (CleanWorlds(ws, cfg) ==> errors == [])
    ensures !CleanWorlds(ws, cfg)
  {
    hide CleanWorlds;
  }

  lemma KeptAreReviewed(made: Log, lenses: seq<Lens>, units: seq<Unit>, s: Settings)
    requires FullyReviewed(made, lenses, Reviewable(units, s))
    ensures forall k, u, c :: 0 <= k < |lenses| && u in units && s.keeps(u.0) && c in Changes(u.1) ==> CoveredBy(made, lenses[k].id, c)
  {
    hide CoveredBy, Changes;
    forall k, u, c | 0 <= k < |lenses| && u in units && s.keeps(u.0) && c in Changes(u.1)
      ensures CoveredBy(made, lenses[k].id, c)
    {
      MeaningOfMember(Reviewable(units, s), u, c);
    }
  }

  lemma NotifiedOf(state: NoticeState, notices: seq<Notice>, r: Record, ctx: Context, at: seq<nat>, audited: Adapter)
    requires forall n :: n in notices <==> Tells(state, n)
    requires state == NoticeState(r.capped, r.oversized, r.skipped, state.errors, r.disclosed.split, r.disclosed.steppedDown,
                                  r.disclosed.escalated, r.disclosed.repaired, r.disclosed.reAsked, Learn(r.adapter, audited).off != {},
                                  r.unaudited, state.flooded, r.suppressed, 0, ctx.openThreads)
    requires state.flooded.Keys == r.disclosed.flooded && ErrorsCollected(r.outcomes, state.errors, at)
    ensures Notified(notices, r, ctx)
  {
    ErrorsAre(r.outcomes, state.errors, at);
    assert state.flooded == map[] <==> state.flooded.Keys == {};
    DropTold(state, notices, r.adapter, audited);
    TellsGaps(state);
    TellsRest(state);
    hide ErrorsCollected, Tells, Learn;
  }

  lemma TellsGaps(s: NoticeState)
    ensures Tells(s, FileCap) == s.cappedFiles && Tells(s, Oversized) == (s.oversized != [])
    ensures Tells(s, TriageSkipped) == (s.skippedByTriage != []) && Tells(s, CallsFailed) == (s.errors != [])
    ensures Tells(s, BudgetReached) == exists e :: e in s.errors && e.what == BudgetSkip
  {
  }

  lemma TellsRest(s: NoticeState)
    ensures Tells(s, Repaired) == (s.repaired != {}) && Tells(s, ReAsked) == (s.reAsked != {})
    ensures Tells(s, Notices.SteppedDown) == (s.steppedDown != {}) && Tells(s, Escalated) == (s.escalated != {})
    ensures Tells(s, Flooded) == (s.flooded != map[]) && Tells(s, Split) == (s.splitBatches != {})
    ensures Tells(s, ReflectionSkipped) == s.reflectionSkipped && Tells(s, Suppressed) == (s.suppressed > 0)
    ensures Tells(s, OpenThreads) == (s.openThreads > 0)
  {
  }

  /** A schema given up is told of together with failed calls, and not otherwise. */
  lemma DropTold(s: NoticeState, notices: seq<Notice>, a: Adapter, more: Adapter)
    requires (forall n :: n in notices <==> Tells(s, n)) && s.schemaDropped == (Learn(a, more).off != {})
    ensures SchemaDropped in notices ==> CallsFailed in notices
    ensures CallsFailed in notices && a.off != {} ==> SchemaDropped in notices
  {
    assert Leq(a, Learn(a, more));
    assert Tells(s, SchemaDropped) == (s.errors != [] && s.schemaDropped) && Tells(s, CallsFailed) == (s.errors != []);
    hide Tells;
  }

  lemma ErrorsAre(outcomes: seq<Outcome>, errors: seq<Reason>, at: seq<nat>)
    requires ErrorsCollected(outcomes, errors, at)
    ensures errors != [] <==> exists i :: 0 <= i < |outcomes| && outcomes[i].error.Some?
    ensures (exists e :: e in errors && e.what == BudgetSkip) <==>
              exists i :: 0 <= i < |outcomes| && outcomes[i].error.Some? && outcomes[i].error.value.what == BudgetSkip
  {
    if errors != [] {
      assert outcomes[at[0]].error == Some(errors[0]);
    }
    if e :| e in errors && e.what == BudgetSkip {
      var k :| 0 <= k < |errors| && errors[k] == e;
      assert outcomes[at[k]].error == Some(e);
    }
    if i :| 0 <= i < |outcomes| && outcomes[i].error.Some? && outcomes[i].error.value.what == BudgetSkip {
      var k :| 0 <= k < |at| && at[k] == i;
      assert errors[k] in errors;
    }
  }

  lemma NoGapsAre(notices: seq<Notice>, r: Record, ctx: Context, errors: seq<Reason>, at: seq<nat>)
    requires Notified(notices, r, ctx) && !AdmitsGaps(notices) && ErrorsCollected(r.outcomes, errors, at)
    ensures !r.capped && r.oversized == [] && r.skipped == [] && errors == []
  {
    ErrorsAre(r.outcomes, errors, at);
  }

  lemma NothingNotified(r: Record, ctx: Context)
    requires Notified([], r, ctx)
    ensures !AdmitsGaps([])
    ensures r.disclosed.repaired == {} && r.disclosed.steppedDown == {} && r.disclosed.escalated == {} && r.disclosed.reAsked == {}
  {
  }

  lemma OfferedArePosted(r: Record, s: Settings, auditor: Reflect.Auditor, fetcher: Option<Env>, stops: bool, posted: seq<Finding>)
    requires Collected(r.outcomes, r.offered, r.from) && Unfiltered(s, r)
    requires Refined(r.offered, r.reviewed, s, auditor, fetcher, stops, r.trail, posted, r.suppressed, r.unaudited)
    ensures AllPosted(r.outcomes, r.trail.index, posted)
    ensures posted == [] ==> forall i :: 0 <= i < |r.outcomes| ==> r.outcomes[i].findings == []
  {
    hide Refined, SnapOne, Collected, Unfiltered;
    forall i, f | 0 <= i < |r.outcomes| && f in r.outcomes[i].findings
      ensures PostedFor(f, r.trail.index, posted)
    {
      var w := OnePosted(r, s, auditor, fetcher, stops, posted, i, f);
    }
    forall i | posted == [] && 0 <= i < |r.outcomes|
      ensures r.outcomes[i].findings == []
    {
      SomeMember(r.outcomes[i].findings);
      if f :| f in r.outcomes[i].findings {
        var w := OnePosted(r, s, auditor, fetcher, stops, posted, i, f);
      }
    }
  }

  lemma OnePosted(r: Record, s: Settings, auditor: Reflect.Auditor, fetcher: Option<Env>, stops: bool, posted: seq<Finding>, i: nat, f: Finding)
    returns (w: Finding)
    requires Collected(r.outcomes, r.offered, r.from) && Unfiltered(s, r) && i < |r.outcomes| && f in r.outcomes[i].findings
    requires Refined(r.offered, r.reviewed, s, auditor, fetcher, stops, r.trail, posted, r.suppressed, r.unaudited)
    ensures w in posted && PlaceOf(w) == PlaceOf(SnapOne(f, r.trail.index)) && w.severity.Rank() >= f.severity.Rank()
  {
    hide Refined, SnapOne, PlaceOf;
    var k :| 0 <= k < |r.outcomes[i].findings| && r.outcomes[i].findings[k] == f;
    assert (i, k) in r.from;
    var m :| 0 <= m < |r.from| && r.from[m] == (i, k);
    assert r.offered[m] == f;
    w := OfferedIsPosted(r.offered, r.reviewed, s, auditor, fetcher, stops, r.trail, posted, r.suppressed, r.unaudited, f);
  }

  lemma Grew(d0: Disclosure, d: Disclosure, made: Log, cfg: Config)
    requires Honest(d0, d, made, cfg, false, false)
    ensures Leq(d0.adapter, d.adapter)
  {
    hide Disclosed, Caused, Sticky;
  }

  lemma NothingToTell(s: NoticeState, notices: seq<Notice>)
    requires forall n :: n in notices <==> Tells(s, n)
    requires !s.cappedFiles && s.oversized == [] && s.skippedByTriage == [] && s.errors == [] && s.splitBatches == {}
    requires s.repaired == {} && s.steppedDown == {} && s.escalated == {} && s.reAsked == {} && s.flooded.Keys == {}
    requires !s.reflectionSkipped && s.suppressed == 0 && s.offDiff == 0 && s.openThreads == 0
    ensures notices == []
  {
    assert s.flooded == map[];
    assert forall n :: !Tells(s, n);
    hide Tells;
    SomeMember(notices);
  }

  lemma SignalIs(outcomes: seq<Outcome>, findings: seq<Finding>, errors: seq<Reason>, from: seq<(nat, nat)>)
    requires Collected(outcomes, findings, from) && errors == ErrorsOf(outcomes)
    ensures NoSignal(outcomes) <==> |outcomes| > 0 && |errors| == |outcomes| && findings == []
  {
    NoErrors(outcomes);
    hide ErrorsOf;
    NothingCollected(outcomes, findings, from);
  }

  lemma NothingCollected(outcomes: seq<Outcome>, findings: seq<Finding>, from: seq<(nat, nat)>)
    requires Collected(outcomes, findings, from)
    ensures findings == [] <==> forall i :: 0 <= i < |outcomes| ==> outcomes[i].findings == []
  {
    if findings != [] {
      assert from[0].1 < |outcomes[from[0].0].findings|;
    }
    forall i | 0 <= i < |outcomes|
      ensures outcomes[i].findings != [] ==> from != []
    {
      assert outcomes[i].findings != [] ==> (i, 0) in from;
    }
  }

  lemma BatchesMean(batches: seq<seq<Unit>>, expanded: seq<Unit>, chosen: seq<Unit>)
    requires SameMeaning(chosen, expanded)
    requires AllClean(expanded) ==> AllClean(Flatten(batches)) && UnitsChanges(Flatten(batches)) == UnitsChanges(expanded)
    ensures AllClean(Flatten(batches)) && UnitsChanges(Flatten(batches)) == UnitsChanges(chosen)
  {
    hide AllClean, UnitsChanges, Flatten;
  }

  lemma ChosenAreGood(units: seq<Unit>, ctx: Context, chosen: seq<Unit>)
    requires GoodDiff(units, ctx) && forall u :: u in chosen ==> u in units
    ensures GoodFiles(chosen) && forall path :: path in ctx.spans ==> SortedSpans(ctx.spans[path])
  {
    hide GoodFile, DistinctPaths, Named, DiffOf, SortedSpans;
  }

  lemma SameLines(made: Log, lenses: seq<Lens>, batches: seq<seq<Unit>>, chosen: seq<Unit>)
    requires UnitsChanges(Flatten(batches)) == UnitsChanges(chosen)
    requires FullyReviewed(made, lenses, Flatten(batches))
    ensures FullyReviewed(made, lenses, chosen)
  {
    hide UnitsChanges, Flatten, CoveredBy;
  }
}
