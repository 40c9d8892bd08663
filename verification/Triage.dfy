/** Two-stage triage routing (`engine/triage.py`): which files the strong model reviews, and in what order. */
module Triage {
  import opened Wrappers
  import opened DiffParse
  import opened Patches
  import opened Lookup
  import opened RankSort

  const MAX_SKIPPABLE_LINES: nat := 200

  /** The floor's signals: a tool's hit, a security path or token, or a change of the size no triage may skip. */
  predicate IsRisky(path: string, patch: seq<Line>, hinted: set<string>, pathRule: string -> bool, tokenRule: seq<Line> -> bool) {
    path in hinted || pathRule(path) || tokenRule(patch) || |Changes(patch)| + Surplus(patch, |patch|) >= MAX_SKIPPABLE_LINES
  }

  /**
    The deterministic floor. `pathRule` and `tokenRule` stand for the two
    security expressions. The size is what `changed_line_count` says it is: the
    changed lines and any surplus.
   */
  method AlwaysEscalate(path: string, patch: seq<Line>, hinted: set<string>, pathRule: string -> bool, tokenRule: seq<Line> -> bool)
    returns (r: bool)
    ensures r <==> IsRisky(path, patch, hinted, pathRule, tokenRule)
    ensures r <==> path in hinted || pathRule(path) || tokenRule(patch) || |Changes(patch)| + Surplus(patch, |patch|) >= 200
  {
    if path in hinted || pathRule(path) || tokenRule(patch) {
      return true;
    }
    var count := ChangedLineCount(patch);
    return count >= MAX_SKIPPABLE_LINES;
  }

  type Rated = (Unit, int)

  /** The cheap model's verdict on a path: whether to review it, and its risk. */
  type Verdicts = map<string, (bool, int)>

  function VerdictFor(verdicts: Verdicts, path: string): (bool, int) {
    if path in verdicts then verdicts[path] else (true, 5)
  }

  // ---------------------------------------------------------------------
  // Routing
  // ---------------------------------------------------------------------

  predicate OnFloor(files: seq<Unit>, floor: seq<bool>, path: string)
    requires |floor| == |files|
  {
    exists i :: 0 <= i < |files| && floor[i] && files[i].0 == path
  }

  /** Where triage sends file `i` when it routes: to review first, to review by risk, to the skipped list, or nowhere. */
  datatype Fate = Floor | Ranked | Skipped | Shadowed

  function FateOf(files: seq<Unit>, floor: seq<bool>, verdicts: Verdicts, i: nat): Fate
    requires |floor| == |files| && i < |files|
  {
    if floor[i] then Floor
    else if OnFloor(files, floor, files[i].0) then Shadowed
    else if VerdictFor(verdicts, files[i].0).0 then Ranked
    else Skipped
  }

  function WithFate(files: seq<Unit>, floor: seq<bool>, verdicts: Verdicts, fate: Fate, n: nat): seq<Unit>
    requires |floor| == |files| && n <= |files|
  {
    if n == 0 then []
    else WithFate(files, floor, verdicts, fate, n - 1)
         + (if FateOf(files, floor, verdicts, n - 1) == fate then [files[n - 1]] else [])
  }

  /** Every file meets exactly one fate. */
  lemma {:induction false} FatesCover(files: seq<Unit>, floor: seq<bool>, verdicts: Verdicts, n: nat)
    requires |floor| == |files| && n <= |files|
    ensures multiset(WithFate(files, floor, verdicts, Floor, n)) + multiset(WithFate(files, floor, verdicts, Ranked, n))
          + multiset(WithFate(files, floor, verdicts, Skipped, n)) + multiset(WithFate(files, floor, verdicts, Shadowed, n))
         == multiset(files[..n])
  {
    if n > 0 {
      hide *;
      FatesCover(files, floor, verdicts, n - 1);
      BagNext(files, n);
      FateStep(files, floor, verdicts, Floor, n);
      FateStep(files, floor, verdicts, Ranked, n);
      FateStep(files, floor, verdicts, Skipped, n);
      FateStep(files, floor, verdicts, Shadowed, n);
      OneMore(FateOf(files, floor, verdicts, n - 1),
              multiset(WithFate(files, floor, verdicts, Floor, n - 1)), multiset(WithFate(files, floor, verdicts, Ranked, n - 1)),
              multiset(WithFate(files, floor, verdicts, Skipped, n - 1)), multiset(WithFate(files, floor, verdicts, Shadowed, n - 1)),
              multiset(WithFate(files, floor, verdicts, Floor, n)), multiset(WithFate(files, floor, verdicts, Ranked, n)),
              multiset(WithFate(files, floor, verdicts, Skipped, n)), multiset(WithFate(files, floor, verdicts, Shadowed, n)),
              files[n - 1], multiset(files[..n - 1]));
    }
  }

  lemma BagNext(files: seq<Unit>, n: nat)
    requires 0 < n <= |files|
    ensures multiset(files[..n]) == multiset(files[..n - 1]) + multiset{files[n - 1]}
  {
    TakeNext(files, n - 1);
  }

  lemma OneMore(fate: Fate, a: multiset<Unit>, b: multiset<Unit>, c: multiset<Unit>, d: multiset<Unit>,
                a': multiset<Unit>, b': multiset<Unit>, c': multiset<Unit>, d': multiset<Unit>, u: Unit, all: multiset<Unit>)
    requires a + b + c + d == all
    requires a' == (if fate == Floor then a + multiset{u} else a) && b' == (if fate == Ranked then b + multiset{u} else b)
    requires c' == (if fate == Skipped then c + multiset{u} else c) && d' == (if fate == Shadowed then d + multiset{u} else d)
    ensures a' + b' + c' + d' == all + multiset{u}
  {
    AddToOne(a, b, c, d, u);
  }

  lemma AddToOne(a: multiset<Unit>, b: multiset<Unit>, c: multiset<Unit>, d: multiset<Unit>, u: Unit)
    ensures (a + multiset{u}) + b + c + d == a + b + c + d + multiset{u}
    ensures a + (b + multiset{u}) + c + d == a + b + c + d + multiset{u}
    ensures a + b + (c + multiset{u}) + d == a + b + c + d + multiset{u}
    ensures a + b + c + (d + multiset{u}) == a + b + c + d + multiset{u}
  {
  }

  lemma FateStep(files: seq<Unit>, floor: seq<bool>, verdicts: Verdicts, fate: Fate, n: nat)
    requires |floor| == |files| && 0 < n <= |files|
    ensures multiset(WithFate(files, floor, verdicts, fate, n))
         == if FateOf(files, floor, verdicts, n - 1) == fate
            then multiset(WithFate(files, floor, verdicts, fate, n - 1)) + multiset{files[n - 1]}
            else multiset(WithFate(files, floor, verdicts, fate, n - 1))
  {
    hide FateOf;
    var was := WithFate(files, floor, verdicts, fate, n - 1);
    assert was + [] == was;
  }

  /** Nothing on the floor is skipped. */
  lemma {:induction false} FloorIsReviewed(files: seq<Unit>, floor: seq<bool>, verdicts: Verdicts, n: nat)
    requires |floor| == |files| && n <= |files|
    ensures forall i :: 0 <= i < n && floor[i] ==> files[i] in WithFate(files, floor, verdicts, Floor, n)
  {
    hide OnFloor;
    if n > 0 {
      FloorIsReviewed(files, floor, verdicts, n - 1);
    }
  }

  /** A file is shadowed exactly when it is off the floor and shares its path with one on it. */
  lemma {:induction false} ShadowedIff(files: seq<Unit>, floor: seq<bool>, verdicts: Verdicts, n: nat)
    requires |floor| == |files| && n <= |files|
    ensures WithFate(files, floor, verdicts, Shadowed, n) != [] <==>
            exists i :: 0 <= i < n && !floor[i] && OnFloor(files, floor, files[i].0)
  {
    if n > 0 {
      ShadowedIff(files, floor, verdicts, n - 1);
      if i :| 0 <= i < n && !floor[i] && OnFloor(files, floor, files[i].0) {
        assert i == n - 1 || exists k :: 0 <= k < n - 1 && !floor[k] && OnFloor(files, floor, files[k].0);
      }
    }
  }

  /** With distinct paths no file is shadowed, so triage loses nothing silently. */
  lemma NothingShadowed(files: seq<Unit>, floor: seq<bool>, verdicts: Verdicts)
    requires |floor| == |files| && DistinctPaths(files)
    ensures WithFate(files, floor, verdicts, Shadowed, |files|) == []
  {
    ShadowedIff(files, floor, verdicts, |files|);
  }

  /** Two patches of one path, the first on the floor: the second is neither reviewed nor reported. */
  lemma ShadowedExample()
    ensures var files: seq<Unit> := [("a", [Added("password")]), ("a", [Added("x")])];
            WithFate(files, [true, false], map[], Shadowed, 2) == [("a", [Added("x")])]
  {
    var files: seq<Unit> := [("a", [Added("password")]), ("a", [Added("x")])];
    assert files[0].0 == "a" && OnFloor(files, [true, false], "a");
    assert WithFate(files, [true, false], map[], Shadowed, 1) == [] + [];
  }

  /** Whether triage may route at all: there is a candidate, and the cheap model gave a verdict. */
  predicate Routes(files: seq<Unit>, floor: seq<bool>, verdicts: Option<Verdicts>)
    requires |floor| == |files|
  {
    verdicts.Some? && exists i :: 0 <= i < |files| && !OnFloor(files, floor, files[i].0)
  }

  // ---------------------------------------------------------------------
  // What triage decides, file by file
  // ---------------------------------------------------------------------

  /** The file is not on the floor, nor is any of its path. */
  predicate OffFloor(files: seq<Unit>, floor: seq<bool>, i: nat)
    requires |floor| == |files|
  {
    i < |files| && forall j :: 0 <= j < |files| && floor[j] ==> files[j].0 != files[i].0
  }

  /** The cheap model would have the file reviewed, or said nothing of it. */
  predicate Wanted(verdicts: Verdicts, path: string) { path in verdicts ==> verdicts[path].0 }

  /** The risk the cheap model gave the file; halfway if it said nothing. */
  function RiskOf(verdicts: Verdicts, path: string): int { if path in verdicts then verdicts[path].1 else 5 }

  /** File `i` goes before file `j`: the floor first, in its order, then by falling risk, and in order where that is equal. */
  predicate Precedes(files: seq<Unit>, floor: seq<bool>, verdicts: Verdicts, i: nat, j: nat)
    requires |floor| == |files| && i < |files| && j < |files|
  {
    if floor[i] then !floor[j] || i < j
    else
      !floor[j]
      && (RiskOf(verdicts, files[i].0) > RiskOf(verdicts, files[j].0)
          || (RiskOf(verdicts, files[i].0) == RiskOf(verdicts, files[j].0) && i < j))
  }

  /** What is reviewed: the floor, and then the others by risk. */
  ghost predicate FloorFirst(files: seq<Unit>, floor: seq<bool>, verdicts: Verdicts, review: seq<Unit>, at: seq<nat>)
    requires |floor| == |files|
  {
    && |at| == |review| && (forall k :: 0 <= k < |at| ==> at[k] < |files| && review[k] == files[at[k]])
    && (forall k, l :: 0 <= k < l < |at| ==> Precedes(files, floor, verdicts, at[k], at[l]))
    && (forall i: nat :: i in at <==> i < |files| && (floor[i] || (OffFloor(files, floor, i) && Wanted(verdicts, files[i].0))))
  }

  /** What is skipped: the others that the cheap model does not want. */
  ghost predicate LeftOut(files: seq<Unit>, floor: seq<bool>, verdicts: Verdicts, skipped: seq<string>, left: seq<nat>)
    requires |floor| == |files|
  {
    && |left| == |skipped| && (forall k :: 0 <= k < |left| ==> left[k] < |files| && skipped[k] == files[left[k]].0)
    && (forall k, l :: 0 <= k < l < |left| ==> left[k] < left[l])
    && (forall i: nat :: i in left <==> i < |files| && OffFloor(files, floor, i) && !Wanted(verdicts, files[i].0))
  }

  /** What triage answers when it routes. `at` and `left` are the places of the files reviewed and of those skipped. */
  ghost predicate Triaged(files: seq<Unit>, floor: seq<bool>, verdicts: Verdicts, review: seq<Unit>, skipped: seq<string>, at: seq<nat>, left: seq<nat>)
    requires |floor| == |files|
  {
    FloorFirst(files, floor, verdicts, review, at) && LeftOut(files, floor, verdicts, skipped, left)
  }

  /** The units are the files at these places, which ascend and are below `n`. */
  ghost predicate AtPlaces(files: seq<Unit>, n: nat, units: seq<Unit>, at: seq<nat>) {
    && n <= |files| && |at| == |units| && (forall k :: 0 <= k < |at| ==> at[k] < n && units[k] == files[at[k]])
    && (forall k, l :: 0 <= k < l < |at| ==> at[k] < at[l])
  }

  lemma AtPlacesNext(files: seq<Unit>, n: nat, units: seq<Unit>, at: seq<nat>)
    requires 0 < n <= |files| && AtPlaces(files, n - 1, units, at)
    ensures AtPlaces(files, n, units, at) && AtPlaces(files, n, units + [files[n - 1]], at + [n - 1])
  {
  }

  /** The places of the files of one fate among the first `n`. */
  ghost predicate Fated(files: seq<Unit>, floor: seq<bool>, verdicts: Verdicts, fate: Fate, n: nat, at: seq<nat>)
    requires |floor| == |files| && n <= |files|
  {
    && AtPlaces(files, n, WithFate(files, floor, verdicts, fate, n), at)
    && forall i: nat :: i in at <==> i < n && FateOf(files, floor, verdicts, i) == fate
  }

  lemma {:induction false} FatedPlaces(files: seq<Unit>, floor: seq<bool>, verdicts: Verdicts, fate: Fate, n: nat) returns (at: seq<nat>)
    requires |floor| == |files| && n <= |files|
    ensures Fated(files, floor, verdicts, fate, n, at)
  {
    hide FateOf, AtPlaces, Fated, WithFate;
    at := [];
    if n == 0 {
      NonePlaced(files, floor, verdicts, fate);
    } else {
      at := FatedPlaces(files, floor, verdicts, fate, n - 1);
      FatedNext(files, floor, verdicts, fate, n, at);
      if FateOf(files, floor, verdicts, n - 1) == fate {
        at := at + [n - 1];
      }
    }
  }

  lemma FatedNext(files: seq<Unit>, floor: seq<bool>, verdicts: Verdicts, fate: Fate, n: nat, at: seq<nat>)
    requires |floor| == |files| && 0 < n <= |files| && Fated(files, floor, verdicts, fate, n - 1, at)
    ensures Fated(files, floor, verdicts, fate, n, if FateOf(files, floor, verdicts, n - 1) == fate then at + [n - 1] else at)
  {
    hide FateOf, AtPlaces, WithFate;
    AtPlacesNext(files, n, WithFate(files, floor, verdicts, fate, n - 1), at);
    FateAppends(files, floor, verdicts, fate, n);
  }

  lemma NonePlaced(files: seq<Unit>, floor: seq<bool>, verdicts: Verdicts, fate: Fate)
    requires |floor| == |files|
    ensures Fated(files, floor, verdicts, fate, 0, [])
  {
  }

  lemma FateAppends(files: seq<Unit>, floor: seq<bool>, verdicts: Verdicts, fate: Fate, n: nat)
    requires |floor| == |files| && 0 < n <= |files|
    ensures var was := WithFate(files, floor, verdicts, fate, n - 1);
            WithFate(files, floor, verdicts, fate, n) == if FateOf(files, floor, verdicts, n - 1) == fate then was + [files[n - 1]] else was
  {
    hide FateOf;
    var was := WithFate(files, floor, verdicts, fate, n - 1);
    assert was + [] == was;
  }

  lemma FateIs(files: seq<Unit>, floor: seq<bool>, verdicts: Verdicts, i: nat)
    requires |floor| == |files| && i < |files|
    ensures FateOf(files, floor, verdicts, i) == Floor <==> floor[i]
    ensures FateOf(files, floor, verdicts, i) == Ranked <==> OffFloor(files, floor, i) && Wanted(verdicts, files[i].0)
    ensures FateOf(files, floor, verdicts, i) == Skipped <==> OffFloor(files, floor, i) && !Wanted(verdicts, files[i].0)
    ensures OffFloor(files, floor, i) ==> !floor[i]
    ensures VerdictFor(verdicts, files[i].0).1 == RiskOf(verdicts, files[i].0)
  {
  }

  /** The units are the files at these places, by falling risk, and in order where that is equal. */
  ghost predicate ByRisk(files: seq<Unit>, verdicts: Verdicts, units: seq<Unit>, at: seq<nat>) {
    && |at| == |units| && (forall k :: 0 <= k < |at| ==> at[k] < |files| && units[k] == files[at[k]])
    && (forall k, l :: 0 <= k < l < |at| ==>
          RiskOf(verdicts, files[at[k]].0) > RiskOf(verdicts, files[at[l]].0)
          || (RiskOf(verdicts, files[at[k]].0) == RiskOf(verdicts, files[at[l]].0) && at[k] < at[l]))
  }

  /** The ranked places, sorted by risk. */
  lemma RankedPlaces(files: seq<Unit>, floor: seq<bool>, verdicts: Verdicts, ranked: seq<Rated>) returns (at: seq<nat>)
    requires |floor| == |files| && Items(ranked) == WithFate(files, floor, verdicts, Ranked, |files|)
    requires forall r :: r in ranked ==> r.1 == VerdictFor(verdicts, r.0.0).1
    ensures ByRisk(files, verdicts, Items(SortByRank(ranked)), at)
    ensures forall i: nat :: i in at <==> i < |files| && FateOf(files, floor, verdicts, i) == Ranked
  {
    hide *;
    var places := FatedPlaces(files, floor, verdicts, Ranked, |files|);
    var pairs := PairsOf(files, floor, verdicts, ranked, places);
    SortOrders(pairs);
    SortPlaced(files, pairs);
    ItemsAre(SortByRank(ranked));
    at := PlacesSorted(files, verdicts, pairs, SortByRank<nat>(pairs), Items(SortByRank(ranked)));
    PlacesAre(files, floor, verdicts, places, pairs, at);
  }

  lemma PlacesAre(files: seq<Unit>, floor: seq<bool>, verdicts: Verdicts, places: seq<nat>, pairs: seq<Rung>, at: seq<nat>)
    requires |floor| == |files| && Fated(files, floor, verdicts, Ranked, |files|, places)
    requires |pairs| == |places| && forall k :: 0 <= k < |places| ==> pairs[k].0 == places[k]
    requires forall i :: i in at <==> exists p :: p in pairs && p.0 == i
    ensures forall i: nat :: i in at <==> i < |files| && FateOf(files, floor, verdicts, i) == Ranked
  {
    hide FateOf, AtPlaces, WithFate;
    forall i: nat
      ensures i in at <==> i in places
    {
      if i in places {
        var k :| 0 <= k < |places| && places[k] == i;
        assert pairs[k] in pairs;
      }
    }
  }

  lemma PlacesSorted(files: seq<Unit>, verdicts: Verdicts, pairs: seq<Rung>, sorted: seq<Rung>, units: seq<Unit>) returns (at: seq<nat>)
    requires InOrder(sorted) && (forall p :: p in sorted <==> p in pairs) && Within(sorted, |files|) && Within(pairs, |files|)
    requires forall p :: p in pairs ==> p.1 == RiskOf(verdicts, files[p.0].0)
    requires |units| == |sorted| && forall k :: 0 <= k < |sorted| ==> units[k] == Placed(files, sorted)[k].0
    ensures ByRisk(files, verdicts, units, at)
    ensures forall i :: i in at <==> exists p :: p in pairs && p.0 == i
  {
    hide Placed, RiskOf;
    at := seq(|sorted|, k requires 0 <= k < |sorted| => sorted[k].0);
    forall k | 0 <= k < |sorted|
      ensures sorted[k].1 == RiskOf(verdicts, files[sorted[k].0].0) && units[k] == files[at[k]]
    {
      assert sorted[k] in pairs;
    }
    forall i | exists p :: p in pairs && p.0 == i
      ensures i in at
    {
      var p :| p in pairs && p.0 == i;
      var k :| 0 <= k < |sorted| && sorted[k] == p;
      assert at[k] == i;
    }
  }

  lemma PairsOf(files: seq<Unit>, floor: seq<bool>, verdicts: Verdicts, ranked: seq<Rated>, places: seq<nat>) returns (pairs: seq<Rung>)
    requires |floor| == |files| && Items(ranked) == WithFate(files, floor, verdicts, Ranked, |files|)
    requires forall r :: r in ranked ==> r.1 == VerdictFor(verdicts, r.0.0).1
    requires Fated(files, floor, verdicts, Ranked, |files|, places)
    ensures |pairs| == |places| && forall k :: 0 <= k < |places| ==> pairs[k].0 == places[k]
    ensures forall k, l :: 0 <= k < l < |pairs| ==> pairs[k].0 < pairs[l].0
    ensures Within(pairs, |files|) && Placed(files, pairs) == ranked
    ensures forall p :: p in pairs ==> p.1 == RiskOf(verdicts, files[p.0].0)
  {
    hide WithFate, FateOf, Items, VerdictFor, RiskOf;
    ItemsAre(ranked);
    pairs := seq(|places|, k requires 0 <= k < |places| => (places[k], ranked[k].1));
    forall k | 0 <= k < |places|
      ensures places[k] < |files| && ranked[k] == (files[places[k]], pairs[k].1) && pairs[k].1 == RiskOf(verdicts, files[places[k]].0)
    {
      assert ranked[k] in ranked;
      VerdictIs(verdicts, ranked[k].0.0);
    }
  }

  lemma VerdictIs(verdicts: Verdicts, path: string)
    ensures VerdictFor(verdicts, path).1 == RiskOf(verdicts, path)
  {
  }

  lemma {:induction false} ItemsAre(s: seq<Rated>)
    ensures |Items(s)| == |s| && forall i :: 0 <= i < |s| ==> Items(s)[i] == s[i].0
  {
    if s != [] {
      ItemsAre(s[1..]);
    }
  }

  lemma FloorThenRanked(files: seq<Unit>, floor: seq<bool>, verdicts: Verdicts, first: seq<Unit>, firstAt: seq<nat>, rest: seq<Unit>, restAt: seq<nat>)
    requires |floor| == |files| && AtPlaces(files, |files|, first, firstAt) && ByRisk(files, verdicts, rest, restAt)
    requires forall i: nat :: i in firstAt <==> i < |files| && floor[i]
    requires forall i: nat :: i in restAt <==> i < |files| && OffFloor(files, floor, i) && Wanted(verdicts, files[i].0)
    ensures FloorFirst(files, floor, verdicts, first + rest, firstAt + restAt)
  {
    hide RiskOf, Wanted;
    var at := firstAt + restAt;
    forall k, l | 0 <= k < l < |at|
      ensures Precedes(files, floor, verdicts, at[k], at[l])
    {
      assert at[k] == if k < |firstAt| then firstAt[k] else restAt[k - |firstAt|];
      assert at[l] == if l < |firstAt| then firstAt[l] else restAt[l - |firstAt|];
    }
  }

  lemma LeftAre(files: seq<Unit>, floor: seq<bool>, verdicts: Verdicts, left: seq<Unit>, out: seq<nat>)
    requires |floor| == |files| && AtPlaces(files, |files|, left, out)
    requires forall i: nat :: i in out <==> i < |files| && OffFloor(files, floor, i) && !Wanted(verdicts, files[i].0)
    ensures LeftOut(files, floor, verdicts, PathsOf(left), out)
  {
    hide OffFloor, Wanted;
  }

  lemma RoutedIsTriaged(files: seq<Unit>, floor: seq<bool>, verdicts: Verdicts, ranked: seq<Rated>, left: seq<Unit>)
    returns (at: seq<nat>, out: seq<nat>)
    requires |floor| == |files| && Items(ranked) == WithFate(files, floor, verdicts, Ranked, |files|)
    requires forall r :: r in ranked ==> r.1 == VerdictFor(verdicts, r.0.0).1
    requires left == WithFate(files, floor, verdicts, Skipped, |files|)
    ensures Triaged(files, floor, verdicts, WithFate(files, floor, verdicts, Floor, |files|) + Items(SortByRank(ranked)), PathsOf(left), at, out)
  {
    hide *;
    var first := FatedPlaces(files, floor, verdicts, Floor, |files|);
    var rest := RankedPlaces(files, floor, verdicts, ranked);
    out := FatedPlaces(files, floor, verdicts, Skipped, |files|);
    at := first + rest;
    FatesMean(files, floor, verdicts, first, rest, out);
    FloorThenRanked(files, floor, verdicts, WithFate(files, floor, verdicts, Floor, |files|), first, Items(SortByRank(ranked)), rest);
    LeftAre(files, floor, verdicts, left, out);
    BothTriaged(files, floor, verdicts, WithFate(files, floor, verdicts, Floor, |files|) + Items(SortByRank(ranked)), PathsOf(left), at, out);
  }

  lemma FatesMean(files: seq<Unit>, floor: seq<bool>, verdicts: Verdicts, first: seq<nat>, rest: seq<nat>, out: seq<nat>)
    requires |floor| == |files| && Fated(files, floor, verdicts, Floor, |files|, first) && Fated(files, floor, verdicts, Skipped, |files|, out)
    requires forall i: nat :: i in rest <==> i < |files| && FateOf(files, floor, verdicts, i) == Ranked
    ensures AtPlaces(files, |files|, WithFate(files, floor, verdicts, Floor, |files|), first)
    ensures AtPlaces(files, |files|, WithFate(files, floor, verdicts, Skipped, |files|), out)
    ensures forall i: nat :: i in first <==> i < |files| && floor[i]
    ensures forall i: nat :: i in rest <==> i < |files| && OffFloor(files, floor, i) && Wanted(verdicts, files[i].0)
    ensures forall i: nat :: i in out <==> i < |files| && OffFloor(files, floor, i) && !Wanted(verdicts, files[i].0)
  {
    hide AtPlaces, WithFate, FateOf, OffFloor, Wanted;
    forall i: nat | i < |files|
      ensures i in first <==> floor[i]
      ensures i in rest <==> OffFloor(files, floor, i) && Wanted(verdicts, files[i].0)
      ensures i in out <==> OffFloor(files, floor, i) && !Wanted(verdicts, files[i].0)
    {
      FateIs(files, floor, verdicts, i);
    }
  }

  lemma BothTriaged(files: seq<Unit>, floor: seq<bool>, verdicts: Verdicts, review: seq<Unit>, skipped: seq<string>, at: seq<nat>, left: seq<nat>)
    requires |floor| == |files| && FloorFirst(files, floor, verdicts, review, at) && LeftOut(files, floor, verdicts, skipped, left)
    ensures Triaged(files, floor, verdicts, review, skipped, at, left)
  {
    hide FloorFirst, LeftOut;
  }

  function PathsOf(units: seq<Unit>): (r: seq<string>)
    ensures |r| == |units| && forall i :: 0 <= i < |r| ==> r[i] == units[i].0
  {
    if units == [] then [] else [units[0].0] + PathsOf(units[1..])
  }

  lemma {:induction false} PathsOfSnoc(units: seq<Unit>, u: Unit)
    ensures PathsOf(units + [u]) == PathsOf(units) + [u.0]
  {
  }

  method HasCandidate(files: seq<Unit>, floor: seq<bool>) returns (r: bool)
    requires |floor| == |files|
    ensures r <==> exists i :: 0 <= i < |files| && !OnFloor(files, floor, files[i].0)
  {
    hide OnFloor;
    for i := 0 to |files|
      invariant forall k :: 0 <= k < i ==> OnFloor(files, floor, files[k].0)
    {
      if !OnFloor(files, floor, files[i].0) {
        return true;
      }
    }
    return false;
  }

  lemma CandidateIs(files: seq<Unit>, floor: seq<bool>)
    requires |floor| == |files|
    ensures (exists i :: 0 <= i < |files| && !OnFloor(files, floor, files[i].0)) <==> exists i :: OffFloor(files, floor, i)
  {
    forall i: nat | i < |files|
      ensures OffFloor(files, floor, i) <==> !OnFloor(files, floor, files[i].0)
    {
    }
  }

  lemma RankOne(ranked: seq<Rated>, unit: Unit, risk: int)
    ensures Items(ranked + [(unit, risk)]) == Items(ranked) + [unit]
  {
    ItemsConcat(ranked, [(unit, risk)]);
    assert Items([(unit, risk)]) == [unit] + Items<Unit>([]);
  }

  method Route(files: seq<Unit>, floor: seq<bool>, verdicts: Verdicts)
    returns (first: seq<Unit>, ranked: seq<Rated>, left: seq<Unit>)
    requires |floor| == |files|
    ensures first == WithFate(files, floor, verdicts, Floor, |files|)
    ensures Items(ranked) == WithFate(files, floor, verdicts, Ranked, |files|)
    ensures forall r :: r in ranked ==> r.1 == VerdictFor(verdicts, r.0.0).1
    ensures left == WithFate(files, floor, verdicts, Skipped, |files|)
  {
    hide OnFloor, VerdictFor, Items;
    first, ranked, left := [], [], [];
    assert Items<Unit>([]) == [] by {
      NoItems();
    }
    for i := 0 to |files|
      invariant first == WithFate(files, floor, verdicts, Floor, i)
      invariant Items(ranked) == WithFate(files, floor, verdicts, Ranked, i)
      invariant forall r :: r in ranked ==> r.1 == VerdictFor(verdicts, r.0.0).1
      invariant left == WithFate(files, floor, verdicts, Skipped, i)
    {
      var unit := files[i];
      if floor[i] {
        first := first + [unit];
      } else if !OnFloor(files, floor, unit.0) {
        var verdict := VerdictFor(verdicts, unit.0);
        if verdict.0 {
          RankOne(ranked, unit, verdict.1);
          ranked := ranked + [(unit, verdict.1)];
        } else {
          left := left + [unit];
        }
      }
    }
  }

  lemma NoItems()
    ensures Items<Unit>([]) == []
  {
  }

  /**
    `triage_files`, given which files the floor holds and what the cheap model
    answered (`None` when its call failed or its answer did not parse). What is
    reviewed, what is reported as skipped and what is shadowed make up the files.
   */
  method TriageFiles(files: seq<Unit>, floor: seq<bool>, verdicts: Option<Verdicts>)
    returns (review: seq<Unit>, skipped: seq<string>, ghost rated: seq<Rated>, ghost at: seq<nat>, ghost out: seq<nat>)
    requires |floor| == |files|
    ensures verdicts.None? || (forall i :: !OffFloor(files, floor, i)) ==> review == files && skipped == []
    ensures verdicts.Some? && (exists i :: OffFloor(files, floor, i)) ==> Triaged(files, floor, verdicts.value, review, skipped, at, out)
    ensures !Routes(files, floor, verdicts) ==> review == files && skipped == []
    ensures Routes(files, floor, verdicts) ==>
              && review == WithFate(files, floor, verdicts.value, Floor, |files|) + Items(SortByRank(rated))
              && Items(rated) == WithFate(files, floor, verdicts.value, Ranked, |files|)
              && (forall r :: r in rated ==> r.1 == VerdictFor(verdicts.value, r.0.0).1)
              && skipped == PathsOf(WithFate(files, floor, verdicts.value, Skipped, |files|))
              && multiset(review) + multiset(WithFate(files, floor, verdicts.value, Skipped, |files|))
                 + multiset(WithFate(files, floor, verdicts.value, Shadowed, |files|)) == multiset(files)
    ensures DistinctPaths(files) && skipped == [] ==> multiset(review) == multiset(files)
    ensures forall i :: 0 <= i < |files| && floor[i] ==> files[i] in review
  {
    hide OnFloor, WithFate, Items, SortByRank, VerdictFor, PathsOf, DistinctPaths;
    rated, at, out := [], [], [];
    var candidate := HasCandidate(files, floor);
    CandidateIs(files, floor);
    hide Triaged, OffFloor;
    if !candidate || verdicts.None? {
      return files, [], rated, at, out;
    }
    var first, ranked, left := Route(files, floor, verdicts.value);
    rated := ranked;
    SortKeepsItems(ranked);
    FatesCover(files, floor, verdicts.value, |files|);
    assert files[..|files|] == files;
    FloorIsReviewed(files, floor, verdicts.value, |files|);
    at, out := RoutedIsTriaged(files, floor, verdicts.value, ranked, left);
    review, skipped := first + Items(SortByRank(ranked)), PathsOf(left);
    if DistinctPaths(files) {
      NothingShadowed(files, floor, verdicts.value);
    }
  }
}
