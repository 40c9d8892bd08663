/** The self-reflection audit and its hop-bounded recheck (`engine/reflect.py`). */
module Reflect {
  import opened Wrappers
  import opened Findings
  import opened Retrieve

  datatype Verdict = Verdict(keep: bool, broad: bool, needs: seq<string>, confidence: Option<int>)

  /** The verdict on a finding the auditor did not mention. */
  const KEEP_VERDICT := Verdict(true, false, [], None)

  /** One completion of the auditor: it failed, or it judged by index and was shown these paths. */
  datatype Audit = Failed | Judged(verdicts: map<int, Verdict>, grounded: set<string>)

  /** Any auditor: what it answers at a hop about the findings it is given. */
  type Auditor = (nat, seq<Finding>) -> Audit

  function VerdictOn(audit: Audit, i: nat): Verdict
    requires audit.Judged?
  {
    if i in audit.verdicts then audit.verdicts[i] else KEEP_VERDICT
  }

  /** The finding was kept, but scored below the configured floor. */
  predicate BelowFloor(v: Verdict, minConfidence: int) {
    v.keep && minConfidence > 0 && v.confidence.Some? && v.confidence.value < minConfidence
  }

  /** What is asked for by the deferred findings, in order. */
  function NeedsOf(audit: Audit, n: nat): seq<string>
    requires audit.Judged?
  {
    if n == 0 then [] else NeedsOf(audit, n - 1) + VerdictOn(audit, n - 1).needs
  }

  /** The environment of one fetch: what the auditor was shown counts as already grounded. */
  function FetchEnv(env: Env, audit: Audit): Env
    requires audit.Judged?
  {
    env.(already := audit.grounded, maxFiles := MAX_FETCH_FILES)
  }

  /** The deferral of this audit cannot be resolved: no fetcher, no hop left, or nothing came back. */
  predicate Unresolved(audit: Audit, n: nat, fetcher: Option<Env>, hop: nat)
    requires audit.Judged?
  {
    || fetcher.None?
    || hop >= MAX_HOPS
    || WalkAll(FetchEnv(fetcher.value, audit), Taken([], 0), NeedsOf(audit, n), true).out == []
  }

  /** A finding lost, with the audit that lost it: the findings given at that hop and the place of this one. */
  datatype Loss = Loss(finding: Finding, hop: nat, given: seq<Finding>, index: nat)

  /** A finding is lost by a drop verdict, a score below the floor, or an unresolved deferral, and by nothing else. */
  predicate Justified(l: Loss, auditor: Auditor, minConfidence: int, fetcher: Option<Env>) {
    var audit := auditor(l.hop, l.given);
    && l.index < |l.given| && l.given[l.index] == l.finding
    && audit.Judged?
    && var v := VerdictOn(audit, l.index);
       if v.needs != [] then Unresolved(audit, |l.given|, fetcher, l.hop)
       else !v.keep || BelowFloor(v, minConfidence)
  }

  /** One audit that took place: the hop and the findings given to the auditor. */
  datatype Round = Round(hop: nat, given: seq<Finding>)

  /** The round kept this finding: its audit failed, or its verdict on it was to keep it with a high enough score. */
  ghost predicate KeptBy(k: Finding, r: Round, auditor: Auditor, minConfidence: int) {
    var audit := auditor(r.hop, r.given);
    if audit.Failed? then k in r.given
    else exists i :: 0 <= i < |r.given| && StampedFrom(k, r.given[i], VerdictOn(audit, i), minConfidence)
  }

  /** Everything kept was kept, and everything lost was lost, by a round that took place. */
  ghost predicate Accounted(kept: seq<Finding>, lost: seq<Loss>, rounds: seq<Round>, auditor: Auditor,
                            minConfidence: int, fetcher: Option<Env>) {
    && (forall k :: k in kept ==> exists r :: r in rounds && KeptBy(k, r, auditor, minConfidence))
    && (forall l :: l in lost ==> Round(l.hop, l.given) in rounds && Justified(l, auditor, minConfidence, fetcher))
  }

  // ---------------------------------------------------------------------
  // What an audit comes to, verdict by verdict
  // ---------------------------------------------------------------------

  /** The auditor asks for code before it decides on finding `i`. */
  predicate Defers(verdicts: map<int, Verdict>, i: nat) { i in verdicts && verdicts[i].needs != [] }

  /** Finding `i` stays: the auditor did not mention it, or keeps it with no score, no floor or a score that reaches the floor. */
  predicate Stays(verdicts: map<int, Verdict>, i: nat, minConfidence: int) {
    i !in verdicts
    || (verdicts[i].needs == [] && verdicts[i].keep
        && (minConfidence <= 0 || verdicts[i].confidence.None? || verdicts[i].confidence.value >= minConfidence))
  }

  /** The finding as the auditor leaves it. */
  function Marked(f: Finding, verdicts: map<int, Verdict>, i: nat): Finding {
    if i in verdicts then f.(broad := verdicts[i].broad, confidence := verdicts[i].confidence) else f.(broad := false, confidence := None)
  }

  /** `kept` are the findings that stay, in order; `from` are their places. */
  ghost predicate Staying(findings: seq<Finding>, n: nat, verdicts: map<int, Verdict>, minConfidence: int, kept: seq<Finding>, from: seq<nat>) {
    && n <= |findings| && |from| == |kept|
    && (forall k, l :: 0 <= k < l < |from| ==> from[k] < from[l])
    && (forall k :: 0 <= k < |from| ==> from[k] < n && kept[k] == Marked(findings[from[k]], verdicts, from[k]))
    && (forall i :: i in from <==> 0 <= i < n && Stays(verdicts, i, minConfidence))
  }

  /** `deferred` are the findings that are deferred, in order, and `needs` is all they ask for; `from` are their places. */
  ghost predicate Deferring(findings: seq<Finding>, n: nat, verdicts: map<int, Verdict>, deferred: seq<Finding>, needs: seq<string>, from: seq<nat>) {
    && n <= |findings| && |from| == |deferred|
    && (forall k, l :: 0 <= k < l < |from| ==> from[k] < from[l])
    && (forall k :: 0 <= k < |from| ==> from[k] < n && deferred[k] == findings[from[k]])
    && (forall i :: i in from <==> 0 <= i < n && Defers(verdicts, i))
    && needs == Flatten(seq(|from|, k requires 0 <= k < |from| => if from[k] in verdicts then verdicts[from[k]].needs else []))
  }

  lemma StayingNext(findings: seq<Finding>, n: nat, verdicts: map<int, Verdict>, minConfidence: int, kept: seq<Finding>, from: seq<nat>)
    requires Staying(findings, n, verdicts, minConfidence, kept, from) && n < |findings|
    ensures if Stays(verdicts, n, minConfidence) then Staying(findings, n + 1, verdicts, minConfidence, kept + [Marked(findings[n], verdicts, n)], from + [n])
            else Staying(findings, n + 1, verdicts, minConfidence, kept, from)
  {
  }

  lemma DeferringNext(findings: seq<Finding>, n: nat, verdicts: map<int, Verdict>, deferred: seq<Finding>, needs: seq<string>, from: seq<nat>)
    requires Deferring(findings, n, verdicts, deferred, needs, from) && n < |findings|
    ensures if Defers(verdicts, n) then Deferring(findings, n + 1, verdicts, deferred + [findings[n]], needs + verdicts[n].needs, from + [n])
            else Deferring(findings, n + 1, verdicts, deferred, needs, from)
  {
    if Defers(verdicts, n) {
      var parts := seq(|from|, k requires 0 <= k < |from| => if from[k] in verdicts then verdicts[from[k]].needs else []);
      FlattenSnoc(parts, verdicts[n].needs);
      var from' := from + [n];
      assert seq(|from'|, k requires 0 <= k < |from'| => if from'[k] in verdicts then verdicts[from'[k]].needs else [])
          == parts + [verdicts[n].needs];
    }
  }

  /** The files fetched for the needs of an audit, up to five, none that it was shown already. */
  ghost function Fetched(env: Env, grounded: set<string>, needs: seq<string>): seq<Entry> {
    WalkAll(env.(already := grounded, maxFiles := 5), Taken([], 0), needs, true).out
  }

  /**
    What a review of the findings keeps, in order: all of them if the audit fails;
    else those that stay, and then what is kept of the deferred ones when they are
    judged again, if something could be fetched for them and there is a hop left.
   */
  ghost predicate Keeps(findings: seq<Finding>, minConfidence: int, auditor: Auditor, fetcher: Option<Env>, hop: nat, kept: seq<Finding>)
    decreases 2 - hop
  {
    if findings == [] then kept == []
    else match auditor(hop, findings)
      case Failed => kept == findings
      case Judged(verdicts, grounded) =>
        exists stays, from, deferred, needs, from' ::
          && Staying(findings, |findings|, verdicts, minConfidence, stays, from)
          && Deferring(findings, |findings|, verdicts, deferred, needs, from')
          && if fetcher.Some? && hop < 2 && deferred != [] && Fetched(fetcher.value, grounded, needs) != []
             then exists rest :: kept == stays + rest && Keeps(deferred, minConfidence, auditor, fetcher, hop + 1, rest)
             else kept == stays
  }

  lemma KeepsRest(findings: seq<Finding>, minConfidence: int, auditor: Auditor, fetcher: Option<Env>, hop: nat,
                  stays: seq<Finding>, from: seq<nat>, deferred: seq<Finding>, needs: seq<string>, from': seq<nat>, rest: seq<Finding>)
    requires findings != [] && auditor(hop, findings).Judged?
    requires var verdicts := auditor(hop, findings).verdicts;
             Staying(findings, |findings|, verdicts, minConfidence, stays, from) && Deferring(findings, |findings|, verdicts, deferred, needs, from')
    requires if fetcher.Some? && hop < 2 && deferred != [] && Fetched(fetcher.value, auditor(hop, findings).grounded, needs) != []
             then Keeps(deferred, minConfidence, auditor, fetcher, hop + 1, rest) else rest == []
    ensures Keeps(findings, minConfidence, auditor, fetcher, hop, stays + rest)
  {
    hide Staying, Deferring, Fetched;
    assert rest == [] ==> stays + rest == stays;
  }

  /** A finding up to the two fields the audit stamps. */
  function Erase(f: Finding): Finding { f.(broad := false, confidence := None) }

  function Bag(fs: seq<Finding>): multiset<Finding> {
    if fs == [] then multiset{} else multiset{Erase(fs[0])} + Bag(fs[1..])
  }

  function LostBag(ls: seq<Loss>): multiset<Finding> {
    if ls == [] then multiset{} else multiset{Erase(ls[0].finding)} + LostBag(ls[1..])
  }

  lemma {:induction false} BagConcat(a: seq<Finding>, b: seq<Finding>)
    ensures Bag(a + b) == Bag(a) + Bag(b)
  {
    if a == [] {
      assert a + b == b;
    } else {
      assert (a + b)[1..] == a[1..] + b;
      BagConcat(a[1..], b);
    }
  }

  lemma BagSnoc(a: seq<Finding>, f: Finding)
    ensures Bag(a + [f]) == Bag(a) + multiset{Erase(f)}
  {
    BagConcat(a, [f]);
    assert Bag([f]) == multiset{Erase(f)} + Bag([]);
  }

  lemma {:induction false} LostConcat(a: seq<Loss>, b: seq<Loss>)
    ensures LostBag(a + b) == LostBag(a) + LostBag(b)
  {
    if a == [] {
      assert a + b == b;
    } else {
      assert (a + b)[1..] == a[1..] + b;
      LostConcat(a[1..], b);
    }
  }

  lemma LostSnoc(a: seq<Loss>, l: Loss)
    ensures LostBag(a + [l]) == LostBag(a) + multiset{Erase(l.finding)}
  {
    LostConcat(a, [l]);
    assert LostBag([l]) == multiset{Erase(l.finding)} + LostBag([]);
  }

  ghost predicate AllJustified(ls: seq<Loss>, auditor: Auditor, minConfidence: int, fetcher: Option<Env>) {
    forall l :: l in ls ==> Justified(l, auditor, minConfidence, fetcher)
  }

  /** A kept finding is one of the given ones, stamped with a verdict that keeps it, or untouched after a failed audit. */
  predicate StampedFrom(k: Finding, f: Finding, v: Verdict, minConfidence: int) {
    v.keep && v.needs == [] && !BelowFloor(v, minConfidence) && k == f.(broad := v.broad, confidence := v.confidence)
  }

  /** The deferred findings as losses of this audit, should nothing resolve them. */
  function DeferredLosses(audit: Audit, given: seq<Finding>, hop: nat, n: nat): seq<Loss>
    requires audit.Judged? && n <= |given|
  {
    if n == 0 then []
    else DeferredLosses(audit, given, hop, n - 1)
         + (if VerdictOn(audit, n - 1).needs != [] then [Loss(given[n - 1], hop, given, n - 1)] else [])
  }

  ghost predicate AllStamped(survivors: seq<Finding>, findings: seq<Finding>, audit: Audit, minConfidence: int)
    requires audit.Judged?
  {
    forall k :: k in survivors ==>
      exists i :: 0 <= i < |findings| && StampedFrom(k, findings[i], VerdictOn(audit, i), minConfidence)
  }

  /** Where the first `i` findings went. */
  ghost predicate Routed(findings: seq<Finding>, i: nat, hop: nat, audit: Audit,
                         survivors: seq<Finding>, deferred: seq<Finding>, needs: seq<string>, lost: seq<Loss>)
    requires audit.Judged? && i <= |findings|
  {
    && Bag(survivors) + Bag(deferred) + LostBag(lost) == Bag(findings[..i])
    && needs == NeedsOf(audit, i)
    && Bag(deferred) == LostBag(DeferredLosses(audit, findings, hop, i))
  }

  lemma {:induction false} RouteDeferred(findings: seq<Finding>, i: nat, hop: nat, audit: Audit,
                     survivors: seq<Finding>, deferred: seq<Finding>, needs: seq<string>, lost: seq<Loss>)
    requires audit.Judged? && i < |findings| && VerdictOn(audit, i).needs != []
    requires Routed(findings, i, hop, audit, survivors, deferred, needs, lost)
    ensures Routed(findings, i + 1, hop, audit, survivors, deferred + [findings[i]], needs + VerdictOn(audit, i).needs, lost)
  {
    hide Bag, LostBag;
    TakeNext(findings, i);
    BagSnoc(findings[..i], findings[i]);
    BagSnoc(deferred, findings[i]);
    LostSnoc(DeferredLosses(audit, findings, hop, i), Loss(findings[i], hop, findings, i));
  }

  lemma SkipDeferred(findings: seq<Finding>, i: nat, hop: nat, audit: Audit)
    requires audit.Judged? && i < |findings| && VerdictOn(audit, i).needs == []
    ensures DeferredLosses(audit, findings, hop, i + 1) == DeferredLosses(audit, findings, hop, i)
    ensures NeedsOf(audit, i + 1) == NeedsOf(audit, i)
  {
  }

  lemma {:induction false} RouteKept(findings: seq<Finding>, i: nat, hop: nat, audit: Audit,
                 survivors: seq<Finding>, deferred: seq<Finding>, needs: seq<string>, lost: seq<Loss>, stamped: Finding)
    requires audit.Judged? && i < |findings| && VerdictOn(audit, i).needs == []
    requires Routed(findings, i, hop, audit, survivors, deferred, needs, lost) && Erase(stamped) == Erase(findings[i])
    ensures Routed(findings, i + 1, hop, audit, survivors + [stamped], deferred, needs, lost)
  {
    hide Bag, LostBag, NeedsOf, DeferredLosses;
    TakeNext(findings, i);
    BagSnoc(findings[..i], findings[i]);
    BagSnoc(survivors, stamped);
    SkipDeferred(findings, i, hop, audit);
  }

  lemma {:induction false} RouteLost(findings: seq<Finding>, i: nat, hop: nat, audit: Audit,
                 survivors: seq<Finding>, deferred: seq<Finding>, needs: seq<string>, lost: seq<Loss>)
    requires audit.Judged? && i < |findings| && VerdictOn(audit, i).needs == []
    requires Routed(findings, i, hop, audit, survivors, deferred, needs, lost)
    ensures Routed(findings, i + 1, hop, audit, survivors, deferred, needs, lost + [Loss(findings[i], hop, findings, i)])
  {
    hide Bag, LostBag, NeedsOf, DeferredLosses;
    TakeNext(findings, i);
    BagSnoc(findings[..i], findings[i]);
    LostSnoc(lost, Loss(findings[i], hop, findings, i));
    SkipDeferred(findings, i, hop, audit);
  }

  lemma StampOne(survivors: seq<Finding>, stamped: Finding, findings: seq<Finding>, i: nat, audit: Audit, minConfidence: int)
    requires audit.Judged? && i < |findings| && AllStamped(survivors, findings, audit, minConfidence)
    requires StampedFrom(stamped, findings[i], VerdictOn(audit, i), minConfidence)
    ensures AllStamped(survivors + [stamped], findings, audit, minConfidence)
  {
    hide StampedFrom;
  }

  lemma JustifyOne(lost: seq<Loss>, l: Loss, auditor: Auditor, minConfidence: int, fetcher: Option<Env>)
    requires AllJustified(lost, auditor, minConfidence, fetcher) && Justified(l, auditor, minConfidence, fetcher)
    ensures AllJustified(lost + [l], auditor, minConfidence, fetcher)
  {
    hide Justified;
  }

  lemma NothingApplied(findings: seq<Finding>, minConfidence: int, hop: nat, audit: Audit, auditor: Auditor, fetcher: Option<Env>)
    requires audit.Judged?
    ensures Routed(findings, 0, hop, audit, [], [], [], []) && AllJustified([], auditor, minConfidence, fetcher)
    ensures AllStamped([], findings, audit, minConfidence)
    ensures Staying(findings, 0, audit.verdicts, minConfidence, [], []) && Deferring(findings, 0, audit.verdicts, [], [], [])
  {
  }

  /** One pass over the verdicts: who survives, who is deferred, what the deferred ask for, who is lost. */
  method Apply(findings: seq<Finding>, minConfidence: int, hop: nat, audit: Audit, ghost auditor: Auditor, ghost fetcher: Option<Env>)
    returns (survivors: seq<Finding>, deferred: seq<Finding>, needs: seq<string>, ghost lost: seq<Loss>,
             ghost from: seq<nat>, ghost from': seq<nat>)
    requires audit == auditor(hop, findings) && audit.Judged?
    ensures Routed(findings, |findings|, hop, audit, survivors, deferred, needs, lost)
    ensures AllJustified(lost, auditor, minConfidence, fetcher)
    ensures AllStamped(survivors, findings, audit, minConfidence)
    ensures forall l :: l in lost ==> l.hop == hop && l.given == findings
    ensures Staying(findings, |findings|, audit.verdicts, minConfidence, survivors, from)
    ensures Deferring(findings, |findings|, audit.verdicts, deferred, needs, from')
  {
    hide Routed, AllJustified, AllStamped, Staying, Deferring;
    survivors, deferred, needs, lost := [], [], [], [];
    from, from' := [], [];
    NothingApplied(findings, minConfidence, hop, audit, auditor, fetcher);
    for i := 0 to |findings|
      invariant Routed(findings, i, hop, audit, survivors, deferred, needs, lost)
      invariant AllJustified(lost, auditor, minConfidence, fetcher)
      invariant AllStamped(survivors, findings, audit, minConfidence)
      invariant forall l :: l in lost ==> l.hop == hop && l.given == findings
      invariant Staying(findings, i, audit.verdicts, minConfidence, survivors, from)
      invariant Deferring(findings, i, audit.verdicts, deferred, needs, from')
    {
      var finding := findings[i];
      var verdict := VerdictOn(audit, i);
      StayingNext(findings, i, audit.verdicts, minConfidence, survivors, from);
      DeferringNext(findings, i, audit.verdicts, deferred, needs, from');
      if verdict.needs != [] {
        RouteDeferred(findings, i, hop, audit, survivors, deferred, needs, lost);
        deferred := deferred + [finding];
        needs, from' := needs + verdict.needs, from' + [i];
      } else if verdict.keep && !BelowFloor(verdict, minConfidence) {
        var stamped := finding.(broad := verdict.broad, confidence := verdict.confidence);
        RouteKept(findings, i, hop, audit, survivors, deferred, needs, lost, stamped);
        StampOne(survivors, stamped, findings, i, audit, minConfidence);
        survivors, from := survivors + [stamped], from + [i];
      } else {
        RouteLost(findings, i, hop, audit, survivors, deferred, needs, lost);
        JustifyOne(lost, Loss(finding, hop, findings, i), auditor, minConfidence, fetcher);
        lost := lost + [Loss(finding, hop, findings, i)];
      }
    }
  }

  lemma {:induction false} DeferredAreJustified(audit: Audit, given: seq<Finding>, hop: nat, n: nat,
                                                auditor: Auditor, minConfidence: int, fetcher: Option<Env>)
    requires audit == auditor(hop, given) && audit.Judged? && n <= |given|
    requires Unresolved(audit, |given|, fetcher, hop)
    ensures Accounted([], DeferredLosses(audit, given, hop, n), [Round(hop, given)], auditor, minConfidence, fetcher)
  {
    if n > 0 {
      DeferredAreJustified(audit, given, hop, n - 1, auditor, minConfidence, fetcher);
    }
  }

  /**
    `reflect_findings`. For any auditor at all:

    - it runs at most once per hop left and once more, and accepts a bounded number of files;
    - it only filters: what is kept and what is lost make up what was given;
    - every finding kept or lost is accounted for by a round that took place;
    - a failed audit loses nothing it was given.
   */
  method ReflectFindings(findings: seq<Finding>, minConfidence: int, auditor: Auditor, fetcher: Option<Env>, hop: nat)
    returns (kept: seq<Finding>, audits: nat, files: nat, ghost lost: seq<Loss>, ghost rounds: seq<Round>)
    requires hop <= MAX_HOPS
    ensures audits == |rounds| <= MAX_HOPS + 1 - hop
    ensures files <= (MAX_HOPS - hop) * MAX_FETCH_FILES
    ensures Bag(kept) + LostBag(lost) == Bag(findings)
    ensures Accounted(kept, lost, rounds, auditor, minConfidence, fetcher)
    ensures findings != [] ==> rounds != [] && rounds[0] == Round(hop, findings)
    ensures auditor(hop, findings).Failed? ==> kept == findings && lost == []
    ensures findings == [] ==> audits == 0
    ensures Keeps(findings, minConfidence, auditor, fetcher, hop, kept)
    decreases MAX_HOPS - hop, 1
  {
    audits, files, lost, rounds := 0, 0, [], [];
    if findings == [] {
      return [], audits, files, lost, rounds;
    }
    var audit := auditor(hop, findings);
    audits := 1;
    ghost var round := Round(hop, findings);
    if audit.Failed? {
      assert forall k :: k in findings ==> KeptBy(k, round, auditor, minConfidence);
      assert round in [round];
      return findings, audits, files, lost, [round];
    }
    var survivors, deferred, needs;
    ghost var from, from';
    survivors, deferred, needs, lost, from, from' := Apply(findings, minConfidence, hop, audit, auditor, fetcher);
    RoutedTotals(findings, hop, audit, survivors, deferred, needs, lost);
    StampedIsAccounted(findings, hop, audit, survivors, lost, auditor, minConfidence, fetcher);
    var more;
    kept, more, files, lost, rounds :=
      Recheck(findings, minConfidence, auditor, fetcher, hop, audit, survivors, deferred, needs, lost, from, from');
    audits := audits + more;
  }

  /** The fetch of one hop: how many files it brought. */
  method FetchNeeds(needs: seq<string>, env: Env) returns (files: nat)
    requires env.maxFiles == MAX_FETCH_FILES
    ensures files <= MAX_FETCH_FILES && (files == 0 <==> WalkAll(env, Taken([], 0), needs, true).out == [])
  {
    hide WalkAll, Cost, TextFor, Distinct;
    var fetched, _, _ := ResolveNeeds(needs, env);
    files := |fetched|;
  }

  /** The deferred findings are judged again with what they asked for, or lost as unverifiable. */
  method Recheck(findings: seq<Finding>, minConfidence: int, auditor: Auditor, fetcher: Option<Env>, hop: nat, audit: Audit,
                 survivors: seq<Finding>, deferred: seq<Finding>, needs: seq<string>, ghost lost0: seq<Loss>,
                 ghost from: seq<nat>, ghost from': seq<nat>)
    returns (kept: seq<Finding>, audits: nat, files: nat, ghost lost: seq<Loss>, ghost rounds: seq<Round>)
    requires hop <= MAX_HOPS && audit == auditor(hop, findings) && audit.Judged?
    requires Bag(survivors) + Bag(deferred) + LostBag(lost0) == Bag(findings)
    requires Bag(deferred) == LostBag(DeferredLosses(audit, findings, hop, |findings|))
    requires deferred == [] ==> Bag(deferred) == multiset{}
    requires needs == NeedsOf(audit, |findings|)
    requires Accounted(survivors, lost0, [Round(hop, findings)], auditor, minConfidence, fetcher)
    requires findings != []
    requires Staying(findings, |findings|, audit.verdicts, minConfidence, survivors, from)
    requires Deferring(findings, |findings|, audit.verdicts, deferred, needs, from')
    ensures Keeps(findings, minConfidence, auditor, fetcher, hop, kept)
    ensures audits + 1 == |rounds| <= MAX_HOPS + 1 - hop
    ensures files <= (MAX_HOPS - hop) * MAX_FETCH_FILES
    ensures Bag(kept) + LostBag(lost) == Bag(findings)
    ensures Accounted(kept, lost, rounds, auditor, minConfidence, fetcher)
    ensures rounds[0] == Round(hop, findings)
    decreases MAX_HOPS - hop, 0
  {
    hide Bag, LostBag, NeedsOf, DeferredLosses, Accounted, WalkAll, Unresolved, Staying, Deferring, Keeps, Fetched;
    assert survivors + [] == survivors;
    audits, files := 0, 0;
    ghost var round := Round(hop, findings);
    rounds := [round];
    if deferred == [] {
      KeepsRest(findings, minConfidence, auditor, fetcher, hop, survivors, from, deferred, needs, from', []);
      return survivors, audits, files, lost0, rounds;
    }
    if fetcher.Some? && hop < MAX_HOPS {
      files := FetchNeeds(needs, FetchEnv(fetcher.value, audit));
      FetchedIs(fetcher.value, audit, needs);
      if files > 0 {
        var rest, restFiles;
        ghost var restLost, restRounds;
        rest, audits, restFiles, restLost, restRounds := ReflectFindings(deferred, minConfidence, auditor, fetcher, hop + 1);
        JoinTotals(survivors, deferred, lost0, rest, restLost, findings);
        AccountBoth(survivors, lost0, [round], rest, restLost, restRounds, auditor, minConfidence, fetcher);
        KeepsRest(findings, minConfidence, auditor, fetcher, hop, survivors, from, deferred, needs, from', rest);
        files := files + restFiles;
        return survivors + rest, audits, files, lost0 + restLost, [round] + restRounds;
      }
    }
    NothingFetched(audit, |findings|, fetcher, hop);
    KeepsRest(findings, minConfidence, auditor, fetcher, hop, survivors, from, deferred, needs, from', []);
    ghost var dropped := DeferredLosses(audit, findings, hop, |findings|);
    DeferredAreJustified(audit, findings, hop, |findings|, auditor, minConfidence, fetcher);
    JoinTotals(survivors, deferred, lost0, [], dropped, findings);
    AccountBoth(survivors, lost0, [round], [], dropped, [round], auditor, minConfidence, fetcher);
    AccountTwice(survivors, lost0 + dropped, round, auditor, minConfidence, fetcher);
    return survivors, audits, files, lost0 + dropped, rounds;
  }

  lemma FetchedIs(env: Env, audit: Audit, needs: seq<string>)
    requires audit.Judged?
    ensures Fetched(env, audit.grounded, needs) == WalkAll(FetchEnv(env, audit), Taken([], 0), needs, true).out
  {
    hide WalkAll;
  }

  lemma AccountBoth(a: seq<Finding>, la: seq<Loss>, ra: seq<Round>, b: seq<Finding>, lb: seq<Loss>, rb: seq<Round>,
                    auditor: Auditor, minConfidence: int, fetcher: Option<Env>)
    requires Accounted(a, la, ra, auditor, minConfidence, fetcher) && Accounted(b, lb, rb, auditor, minConfidence, fetcher)
    ensures Accounted(a + b, la + lb, ra + rb, auditor, minConfidence, fetcher)
  {
    hide KeptBy, Justified;
    forall k | k in a + b
      ensures exists r :: r in ra + rb && KeptBy(k, r, auditor, minConfidence)
    {
      if k in a {
        var r :| r in ra && KeptBy(k, r, auditor, minConfidence);
        assert r in ra + rb;
      } else {
        var r :| r in rb && KeptBy(k, r, auditor, minConfidence);
        assert r in ra + rb;
      }
    }
  }

  lemma AccountTwice(a: seq<Finding>, la: seq<Loss>, r: Round, auditor: Auditor, minConfidence: int, fetcher: Option<Env>)
    requires Accounted(a, la, [r] + [r], auditor, minConfidence, fetcher)
    ensures Accounted(a, la, [r], auditor, minConfidence, fetcher)
  {
    hide KeptBy, Justified;
    assert forall q :: q in [r] + [r] ==> q in [r];
  }

  lemma StampedIsAccounted(findings: seq<Finding>, hop: nat, audit: Audit, survivors: seq<Finding>, lost: seq<Loss>,
                           auditor: Auditor, minConfidence: int, fetcher: Option<Env>)
    requires audit == auditor(hop, findings) && audit.Judged?
    requires AllStamped(survivors, findings, audit, minConfidence)
    requires AllJustified(lost, auditor, minConfidence, fetcher)
    requires forall l :: l in lost ==> l.hop == hop && l.given == findings
    ensures Accounted(survivors, lost, [Round(hop, findings)], auditor, minConfidence, fetcher)
  {
    hide StampedFrom, Justified;
    var r := Round(hop, findings);
    assert r in [r];
    forall k | k in survivors
      ensures KeptBy(k, r, auditor, minConfidence)
    {
    }
  }

  lemma {:induction false} JoinTotals(survivors: seq<Finding>, deferred: seq<Finding>, lost: seq<Loss>,
                   rest: seq<Finding>, restLost: seq<Loss>, findings: seq<Finding>)
    requires Bag(survivors) + Bag(deferred) + LostBag(lost) == Bag(findings)
    requires (rest == [] && Bag(deferred) == LostBag(restLost)) || Bag(rest) + LostBag(restLost) == Bag(deferred)
    ensures Bag(survivors + rest) + LostBag(lost + restLost) == Bag(findings)
  {
    BagConcat(survivors, rest);
    LostConcat(lost, restLost);
    assert rest == [] ==> Bag(rest) == multiset{};
    hide Bag, LostBag;
  }

  lemma NothingFetched(audit: Audit, n: nat, fetcher: Option<Env>, hop: nat)
    requires audit.Judged?
    requires fetcher.None? || hop >= MAX_HOPS
             || WalkAll(FetchEnv(fetcher.value, audit), Taken([], 0), NeedsOf(audit, n), true).out == []
    ensures Unresolved(audit, n, fetcher, hop)
  {
  }

  lemma RoutedTotals(findings: seq<Finding>, hop: nat, audit: Audit,
                     survivors: seq<Finding>, deferred: seq<Finding>, needs: seq<string>, lost: seq<Loss>)
    requires audit.Judged? && Routed(findings, |findings|, hop, audit, survivors, deferred, needs, lost)
    ensures Bag(survivors) + Bag(deferred) + LostBag(lost) == Bag(findings)
    ensures needs == NeedsOf(audit, |findings|)
    ensures Bag(deferred) == LostBag(DeferredLosses(audit, findings, hop, |findings|))
    ensures deferred == [] ==> Bag(deferred) == multiset{}
  {
    assert findings[..|findings|] == findings;
  }
}
