/** The recovery ladder of one lens call, against an arbitrary provider (`engine/engine.py`). */
module Engine {
  import opened Wrappers
  import opened DiffParse
  import opened Patches
  import opened Compress
  import opened Findings
  import opened RankSort
  import opened Retrieve
  import opened SplitBatch
  import opened Ladder
  import opened Rungs

  // ---------------------------------------------------------------------
  // Reviewing the pieces of a split batch
  // ---------------------------------------------------------------------

  /** After `i` pieces: every call and finding is accounted for, every error borne out, and no error means full cover. */
  ghost predicate Pieces(lens: Lens, cap: nat, pieces: seq<seq<Unit>>, i: nat, calls: Log,
                         findings: seq<Finding>, errors: seq<Reason>)
    requires i <= |pieces|
  {
    && OfLens(calls, lens.id)
    && findings == Gathered(calls, lens, cap)
    && (errors == [] && i > 0 ==> EndsAnswered(calls))
    && (errors == [] && AllClean(Flatten(pieces)) ==> AllCovered(calls, lens.id, UnitsChanges(Flatten(pieces[..i]))))
    && (forall e :: e in errors ==> Backed(calls, e))
  }

  lemma PiecesStart(lens: Lens, cap: nat, pieces: seq<seq<Unit>>)
    ensures Pieces(lens, cap, pieces, 0, [], [], [])
  {
    hide AllClean;
    assert Flatten<Unit>([]) == [] && UnitsChanges([]) == [];
  }

  lemma PiecesCovered(lens: string, pieces: seq<seq<Unit>>, i: nat, a: Log, b: Log)
    requires i < |pieces|
    requires AllCovered(a, lens, UnitsChanges(Flatten(pieces[..i]))) && AllCovered(b, lens, UnitsChanges(pieces[i]))
    ensures AllCovered(a + b, lens, UnitsChanges(Flatten(pieces[..i + 1])))
  {
    TakeNext(pieces, i);
    FlattenSnoc(pieces[..i], pieces[i]);
    UnitsChangesConcat(Flatten(pieces[..i]), pieces[i]);
    assert [] + a + b == a + b && a + b + [] == a + b;
    CoveredPart([], a, b, lens, UnitsChanges(Flatten(pieces[..i])));
    CoveredPart(a, b, [], lens, UnitsChanges(pieces[i]));
    hide CoveredBy, Flatten, UnitsChanges;
  }

  lemma PiecesNext(lens: Lens, cap: nat, pieces: seq<seq<Unit>>, i: nat, calls: Log, findings: seq<Finding>, errors: seq<Reason>,
                   more: Log, found: seq<Finding>, error: Option<Reason>)
    requires i < |pieces| && Pieces(lens, cap, pieces, i, calls, findings, errors)
    requires Ran(lens, cap, Changes(Joined(pieces[i])), more, found, error)
    ensures Pieces(lens, cap, pieces, i + 1, calls + more, findings + found,
                   if error.Some? then errors + [error.value] else errors)
  {
    hide AllCovered, Backed, Gathered, Flatten, UnitsChanges, AllClean, Changed, Joined;
    GatheredConcat(calls, more, lens, cap);
    if error.None? && errors == [] && AllClean(Flatten(pieces)) {
      PartIsClean(pieces, i);
      JoinedChanges(INIT, pieces[i]);
      PiecesCovered(lens.id, pieces, i, calls, more);
    }
    var errors' := if error.Some? then errors + [error.value] else errors;
    forall e | e in errors'
      ensures Backed(calls + more, e)
    {
      assert [] + calls + more == calls + more && calls + more + [] == calls + more;
      if e in errors {
        BackedPart([], calls, more, e);
      } else {
        BackedPart(calls, more, [], e);
      }
    }
  }

  lemma {:induction false} PiecesEnd(lens: Lens, cap: nat, batch: seq<Unit>, pieces: seq<seq<Unit>>, calls: Log,
                  findings: seq<Finding>, errors: seq<Reason>)
    requires Pieces(lens, cap, pieces, |pieces|, calls, findings, errors)
    requires pieces != [] && (AllClean(batch) ==> CoversBatch(pieces, batch))
    ensures Ran(lens, cap, Owed(Joined(batch), batch, true), calls, findings,
                if errors == [] then None else Some(SplitReason(errors)))
  {
    hide CoveredBy, Gathered, Flatten, UnitsChanges, AllClean, Changed, Joined, Shows;
    assert pieces[..|pieces|] == pieces;
    if AllClean(batch) {
      JoinedChanges(INIT, batch);
    }
    if errors != [] {
      assert errors[|errors| - 1] in errors;
    }
  }

  lemma {:induction false} PartIsClean(pieces: seq<seq<Unit>>, i: nat)
    requires AllClean(Flatten(pieces)) && i < |pieces|
    ensures AllClean(pieces[i])
  {
    hide CleanPatch;
    var all := Flatten(pieces);
    assert all == pieces[0] + Flatten(pieces[1..]);
    if i == 0 {
      assert forall k :: 0 <= k < |pieces[0]| ==> all[k] == pieces[0][k];
    } else {
      var rest := Flatten(pieces[1..]);
      assert forall k :: 0 <= k < |rest| ==> all[|pieces[0]| + k] == rest[k];
      PartIsClean(pieces[1..], i - 1);
    }
  }

  /**
    A review in progress. The sets are what the summary discloses; `made` is
    every completion so far; `at` counts the questions the current call has asked.
   */
  class Review {
    const cfg: Config
    const count: Counter
    var splitBatches: set<nat>
    var steppedDown: set<string>
    var escalated: set<string>
    var repaired: set<string>
    var reAsked: set<string>
    var flooded: map<string, nat>
    var adapter: Adapter
    var at: nat
    ghost var made: Log
    ghost var refusals: nat  // how often a ceiling stopped a call or the adapter had no remedy to offer

    constructor (cfg: Config, count: Counter, adapter: Adapter)
      ensures this.cfg == cfg && this.count == count && made == []
      ensures Disclosures() == Disclosure({}, {}, {}, {}, {}, {}, adapter) && flooded == map[]
    {
      this.cfg, this.count, this.adapter := cfg, count, adapter;
      splitBatches, steppedDown, escalated, repaired, reAsked, flooded := {}, {}, {}, {}, {}, map[];
      at, made, refusals := 0, [], 0;
    }

    ghost function Disclosures(): Disclosure
      reads this`repaired, this`steppedDown, this`escalated, this`reAsked, this`flooded, this`splitBatches, this`adapter
    {
      Disclosure(repaired, steppedDown, escalated, reAsked, flooded.Keys, splitBatches, adapter)
    }

    // -------------------------------------------------------------------
    // The outside world: any answer at any time
    // -------------------------------------------------------------------

    /** A completion of the provider. The adapter may run it on the fallback by itself, and may learn what a model refuses. */
    method Complete(w: World, lens: Lens, prompt: Prompt, schema: bool, lowered: bool, fallback: bool)
      returns (reply: Reply, model: Model, ghost c: Completion)
      modifies this`made, this`at, this`adapter
      ensures made == old(made) + [c] && at == old(at) + 1
      ensures reply == w(old(at)).reply && model == By(c)
      ensures c == Ask(lens.id, prompt, schema, lowered, fallback, w(old(at)).second, w(old(at)).learnt, adapter, reply)
      ensures Answers(c, w(old(at))) && adapter == Learn(old(Disclosures()).adapter, c.learnt)
      ensures Disclosures() == old(Disclosures()).(adapter := adapter)
    {
      reply, model := w(at).reply, if fallback || w(at).second then Second else Primary;
      adapter := Learn(adapter, w(at).learnt);
      c := Ask(lens.id, prompt, schema, lowered, fallback, w(at).second, w(at).learnt, adapter, reply);
      at := at + 1;
      made := made + [c];
    }

    /** One reformat attempt at an unparseable reply: findings, or nothing. */
    method RepairFindings(w: World, lens: Lens, prompt: Prompt) returns (repair: Option<seq<Finding>>, ghost c: Completion)
      modifies this`made, this`at, this`adapter
      ensures made == old(made) + [c] && at == old(at) + 1
      ensures repair == w(old(at)).repair && c == Reformat(lens.id, prompt, w(old(at)).learnt, adapter, repair)
      ensures adapter == Learn(old(Disclosures()).adapter, c.learnt) && Disclosures() == old(Disclosures()).(adapter := adapter)
    {
      repair := w(at).repair;
      adapter := Learn(adapter, w(at).learnt);
      c := Reformat(lens.id, prompt, w(at).learnt, adapter, repair);
      at := at + 1;
      made := made + [c];
    }

    /** Whether a ceiling or a termination signal stops the next call. */
    method SkipReason(w: World) returns (skip: Option<Reason>)
      modifies this`refusals, this`at
      ensures skip == StopAt(w, old(at)) && at == old(at) + 1
      ensures refusals == old(refusals) + if skip.Some? then 1 else 0
      ensures skip.Some? ==> skip.value.mark == Final && IsSkip(skip.value.what)
    {
      var a := w(at);
      at := at + 1;
      if a.interrupted || a.late || a.spent {
        refusals := refusals + 1;
      }
      if a.interrupted {
        return Some(Reason(InterruptSkip, Final));
      }
      if a.late {
        return Some(Reason(DeadlineSkip, Final));
      }
      return if a.spent then Some(Reason(BudgetSkip, Final)) else None;
    }

    /** Records that another model than the one asked produced the reply: both have to be named. */
    method NoteAnsweringModel(lens: Lens, model: Model)
      modifies this`escalated
      ensures escalated == old(escalated) + if model == Second && NamesModels(cfg) then {lens.id} else {}
      ensures Disclosures() == old(Disclosures()).(escalated := escalated) && old(Disclosures()).escalated == old(escalated)
    {
      var answered := if model == Primary then cfg.model else cfg.fallbackModel;
      if answered.Some? && cfg.model.Some? && answered != cfg.model {
        escalated := escalated + {lens.id};
      }
    }

    /** An adapter's answer to a capability question: a lower effort, a second model, whether the schema was sent. */
    method AdapterSays(w: World) returns (yes: bool)
      modifies this`refusals, this`at
      ensures yes == w(old(at)).yes && at == old(at) + 1
      ensures refusals == old(refusals) + if yes then 0 else 1
    {
      yes := w(at).yes;
      at := at + 1;
      refusals := refusals + if yes then 0 else 1;
    }

    // -------------------------------------------------------------------
    // Rungs
    // -------------------------------------------------------------------

    method StampAndBound(findings: seq<Finding>, lens: Lens) returns (r: seq<Finding>)
      modifies this`flooded
      ensures r == Counted(findings, lens, cfg) && |r| <= |findings|
      ensures flooded == if |r| == |findings| then old(flooded)
                         else old(flooded)[lens.id := (if lens.id in old(flooded) then old(flooded)[lens.id] else 0) + |findings| - |r|]
      ensures flooded.Keys == old(flooded).Keys + if 0 < cfg.maxFindingsPerLens < |findings| then {lens.id} else {}
      ensures Disclosures() == old(Disclosures()).(flooded := flooded.Keys) && old(Disclosures()).flooded == old(flooded).Keys
    {
      var stamped := StampAll(findings, lens);
      var cap := cfg.maxFindingsPerLens;
      if cap == 0 || |stamped| <= cap {
        return stamped;
      }
      SortedLength(stamped);
      r := Items(SortByRank(BySeverity(stamped)))[..cap];
      var dropped := |stamped| - |r|;
      flooded := flooded[lens.id := (if lens.id in flooded then flooded[lens.id] else 0) + dropped];
    }

    /** Re-runs the call once at a lower reasoning effort, or hands the reason back without a call. */
    method RetryLowerEffort(w: World, lens: Lens, prompt: Prompt, schema: bool, reason: Reason)
      returns (findings: seq<Finding>, error: Option<Reason>, ghost calls: Log)
      requires schema ==> cfg.structuredOutput
      modifies this
      ensures made == old(made) + calls
      ensures Run(findings, error, at, |calls|) == SteppedDown(cfg, count, w, old(at), lens, schema, reason)
      ensures splitBatches == old(splitBatches)
      ensures calls == [] ==> findings == [] && error == Some(reason)
      ensures calls != [] ==> Ran(lens, cfg.maxFindingsPerLens, Changes(prompt.diff), calls, findings, error)
                              && IsAsk(calls[0], lens.id, prompt, schema, true, false)
      ensures |calls| <= Bound(false, schema, true, true, false, 0)
      ensures refusals >= old(refusals) && (refusals == old(refusals) ==> calls != [])
      ensures error.Some? ==> NoneAnswered(calls)
      ensures Honest(old(Disclosures()), Disclosures(), calls, cfg, false, !schema)
      decreases 0, if schema then 1 else 0, 1, 0
    {
      hide Ran, Honest, NoneAnswered, Completed, Bound;
      calls := [];
      HonestNone(Disclosures(), cfg, false, !schema);
      NothingAnswered();
      var skip := SkipReason(w);
      if skip.Some? {
        return [], Some(reason), calls;
      }
      var lower := AdapterSays(w);
      if !lower {
        return [], Some(reason), calls;
      }
      ghost var p;
      findings, error, calls, p := CompleteLens(w, lens, prompt, [], 0, false, false, schema, true, true, false);
      RanAlone(lens, cfg.maxFindingsPerLens, prompt.diff, calls, findings, error);
      CourseAlone(calls, error, schema, true, true, false, p);
      HonestSteppedDown(old(Disclosures()), Disclosures(), calls, cfg, !schema, lens.id, error);
      if error.None? {
        steppedDown := steppedDown + {lens.id};
      }
    }

    /** Re-runs the call once on the fallback model, or hands the reason back without a call. */
    method EscalateModel(w: World, lens: Lens, prompt: Prompt, schema: bool, reason: Reason)
      returns (findings: seq<Finding>, error: Option<Reason>, ghost calls: Log)
      requires schema ==> cfg.structuredOutput
      modifies this
      ensures made == old(made) + calls
      ensures Run(findings, error, at, |calls|) == OnSecond(cfg, count, w, old(at), lens, schema, reason)
      ensures splitBatches == old(splitBatches)
      ensures calls == [] ==> findings == [] && error == Some(reason)
      ensures calls != [] ==> Ran(lens, cfg.maxFindingsPerLens, Changes(prompt.diff), calls, findings, error)
                              && IsAsk(calls[0], lens.id, prompt, schema, false, true) && By(calls[0]) == Second
      ensures |calls| <= 1
      ensures refusals >= old(refusals) && (refusals == old(refusals) ==> calls != [])
      ensures calls != [] && CameBack(calls[0].reply) && NamesModels(cfg) ==> lens.id in escalated
      ensures Honest(old(Disclosures()), Disclosures(), calls, cfg, false, !schema)
      decreases 0, 1, 1, 5
    {
      hide Ran, Honest, NoneAnswered, Completed, Bound, CameBack, NamesModels;
      calls := [];
      HonestNone(Disclosures(), cfg, false, !schema);
      var skip := SkipReason(w);
      if skip.Some? {
        return [], Some(reason), calls;
      }
      var target := AdapterSays(w);
      if !target {
        return [], Some(reason), calls;
      }
      ghost var p;
      findings, error, calls, p := CompleteLens(w, lens, prompt, [], 0, false, false, schema, false, false, true);
      RanAlone(lens, cfg.maxFindingsPerLens, prompt.diff, calls, findings, error);
      CourseAlone(calls, error, schema, false, false, true, p);
      SecondIsListed(calls[0], old(Disclosures()), Disclosures(), calls, !schema);
    }

    /** The answer of a named fallback is on the list. */
    lemma SecondIsListed(c: Completion, d: Disclosure, d': Disclosure, calls: Log, bare: bool)
      requires Honest(d, d', calls, cfg, false, bare) && calls != [] && calls[0] == c && c.Ask? && By(c) == Second
      ensures CameBack(c.reply) && NamesModels(cfg) ==> c.lens in d'.escalated
    {
      hide Caused, Sticky;
      assert IsDisclosed(calls[0], d', cfg, false, bare);
    }

    /** Re-runs the call once with the provider's schema enforcement off; if that works the adapter leaves the schema out from then on. */
    method RetryWithoutSchema(w: World, lens: Lens, prompt: Prompt, reason: Reason)
      returns (findings: seq<Finding>, error: Option<Reason>, ghost calls: Log)
      requires cfg.structuredOutput
      modifies this
      ensures made == old(made) + calls
      ensures Run(findings, error, at, |calls|) == Bare(cfg, count, w, old(at), lens, reason)
      ensures splitBatches == old(splitBatches)
      ensures calls == [] ==> findings == [] && error == Some(reason)
      ensures calls != [] ==> Ran(lens, cfg.maxFindingsPerLens, Changes(prompt.diff), calls, findings, error)
                              && IsAsk(calls[0], lens.id, prompt, false, false, false)
      ensures |calls| <= Bound(false, false, false, false, false, 0)
      ensures refusals >= old(refusals) && (refusals == old(refusals) ==> calls != [])
      ensures error.Some? ==> NoneAnswered(calls)
      ensures error.None? ==> Primary in adapter.off
      ensures Honest(old(Disclosures()), Disclosures(), calls, cfg, false, false)
      decreases 0, 0, 1, 5
    {
      hide Ran, Honest, NoneAnswered, Completed, Bound;
      calls := [];
      HonestNone(Disclosures(), cfg, false, false);
      NothingAnswered();
      var skip := SkipReason(w);
      if skip.Some? {
        return [], Some(reason), calls;
      }
      ghost var p;
      findings, error, calls, p := CompleteLens(w, lens, prompt, [], 0, false, false, false, false, false, false);
      RanAlone(lens, cfg.maxFindingsPerLens, prompt.diff, calls, findings, error);
      CourseAlone(calls, error, false, false, false, false, p);
      HonestReAsked(old(Disclosures()), Disclosures(), calls, cfg, lens.id, error);
      if error.None? {
        reAsked := reAsked + {lens.id};
        adapter := Learn(adapter, Adapter({Primary}, {}));
      }
    }

    /** Re-runs the lens once with the code it asked to read; the first answer stands whatever comes of it. */
    method ReviewWithContext(w: World, lens: Lens, prompt: Prompt, batch: seq<Unit>, needs: seq<string>, first: seq<Finding>)
      returns (findings: seq<Finding>, error: Option<Reason>, ghost calls: Log)
      modifies this
      ensures made == old(made) + calls
      ensures Run(findings, error, at, |calls|) == WithContext(cfg, count, w, old(at), lens, batch, needs, first)
      ensures splitBatches == old(splitBatches)
      ensures findings == first + Gathered(calls, lens, cfg.maxFindingsPerLens)
      ensures OfLens(calls, lens.id) && |calls| <= 6
      ensures error.Some? ==> Backed(calls, error.value)
      ensures error.None? && calls != [] ==> EndsAnswered(calls)
      ensures calls != [] ==> cfg.fetcher.Some? && IsAsk(calls[0], lens.id, Prompt(prompt.diff, Shown(cfg.fetcher.value, batch, needs)),
                                                         cfg.structuredOutput, false, false)
      ensures refusals >= old(refusals) && (refusals == old(refusals) ==> (calls != [] <==> Resolves(cfg, batch, needs)))
      ensures Honest(old(Disclosures()), Disclosures(), calls, cfg, false, false)
      decreases 0, 1, 1, 5
    {
      hide AllCovered, WalkAll, Cost, TextFor, Honest, NoneAnswered, Completed, Bound, Gathered;
      calls := [];
      HonestNone(Disclosures(), cfg, false, false);
      NothingGathered(lens, cfg.maxFindingsPerLens);
      assert first + [] == first;
      var skip := SkipReason(w);
      if skip.Some? {
        return first, skip, calls;
      }
      if cfg.fetcher.None? {
        return first, None, calls;
      }
      var fetched, _, _ := ResolveNeeds(needs, DeferralEnv(cfg.fetcher.value, batch));
      if fetched == [] {
        return first, None, calls;
      }
      var retry;
      ghost var p;
      retry, error, calls, p := CompleteLens(w, lens, Prompt(prompt.diff, fetched), [], 0, false, false, cfg.structuredOutput, false, true, false);
      CourseAlone(calls, error, cfg.structuredOutput, false, true, false, p);
      HonestUnstructured(old(Disclosures()), Disclosures(), calls, cfg, false);
      findings := first + retry;
    }

    lemma NothingGathered(lens: Lens, cap: nat)
      ensures Gathered([], lens, cap) == []
    {
    }

    lemma NothingAnswered()
      ensures NoneAnswered([])
    {
    }

    lemma RanAlone(lens: Lens, cap: nat, payload: seq<Line>, calls: Log, findings: seq<Finding>, error: Option<Reason>)
      requires Ran(lens, cap, Owed(payload, [], false), calls, findings, error)
      ensures OfLens(calls, lens.id) && Ran(lens, cap, Changes(payload), calls, findings, error)
    {
    }

    lemma CourseAlone(calls: Log, error: Option<Reason>, schema: bool, lowered: bool, recover: bool, fallback: bool, p: nat)
      requires Course(calls, error, false, false, schema, lowered, recover, fallback, p)
      ensures |calls| <= Bound(false, schema, lowered, recover, fallback, 0)
      ensures Bound(false, schema, lowered, recover, fallback, 0) <= 6
      ensures error.Some? ==> NoneAnswered(calls)
    {
      hide NoneAnswered, Settles, Exhausted, PayloadSized, Outcome;
    }

    /** Reviews an oversized batch as smaller pieces, one call each; any failed piece is a failure. */
    method ReviewSplit(w: World, lens: Lens, batch: seq<Unit>, batchNum: nat, reason: Reason, sliceHunks: bool)
      returns (findings: seq<Finding>, error: Option<Reason>, ghost calls: Log, ghost p: nat, ghost failed: nat)
      modifies this
      ensures made == old(made) + calls
      ensures Run(findings, error, at, |calls|) == InPieces(cfg, count, w, old(at), lens, batch, reason, sliceHunks)
      ensures p == if |PiecesOf(batch, sliceHunks, count)| < 2 then 0 else |PiecesOf(batch, sliceHunks, count)|
      ensures p == 0 ==> calls == [] && findings == [] && error == Some(reason)
      ensures p > 0 ==> Ran(lens, cfg.maxFindingsPerLens, Owed(Joined(batch), batch, true), calls, findings, error)
      ensures failed <= p && (p > 0 ==> (error.None? <==> failed == 0))
      ensures splitBatches == old(splitBatches) + if failed < p then {batchNum} else {}
      ensures error.Some? && p > 0 ==> error.value.mark != Payload
      ensures |calls| <= 6 * p && p <= Width(batch) && (|batch| > 1 ==> p == 2)
      ensures refusals >= old(refusals) && (refusals == old(refusals) ==> |calls| >= p)
      ensures Disclosures().split == splitBatches && old(Disclosures()).split == old(splitBatches)
      ensures Honest(old(Disclosures()), Disclosures().(split := old(splitBatches)), calls, cfg, false, false)
      decreases 0, 1, 1, 7
    {
      hide *;
      InPiecesIs(w, old(at), lens, batch, reason, sliceHunks);
      DisclosuresAre();
      p, calls, failed := 0, [], 0;
      HonestNone(Disclosures(), cfg, false, false);
      var pieces := SplitBatch.SplitBatch(batch, sliceHunks, count);
      if |pieces| < 2 {
        return [], Some(reason), calls, p, failed;
      }
      p := |pieces|;
      findings := [];
      var errors: seq<Reason> := [];
      SplitStarts(w, lens, pieces, Disclosures());
      ghost var d0, at0 := Disclosures(), at;
      for i := 0 to |pieces|
        invariant splitBatches == old(splitBatches) && made == old(made) + calls
        invariant SplitSoFar(w, lens, pieces, i, at0, at, calls, findings, errors, d0, Disclosures())
        invariant refusals >= old(refusals) && (refusals == old(refusals) ==> |calls| >= i)
      {
        ghost var d, at1 := Disclosures(), at;
        ghost var more, q;
        var found, pieceError;
        found, pieceError, more, q := ReviewLens(w, lens, Joined(pieces[i]), None, batchNum);
        SplitNext(w, lens, pieces, i, at0, at1, calls, findings, errors, d0, d, more, found, pieceError, at, Disclosures(), q);
        findings, calls := findings + found, calls + more;
        if pieceError.Some? {
          errors := errors + [pieceError.value];
        }
      }
      SplitIs(w, lens, pieces, at0, at, calls, findings, errors, d0, Disclosures());
      DisclosuresAre();
      ghost var d := Disclosures();
      if |errors| < |pieces| {
        splitBatches := splitBatches + {batchNum};
      }
      DisclosuresAre();
      assert Disclosures().(split := old(splitBatches)) == d;
      PiecesEnd(lens, cfg.maxFindingsPerLens, batch, pieces, calls, findings, errors);
      failed := |errors|;
      if errors == [] {
        return findings, None, calls, p, failed;
      }
      SplitReasonIs(errors);
      return findings, Some(SplitReason(errors)), calls, p, failed;
    }

    /** Everything known after `i` pieces of a split. */
    ghost predicate SplitSoFar(w: World, lens: Lens, pieces: seq<seq<Unit>>, i: nat, at0: nat, at: nat, calls: Log,
                               findings: seq<Finding>, errors: seq<Reason>, d0: Disclosure, d: Disclosure)
      requires i <= |pieces|
    {
      && Tally(findings, errors, at, |calls|) == PiecesDone(cfg, count, w, at0, lens, i)
      && Pieces(lens, cfg.maxFindingsPerLens, pieces, i, calls, findings, errors)
      && |calls| <= 6 * i && |errors| <= i
      && Honest(d0, d, calls, cfg, false, false)
    }

    lemma SplitNext(w: World, lens: Lens, pieces: seq<seq<Unit>>, i: nat, at0: nat, at: nat, calls: Log,
                    findings: seq<Finding>, errors: seq<Reason>, d0: Disclosure, d: Disclosure,
                    more: Log, found: seq<Finding>, error: Option<Reason>, at': nat, d': Disclosure, q: nat)
      requires i < |pieces| && SplitSoFar(w, lens, pieces, i, at0, at, calls, findings, errors, d0, d)
      requires Run(found, error, at', |more|) == Reviewed(cfg, count, w, at, lens, None)
      requires Ran(lens, cfg.maxFindingsPerLens, Owed(Joined(pieces[i]), [], false), more, found, error)
      requires |more| <= Bound(false, true, false, true, false, q) && Honest(d, d', more, cfg, false, false)
      ensures SplitSoFar(w, lens, pieces, i + 1, at0, at', calls + more, findings + found,
                         if error.Some? then errors + [error.value] else errors, d0, d')
    {
      hide Ran, Pieces, Owed, Joined, Honest, Reviewed, PiecesDone;
      OwedAlone(Joined(pieces[i]));
      PiecesDoneNext(w, at0, lens, i);
      HonestThen(d0, d, d', calls, more, cfg, false, false, false, false);
      PiecesNext(lens, cfg.maxFindingsPerLens, pieces, i, calls, findings, errors, more, found, error);
    }

    lemma SplitIs(w: World, lens: Lens, pieces: seq<seq<Unit>>, at0: nat, at: nat, calls: Log,
                  findings: seq<Finding>, errors: seq<Reason>, d0: Disclosure, d: Disclosure)
      requires SplitSoFar(w, lens, pieces, |pieces|, at0, at, calls, findings, errors, d0, d)
      ensures Tally(findings, errors, at, |calls|) == PiecesDone(cfg, count, w, at0, lens, |pieces|)
      ensures Pieces(lens, cfg.maxFindingsPerLens, pieces, |pieces|, calls, findings, errors)
      ensures |calls| <= 6 * |pieces| && |errors| <= |pieces|
      ensures Honest(d0, d, calls, cfg, false, false)
    {
      hide Pieces, Honest, PiecesDone;
    }

    lemma InPiecesIs(w: World, at: nat, lens: Lens, batch: seq<Unit>, reason: Reason, slice: bool)
      ensures var p := |PiecesOf(batch, slice, count)|;
              InPieces(cfg, count, w, at, lens, batch, reason, slice)
              == if p < 2 then Run([], Some(reason), at, 0)
                 else
                   var t := PiecesDone(cfg, count, w, at, lens, p);
                   Run(t.findings, if t.errors == [] then None else Some(SplitReason(t.errors)), t.at, t.asks)
    {
      hide PiecesOf, PiecesDone;
    }

    lemma SplitReasonIs(errors: seq<Reason>)
      requires errors != []
      ensures SplitReason(errors).mark != Payload
    {
    }

    lemma SplitStarts(w: World, lens: Lens, pieces: seq<seq<Unit>>, d: Disclosure)
      ensures SplitSoFar(w, lens, pieces, 0, at, at, [], [], [], d, d)
    {
      PiecesStart(lens, cfg.maxFindingsPerLens, pieces);
      HonestNone(d, cfg, false, false);
    }

    lemma PiecesDoneNext(w: World, at: nat, lens: Lens, i: nat)
      ensures var t := PiecesDone(cfg, count, w, at, lens, i);
              var r := Reviewed(cfg, count, w, t.at, lens, None);
              PiecesDone(cfg, count, w, at, lens, i + 1)
              == Tally(t.findings + r.findings, if r.error.Some? then t.errors + [r.error.value] else t.errors, r.at, t.asks + r.asks)
    {
      hide Reviewed;
    }

    lemma OwedAlone(payload: seq<Line>)
      ensures Owed(payload, [], false) == Changes(payload)
    {
    }

    /** One lens call: the ceilings are checked, then the call is made with the remedies it may use. */
    method ReviewLens(w: World, lens: Lens, payload: seq<Line>, batch: Option<seq<Unit>>, batchNum: nat)
      returns (findings: seq<Finding>, error: Option<Reason>, ghost calls: Log, ghost p: nat)
      requires batch.Some? ==> payload == Joined(batch.value)
      modifies this
      ensures made == old(made) + calls
      ensures Run(findings, error, at, |calls|) == Reviewed(cfg, count, w, old(at), lens, batch)
      ensures Ran(lens, cfg.maxFindingsPerLens, Owed(payload, if batch.Some? then batch.value else [], batch.Some?),
                  calls, findings, error)
      ensures Delivered(lens, cfg.maxFindingsPerLens, calls, findings)
      ensures |calls| <= Bound(batch.Some?, true, false, true, false, p)
      ensures calls != [] ==> IsAsk(calls[0], lens.id, Prompt(payload, []), cfg.structuredOutput, false, false)
                              && Answers(calls[0], w(old(at) + 1))
      ensures refusals >= old(refusals)
      ensures refusals == old(refusals) ==>
                && calls != []
                && Persisted(calls, error, batch.Some?, cfg.structuredOutput && cfg.retryWithoutSchema, false, true, false)
                && (batch.Some? && Defers(cfg, batch.value, calls[0].reply) ==> |calls| > 1)
      ensures batch.Some? ==> p <= Width(batch.value)
      ensures batch.None? ==> splitBatches == old(splitBatches)
      ensures Honest(old(Disclosures()), Disclosures(), calls, cfg, false, false)
      decreases if batch.Some? then 1 else 0, 1, 1, 6
    {
      hide Honest, Completed;
      HonestNone(Disclosures(), cfg, false, false);
      var skip := SkipReason(w);
      if skip.Some? {
        return [], skip, [], 0;
      }
      hide Delivered;
      var units := if batch.Some? then batch.value else [];
      findings, error, calls, p := CompleteLens(w, lens, Prompt(payload, []), units, batchNum, batch.Some?, batch.Some? && cfg.fetcher.Some?,
                                                cfg.structuredOutput, false, true, false);
      HonestUnstructured(old(Disclosures()), Disclosures(), calls, cfg, false);
    }

    /** The provider call, its parse, and whichever remedy its failure asks for. */
    method CompleteLens(w: World, lens: Lens, prompt: Prompt, batch: seq<Unit>, batchNum: nat, onOversized: bool, onNeeds: bool,
                        schema: bool, lowered: bool, recover: bool, fallback: bool)
      returns (findings: seq<Finding>, error: Option<Reason>, ghost calls: Log, ghost p: nat)
      requires schema ==> cfg.structuredOutput
      requires onOversized ==> prompt.diff == Joined(batch) && !lowered && recover
      requires onNeeds ==> onOversized
      requires fallback ==> !onOversized && !lowered && !recover
      modifies this
      ensures made == old(made) + calls
      ensures Run(findings, error, at, |calls|)
           == Completed(cfg, count, w, old(at), lens, batch, onOversized, onNeeds, schema, lowered, recover, fallback)
      ensures calls != [] && IsAsk(calls[0], lens.id, prompt, schema, lowered, fallback) && Answers(calls[0], w(old(at)))
      ensures Ran(lens, cfg.maxFindingsPerLens, Owed(prompt.diff, batch, onOversized), calls, findings, error)
      ensures Delivered(lens, cfg.maxFindingsPerLens, calls, findings)
      ensures Course(calls, error, onOversized, onNeeds, schema, lowered, recover, fallback, p)
      ensures p <= Width(batch)
      ensures onOversized && PayloadSized(calls[0].reply) && !Exhausted(calls[0].reply) && |batch| > 1 ==> p == 2
      ensures refusals >= old(refusals)
      ensures refusals == old(refusals) ==>
                Persisted(calls, error, onOversized, schema && cfg.retryWithoutSchema, lowered, recover, fallback)
      ensures refusals == old(refusals) && onNeeds && Defers(cfg, batch, calls[0].reply) ==> |calls| > 1
      ensures !onOversized ==> splitBatches == old(splitBatches)
      ensures Honest(old(Disclosures()), Disclosures(), calls, cfg, lowered, !schema)
      decreases if onOversized then 1 else 0, if schema then 1 else 0, if lowered then 0 else 1, 4
    {
      hide *;
      ghost var d := Disclosures();
      var reply, model;
      ghost var first, more;
      reply, model, first := Complete(w, lens, prompt, schema, lowered, fallback);
      AskIs(first, lens.id, prompt, schema, lowered, fallback);
      findings, error, more, p := Follow(w, lens, prompt, batch, batchNum, onOversized, onNeeds, schema, lowered, recover, fallback,
                                         reply, model, d, first);
      CompletedIs(w, old(at), lens, batch, onOversized, onNeeds, schema, lowered, recover, fallback);
      calls := [first] + more;
      RanDelivers(lens, cfg.maxFindingsPerLens, Owed(prompt.diff, batch, onOversized), calls, findings, error);
    }

    /** Whatever the reply asks for: a remedy for its size, a reading, or nothing. */
    method Follow(w: World, lens: Lens, prompt: Prompt, batch: seq<Unit>, batchNum: nat, onOversized: bool, onNeeds: bool,
                  schema: bool, lowered: bool, recover: bool, fallback: bool, reply: Reply, model: Model,
                  ghost d0: Disclosure, ghost first: Completion)
      returns (findings: seq<Finding>, error: Option<Reason>, ghost more: Log, ghost p: nat)
      requires schema ==> cfg.structuredOutput
      requires onOversized ==> prompt.diff == Joined(batch) && !lowered && recover
      requires onNeeds ==> onOversized
      requires fallback ==> !onOversized && !lowered && !recover
      requires IsAsk(first, lens.id, prompt, schema, lowered, fallback) && first.reply == reply && By(first) == model
      requires first.adapter == Learn(d0.adapter, first.learnt) && Disclosures() == d0.(adapter := first.adapter)
      modifies this
      ensures made == old(made) + more
      ensures Run(findings, error, at, |more|)
           == Followed(w, old(at), lens, batch, onOversized, onNeeds, schema, lowered, recover, fallback, reply)
      ensures Ran(lens, cfg.maxFindingsPerLens, Owed(prompt.diff, batch, onOversized), [first] + more, findings, error)
      ensures Course([first] + more, error, onOversized, onNeeds, schema, lowered, recover, fallback, p)
      ensures p <= Width(batch)
      ensures onOversized && PayloadSized(reply) && !Exhausted(reply) && |batch| > 1 ==> p == 2
      ensures refusals >= old(refusals)
      ensures refusals == old(refusals) ==>
                Persisted([first] + more, error, onOversized, schema && cfg.retryWithoutSchema, lowered, recover, fallback)
      ensures refusals == old(refusals) && onNeeds && Defers(cfg, batch, reply) ==> more != []
      ensures !onOversized ==> splitBatches == old(splitBatches)
      ensures Honest(d0, Disclosures(), [first] + more, cfg, lowered, !schema)
      decreases if onOversized then 1 else 0, if schema then 1 else 0, if lowered then 0 else 1, 3
    {
      hide *;
      ghost var cap := cfg.maxFindingsPerLens;
      AskWas(first, lens.id, prompt, schema, lowered, fallback);
      RanFirst(lens, cap, prompt.diff, first);
      FirstReply(first);
      DefersIs(batch, reply);
      more, p := [], 0;
      if PayloadSized(reply) {
        findings, error, more, p := Shrink(w, lens, prompt, batch, batchNum, onOversized, schema, lowered, fallback, reply, d0, first);
        CourseShrunk(first, more, error, onOversized, onNeeds, schema, lowered, recover, fallback, p);
        FollowedSized(w, old(at), lens, batch, onOversized, onNeeds, schema, lowered, recover, fallback, reply);
      } else {
        if reply.OtherFailure? {
          findings, error := [], Some(FailureReason(reply));
          NothingAnswered();
          NoFlood(first);
          HonestOne(d0, Disclosures(), first, cfg, lowered, !schema);
          assert [first] + more == [first];
        } else {
          findings, error, more := ReadReply(w, lens, prompt, batch, reply, model, onNeeds, schema, recover, d0, first);
        }
        RanOwed(lens, cap, prompt.diff, batch, onOversized, [first] + more, findings, error);
        CourseRead(first, more, error, onOversized, onNeeds, schema, lowered, recover, fallback);
        FollowedRead(w, old(at), lens, batch, onOversized, onNeeds, schema, lowered, recover, fallback, reply);
      }
      if refusals == old(refusals) {
        PersistedFrom(first, more, error, onOversized, schema && cfg.retryWithoutSchema, lowered, recover, fallback);
      }
    }

    /** What follows a reply, in the terms of the ladder as a function. */
    ghost function Followed(w: World, at: nat, lens: Lens, batch: seq<Unit>, whole: bool, defers: bool,
                            schema: bool, lowered: bool, recover: bool, fallback: bool, reply: Reply): Run
      requires (whole ==> !lowered) && (defers ==> whole)
    {
      if PayloadSized(reply) then Shrunk(cfg, count, w, at, lens, batch, whole, schema, lowered, fallback, reply)
      else if reply.OtherFailure? then Run([], Some(FailureReason(reply)), at, 0)
      else Understood(cfg, count, w, at, lens, batch, defers, schema, recover, reply)
    }

    lemma FollowedSized(w: World, at: nat, lens: Lens, batch: seq<Unit>, whole: bool, defers: bool,
                        schema: bool, lowered: bool, recover: bool, fallback: bool, reply: Reply)
      requires (whole ==> !lowered) && (defers ==> whole) && PayloadSized(reply)
      ensures Followed(w, at, lens, batch, whole, defers, schema, lowered, recover, fallback, reply)
           == Shrunk(cfg, count, w, at, lens, batch, whole, schema, lowered, fallback, reply)
    {
      hide Shrunk;
    }

    lemma FollowedRead(w: World, at: nat, lens: Lens, batch: seq<Unit>, whole: bool, defers: bool,
                       schema: bool, lowered: bool, recover: bool, fallback: bool, reply: Reply)
      requires (whole ==> !lowered) && (defers ==> whole) && !PayloadSized(reply)
      ensures Followed(w, at, lens, batch, whole, defers, schema, lowered, recover, fallback, reply)
           == if reply.OtherFailure? then Run([], Some(FailureReason(reply)), at, 0)
              else Understood(cfg, count, w, at, lens, batch, defers, schema, recover, reply)
    {
      hide Understood;
    }

    lemma CompletedIs(w: World, at: nat, lens: Lens, batch: seq<Unit>, whole: bool, defers: bool,
                      schema: bool, lowered: bool, recover: bool, fallback: bool)
      requires (whole ==> !lowered) && (defers ==> whole)
      ensures var r := Followed(w, at + 1, lens, batch, whole, defers, schema, lowered, recover, fallback, w(at).reply);
              Completed(cfg, count, w, at, lens, batch, whole, defers, schema, lowered, recover, fallback) == r.(asks := r.asks + 1)
    {
      hide Shrunk, Understood;
    }

    lemma AskWas(c: Completion, lens: string, prompt: Prompt, schema: bool, lowered: bool, fallback: bool)
      requires IsAsk(c, lens, prompt, schema, lowered, fallback)
      ensures c.Ask? && c.lens == lens && c.prompt == prompt && c.schema == schema && c.lowered == lowered && c.fallback == fallback
    {
    }

    lemma AskIs(c: Completion, lens: string, prompt: Prompt, schema: bool, lowered: bool, fallback: bool)
      requires c.Ask? && c == Ask(lens, prompt, schema, lowered, fallback, c.switched, c.learnt, c.adapter, c.reply)
      ensures IsAsk(c, lens, prompt, schema, lowered, fallback)
    {
    }

    lemma NoFlood(c: Completion)
      ensures Offered(c) == [] ==> !Floods(c, cfg)
    {
    }

    lemma DefersIs(batch: seq<Unit>, r: Reply)
      ensures Defers(cfg, batch, r) <==> r.Parsed? && r.needs != [] && Resolves(cfg, batch, r.needs)
      ensures r.Parsed? ==> !PayloadSized(r)
    {
    }

    /** What kind of reply it is decides what can follow it. */
    lemma FirstReply(first: Completion)
      requires first.Ask?
      ensures PayloadSized(first.reply) ==> !OtherModel(first, cfg) && !first.reply.Unparseable? && Offered(first) == Salvage(first.reply)
      ensures !PayloadSized(first.reply) ==> !Exhausted(first.reply) && Offered(first) == ReplyFindings(first.reply)
      ensures first.reply.OtherFailure? ==> !PayloadSized(first.reply) && !OtherModel(first, cfg) && Offered(first) == []
                                            && Outcome(first.reply) == Some(FailureReason(first.reply))
      ensures first.reply.Unparseable? ==> Offered(first) == []
      ensures !PayloadSized(first.reply) && !first.reply.OtherFailure? ==>
                CameBack(first.reply) && (first.reply.Parsed? || first.reply.BodyCut? || first.reply.Unparseable?)
      ensures CameBack(first.reply) ==> !PayloadSized(first.reply)
      ensures CameBack(first.reply) ==> (OtherModel(first, cfg) <==> By(first) == Second && NamesModels(cfg))
      ensures Floods(first, cfg) <==> 0 < cfg.maxFindingsPerLens < |Offered(first)|
    {
    }

    /** A reply that came back: parsed, cut off in its body, or unparseable. A lens that asked for code gets one more go with it. */
    method ReadReply(w: World, lens: Lens, prompt: Prompt, batch: seq<Unit>, reply: Reply, model: Model, onNeeds: bool, schema: bool, recover: bool,
                     ghost d0: Disclosure, ghost first: Completion)
      returns (findings: seq<Finding>, error: Option<Reason>, ghost calls: Log)
      requires schema ==> cfg.structuredOutput
      requires CameBack(reply) && first.Ask? && first.reply == reply && By(first) == model && first.lens == lens.id
      requires first.schema == schema && first.adapter == Learn(d0.adapter, first.learnt) && Disclosures() == d0.(adapter := first.adapter)
      requires Ran(lens, cfg.maxFindingsPerLens, Changes(prompt.diff), [first],
                   Bounded(StampAll(ReplyFindings(reply), lens), cfg.maxFindingsPerLens), Outcome(reply))
      modifies this
      ensures made == old(made) + calls
      ensures Run(findings, error, at, |calls|) == Understood(cfg, count, w, old(at), lens, batch, onNeeds, schema, recover, reply)
      ensures Ran(lens, cfg.maxFindingsPerLens, Changes(prompt.diff), [first] + calls, findings, error)
      ensures |calls| <= if reply.Unparseable? then if !recover then 0 else if schema then 4 else 1
                         else if reply.Parsed? && onNeeds then 6 else 0
      ensures Settles(reply, false, onNeeds, false, recover, false) ==> calls == [] && error == Outcome(reply)
      ensures refusals >= old(refusals) && splitBatches == old(splitBatches)
      ensures refusals == old(refusals) && reply.Unparseable? && recover && schema && cfg.retryWithoutSchema && error.Some? ==>
                exists i :: 0 <= i < |calls| && IsSchemaless(calls[i])
      ensures refusals == old(refusals) && reply.Parsed? && onNeeds && reply.needs != [] && Resolves(cfg, batch, reply.needs) ==> calls != []
      ensures !onNeeds && error.Some? ==> !reply.Parsed? && NoneAnswered(calls)
      ensures Honest(d0, Disclosures(), [first] + calls, cfg, first.lowered, !schema)
      decreases if onNeeds then 1 else 0, if schema then 1 else 0, 0, 1
    {
      hide *;
      FirstReply(first);
      UnderstoodIs(w, old(at), lens, batch, onNeeds, schema, recover, reply);
      ReadSettles(reply, onNeeds, recover);
      NoteAnsweringModel(lens, model);
      NothingAnswered();
      ghost var d;
      if reply.Unparseable? {
        d := Disclosures();
        HonestOne(d0, d, first, cfg, first.lowered, !schema);
        UnparseableIs(lens, reply, first);
        findings, error, calls := Recover(w, lens, prompt, schema, recover, reply.reformattable, [first]);
        HonestThen(d0, d, Disclosures(), [first], calls, cfg, first.lowered, !schema, false, false);
        return;
      }
      findings := StampAndBound(ReplyFindings(reply), lens);
      CountedIs(ReplyFindings(reply), lens);
      d := Disclosures();
      HonestOne(d0, d, first, cfg, first.lowered, !schema);
      error, calls := Outcome(reply), [];
      assert [first] + calls == [first];
      if reply.Parsed? && onNeeds && reply.needs != [] {
        ghost var own := findings;
        findings, error, calls := ReviewWithContext(w, lens, prompt, batch, reply.needs, findings);
        RanDeferred(lens, cfg.maxFindingsPerLens, Changes(prompt.diff), [first], own, calls, error);
        HonestThen(d0, d, Disclosures(), [first], calls, cfg, first.lowered, !schema, false, false);
      }
    }

    lemma UnderstoodIs(w: World, at: nat, lens: Lens, batch: seq<Unit>, defers: bool, schema: bool, recover: bool, reply: Reply)
      requires CameBack(reply)
      ensures Understood(cfg, count, w, at, lens, batch, defers, schema, recover, reply)
           == if reply.Unparseable? then Recovered(cfg, count, w, at, lens, schema, recover, reply.reformattable)
              else
                var own := Counted(ReplyFindings(reply), lens, cfg);
                if reply.Parsed? && defers && reply.needs != [] then WithContext(cfg, count, w, at, lens, batch, reply.needs, own)
                else Run(own, Outcome(reply), at, 0)
    {
      hide Recovered, WithContext, Counted;
    }

    lemma ReadSettles(reply: Reply, defers: bool, recover: bool)
      requires CameBack(reply)
      ensures reply.Parsed? || reply.Unparseable? || reply.BodyCut?
      ensures Settles(reply, false, defers, false, recover, false) <==>
                reply.BodyCut? || (reply.Unparseable? && !recover) || (reply.Parsed? && (!defers || reply.needs == []))
      ensures Outcome(reply).None? <==> reply.Parsed?
    {
    }

    lemma UnparseableIs(lens: Lens, reply: Reply, first: Completion)
      requires reply.Unparseable?
      ensures Bounded(StampAll(ReplyFindings(reply), lens), cfg.maxFindingsPerLens) == [] && Outcome(reply) == Some(NOT_PARSED)
    {
    }

    /** What a payload-sized reply allows, and how many calls its remedies may take. */
    lemma SizedReply(reply: Reply, whole: bool, lowered: bool, fallback: bool, schema: bool, p: nat)
      requires PayloadSized(reply)
      ensures Outcome(reply).Some?
      ensures Settles(reply, whole, false, lowered, true, fallback) <==> if Exhausted(reply) then lowered || fallback else !whole
      ensures Bound(false, schema, true, true, false, 0) == if schema then 5 else 2
      ensures Bound(true, schema, lowered, true, false, p) == if 6 * p + 2 > 7 then 6 * p + 2 else 7
    {
    }

    /** After a payload-sized failure: a lower effort if the ceiling went on thought, else smaller pieces; last, a second model. */
    method Shrink(w: World, lens: Lens, prompt: Prompt, batch: seq<Unit>, batchNum: nat, onOversized: bool,
                  schema: bool, lowered: bool, fallback: bool, reply: Reply, ghost d0: Disclosure, ghost first: Completion)
      returns (findings: seq<Finding>, error: Option<Reason>, ghost calls: Log, ghost p: nat)
      requires schema ==> cfg.structuredOutput
      requires onOversized ==> prompt.diff == Joined(batch) && !lowered
      requires fallback ==> !onOversized && !lowered
      requires PayloadSized(reply) && IsAsk(first, lens.id, prompt, schema, lowered, fallback) && first.reply == reply
      requires first.adapter == Learn(d0.adapter, first.learnt) && Disclosures() == d0.(adapter := first.adapter)
      requires Ran(lens, cfg.maxFindingsPerLens, Changes(prompt.diff), [first],
                   Bounded(StampAll(Salvage(reply), lens), cfg.maxFindingsPerLens), Outcome(reply))
      modifies this
      ensures made == old(made) + calls
      ensures Run(findings, error, at, |calls|)
           == Shrunk(cfg, count, w, old(at), lens, batch, onOversized, schema, lowered, fallback, reply)
      ensures Ran(lens, cfg.maxFindingsPerLens, Owed(prompt.diff, batch, onOversized), [first] + calls, findings, error)
      ensures Settles(reply, onOversized, false, lowered, true, fallback) ==> calls == [] && error == Outcome(reply)
      ensures |calls| <= if lowered || fallback then 0
                         else if !onOversized then Bound(false, schema, true, true, false, 0)
                         else Bound(true, schema, lowered, true, fallback, p) - 1
      ensures p > 0 ==> onOversized && !Exhausted(reply) && p <= Width(batch)
      ensures onOversized && !Exhausted(reply) && |batch| > 1 ==> p == 2
      ensures refusals >= old(refusals)
      ensures refusals == old(refusals) && Exhausted(reply) && !lowered && !fallback ==>
                calls != [] && calls[0].Ask? && calls[0].lowered
      ensures refusals == old(refusals) && onOversized && error.Some? ==> calls != [] && IsFallback(calls[|calls| - 1])
      ensures !onOversized ==> splitBatches == old(splitBatches)
      ensures !onOversized && error.Some? ==> NoneAnswered(calls)
      ensures Honest(d0, Disclosures(), [first] + calls, cfg, lowered, !schema)
      decreases if onOversized then 1 else 0, if schema then 1 else 0, if lowered then 0 else 1, 2
    {
      hide *;
      SizedReply(reply, onOversized, lowered, fallback, schema, 0);
      FirstSized(first, lens.id, prompt, schema, lowered, fallback);
      ghost var cap, cs := cfg.maxFindingsPerLens, Owed(prompt.diff, batch, onOversized);
      var completed := StampAndBound(Salvage(reply), lens);
      CountedIs(Salvage(reply), lens);
      ghost var d := Disclosures();
      HonestOne(d0, d, first, cfg, lowered, !schema);
      findings, error, calls, p := completed, Outcome(reply), [], 0;
      NothingAnswered();
      assert [first] + calls == [first];
      RanOwed(lens, cap, prompt.diff, batch, onOversized, [first], completed, error);
      if (Exhausted(reply) && (lowered || fallback)) || (!Exhausted(reply) && !onOversized) {
        ShrunkNot(w, old(at), lens, batch, onOversized, schema, lowered, fallback, reply);
        return;
      }
      ghost var more, ran;
      var retried;
      retried, error, more, p, ran := FirstRung(w, lens, prompt, batch, batchNum, onOversized, schema, reply, d0, first);
      RanAfter(lens, cap, cs, [first], completed, Outcome(reply).value, more, retried, ran, error);
      SizedReply(reply, onOversized, lowered, fallback, schema, p);
      findings, calls := completed + retried, more;
      ghost var r := Run(retried, error, at, |more|);
      if error.None? || !onOversized {
        ShrunkOnce(w, old(at), lens, batch, onOversized, schema, lowered, fallback, reply, r);
        return;
      }
      d := Disclosures();
      var escalated, last;
      escalated, last, more := EscalateModel(w, lens, prompt, schema, error.value);
      FirstAskIs(more, lens.id, prompt, schema, false, true);
      HonestThen(d0, d, Disclosures(), [first] + calls, more, cfg, lowered, !schema, false, !schema);
      if more != [] {
        RanOwed(lens, cap, prompt.diff, batch, onOversized, more, escalated, last);
      }
      RanAfter(lens, cap, cs, [first] + calls, findings, error.value, more, escalated, more != [], last);
      Assoc([first], calls, more);
      ShrunkTwice(w, old(at), lens, batch, schema, lowered, fallback, reply, r, Run(escalated, last, at, |more|));
      return findings + escalated, last, calls + more, p;
    }

    /** The first remedy: a lower effort for a ceiling spent on thought, smaller pieces for anything else. */
    method FirstRung(w: World, lens: Lens, prompt: Prompt, batch: seq<Unit>, batchNum: nat, onOversized: bool, schema: bool, reply: Reply,
                     ghost d0: Disclosure, ghost first: Completion)
      returns (findings: seq<Finding>, error: Option<Reason>, ghost calls: Log, ghost p: nat, ghost ran: bool)
      requires schema ==> cfg.structuredOutput
      requires onOversized ==> prompt.diff == Joined(batch)
      requires PayloadSized(reply) && (Exhausted(reply) || onOversized)
      requires first.Ask? && first.reply == reply
      requires Honest(d0, Disclosures(), [first], cfg, first.lowered, !schema)
      modifies this
      ensures made == old(made) + calls
      ensures Run(findings, error, at, |calls|) == FirstRemedy(w, old(at), lens, batch, schema, reply)
      ensures ran ==> Ran(lens, cfg.maxFindingsPerLens, Owed(prompt.diff, batch, onOversized), calls, findings, error)
      ensures !ran ==> calls == [] && findings == [] && error == Outcome(reply)
      ensures p > 0 ==> ran && !Exhausted(reply) && p <= Width(batch)
      ensures |calls| <= if Exhausted(reply) then Bound(false, schema, true, true, false, 0) else 6 * p
      ensures !Exhausted(reply) && |batch| > 1 ==> p == 2
      ensures refusals >= old(refusals)
      ensures refusals == old(refusals) && Exhausted(reply) ==> calls != [] && calls[0].Ask? && calls[0].lowered
      ensures Exhausted(reply) ==> splitBatches == old(splitBatches)
      ensures Exhausted(reply) && error.Some? ==> NoneAnswered(calls)
      ensures Honest(d0, Disclosures(), [first] + calls, cfg, first.lowered, !schema)
      decreases if onOversized then 1 else 0, if schema then 1 else 0, 1, 1
    {
      hide *;
      SizedReply(reply, onOversized, false, false, schema, 0);
      RemedyIs(w, old(at), lens, batch, schema, reply);
      ghost var d := Disclosures();
      p := 0;
      if Exhausted(reply) {
        findings, error, calls := RetryLowerEffort(w, lens, prompt, schema, Outcome(reply).value);
        FirstAskIs(calls, lens.id, prompt, schema, true, false);
        ran := calls != [];
        if ran {
          RanOwed(lens, cfg.maxFindingsPerLens, prompt.diff, batch, onOversized, calls, findings, error);
        }
        HonestThen(d0, d, Disclosures(), [first], calls, cfg, first.lowered, !schema, false, !schema);
      } else {
        ghost var failed;
        findings, error, calls, p, failed := ReviewSplit(w, lens, batch, batchNum, Outcome(reply).value, reply.PromptTooLarge?);
        ran := p > 0;
        ghost var d' := Disclosures().(split := d.split);
        HonestThen(d0, d, d', [first], calls, cfg, first.lowered, !schema, false, false);
        OversizesFirst(first, calls);
        HonestSplit(d0, d', [first] + calls, cfg, first.lowered, !schema, splitBatches);
        assert d'.(split := splitBatches) == Disclosures();
      }
    }

    lemma FirstAskIs(calls: Log, lens: string, prompt: Prompt, schema: bool, lowered: bool, fallback: bool)
      requires calls != [] ==> IsAsk(calls[0], lens, prompt, schema, lowered, fallback)
      ensures calls != [] ==> calls[0].Ask? && calls[0].lowered == lowered && (IsFallback(calls[0]) <==> fallback)
    {
    }

    lemma OversizesFirst(first: Completion, more: Log)
      requires first.Ask? && PayloadSized(first.reply)
      ensures Oversizes([first] + more)
    {
      assert ([first] + more)[0] == first;
    }

    lemma CountedIs(findings: seq<Finding>, lens: Lens)
      ensures Counted(findings, lens, cfg) == Bounded(StampAll(findings, lens), cfg.maxFindingsPerLens)
    {
    }

    lemma FirstSized(first: Completion, lens: string, prompt: Prompt, schema: bool, lowered: bool, fallback: bool)
      requires IsAsk(first, lens, prompt, schema, lowered, fallback) && PayloadSized(first.reply)
      ensures first.Ask? && first.lens == lens && first.lowered == lowered && first.schema == schema
      ensures !OtherModel(first, cfg) && (Floods(first, cfg) <==> 0 < cfg.maxFindingsPerLens < |Salvage(first.reply)|)
    {
    }

    /** The remedies, in the terms of the ladder as a function: none, the first alone, or the first and then the second model. */
    ghost function FirstRemedy(w: World, at: nat, lens: Lens, batch: seq<Unit>, schema: bool, reply: Reply): Run
      requires PayloadSized(reply)
    {
      if Exhausted(reply) then SteppedDown(cfg, count, w, at, lens, schema, Outcome(reply).value)
      else InPieces(cfg, count, w, at, lens, batch, Outcome(reply).value, reply.PromptTooLarge?)
    }

    lemma RemedyIs(w: World, at: nat, lens: Lens, batch: seq<Unit>, schema: bool, reply: Reply)
      requires PayloadSized(reply)
      ensures FirstRemedy(w, at, lens, batch, schema, reply)
           == if Exhausted(reply) then SteppedDown(cfg, count, w, at, lens, schema, Outcome(reply).value)
              else InPieces(cfg, count, w, at, lens, batch, Outcome(reply).value, reply.PromptTooLarge?)
    {
    }

    lemma ShrunkNot(w: World, at: nat, lens: Lens, batch: seq<Unit>, whole: bool, schema: bool, lowered: bool, fallback: bool, reply: Reply)
      requires PayloadSized(reply) && (whole ==> !lowered) && (if Exhausted(reply) then lowered || fallback else !whole)
      ensures Shrunk(cfg, count, w, at, lens, batch, whole, schema, lowered, fallback, reply)
           == Run(Counted(Salvage(reply), lens, cfg), Outcome(reply), at, 0)
    {
      hide Counted;
    }

    lemma ShrunkOnce(w: World, at: nat, lens: Lens, batch: seq<Unit>, whole: bool, schema: bool, lowered: bool, fallback: bool, reply: Reply, r: Run)
      requires PayloadSized(reply) && (whole ==> !lowered) && !(if Exhausted(reply) then lowered || fallback else !whole)
      requires r == FirstRemedy(w, at, lens, batch, schema, reply) && (r.error.None? || !whole)
      ensures Shrunk(cfg, count, w, at, lens, batch, whole, schema, lowered, fallback, reply)
           == r.(findings := Counted(Salvage(reply), lens, cfg) + r.findings)
    {
      hide Counted, SteppedDown, InPieces;
    }

    lemma ShrunkTwice(w: World, at: nat, lens: Lens, batch: seq<Unit>, schema: bool, lowered: bool, fallback: bool, reply: Reply, r: Run, e: Run)
      requires PayloadSized(reply) && !lowered && !(Exhausted(reply) && fallback)
      requires r == FirstRemedy(w, at, lens, batch, schema, reply) && r.error.Some?
      requires e == OnSecond(cfg, count, w, r.at, lens, schema, r.error.value)
      ensures Shrunk(cfg, count, w, at, lens, batch, true, schema, lowered, fallback, reply)
           == Run(Counted(Salvage(reply), lens, cfg) + r.findings + e.findings, e.error, e.at, r.asks + e.asks)
    {
      hide Counted, SteppedDown, InPieces, OnSecond;
    }

    /** After a reply that is not findings: one reformat of it, then one re-ask without the schema. */
    method Recover(w: World, lens: Lens, prompt: Prompt, schema: bool, recover: bool, reformattable: bool, ghost asked: Log)
      returns (findings: seq<Finding>, error: Option<Reason>, ghost calls: Log)
      requires schema ==> cfg.structuredOutput
      requires Ran(lens, cfg.maxFindingsPerLens, Changes(prompt.diff), asked, [], Some(NOT_PARSED))
      modifies this
      ensures made == old(made) + calls
      ensures Run(findings, error, at, |calls|) == Recovered(cfg, count, w, old(at), lens, schema, recover, reformattable)
      ensures Ran(lens, cfg.maxFindingsPerLens, Changes(prompt.diff), asked + calls, findings, error)
      ensures error.Some? ==> error == Some(NOT_PARSED)
      ensures calls == [] ==> findings == [] && error.Some?
      ensures |calls| <= if !recover then 0 else if schema then 4 else 1
      ensures refusals >= old(refusals)
      ensures refusals == old(refusals) && recover && schema && cfg.retryWithoutSchema && error.Some? ==>
                exists i :: 0 <= i < |calls| && IsSchemaless(calls[i])
      ensures error.Some? ==> NoneAnswered(calls)
      ensures Honest(old(Disclosures()), Disclosures(), calls, cfg, false, false)
      ensures !cfg.repairUnparseable && !cfg.retryWithoutSchema ==> calls == []
      ensures splitBatches == old(splitBatches)
      decreases 0, if schema then 1 else 0, 0, 0
    {
      hide *;
      RecoveredIs(w, old(at), lens, schema, recover, reformattable);
      ghost var cap, cs := cfg.maxFindingsPerLens, Changes(prompt.diff);
      findings, error, calls := [], Some(NOT_PARSED), [];
      HonestNone(Disclosures(), cfg, false, false);
      NothingAnswered();
      assert asked + calls == asked;
      if !recover {
        return;
      }
      var skip := SkipReason(w);
      if skip.Some? {
        return;
      }
      if cfg.repairUnparseable && reformattable {
        ghost var c;
        var reformatted;
        findings, reformatted, c := RepairReply(w, lens, prompt, asked);
        calls := [c];
        ReformatUnanswered(c);
        if reformatted {
          return findings, None, calls;
        }
      }
      if schema && cfg.retryWithoutSchema {
        var sent := AdapterSays(w);
        if !sent {
          return;
        }
        var retryError;
        ghost var d, more := Disclosures(), [];
        findings, retryError, more := RetryWithoutSchema(w, lens, prompt, NOT_PARSED);
        HonestThen(old(Disclosures()), d, Disclosures(), calls, more, cfg, false, false, false, false);
        if retryError.Some? {
          NoneBoth(calls, more);
        }
        RanKeeping(lens, cap, cs, asked + calls, [], NOT_PARSED, more, findings, more != [], retryError);
        Assoc(asked, calls, more);
        assert [] + findings == findings;
        BareIsLast(calls, more, lens.id, prompt);
        return findings, if retryError.None? then None else Some(NOT_PARSED), calls + more;
      }
    }

    /** One reformat of the reply; its findings are stamped and bounded like any others. */
    method RepairReply(w: World, lens: Lens, prompt: Prompt, ghost asked: Log)
      returns (findings: seq<Finding>, reformatted: bool, ghost c: Completion)
      requires Ran(lens, cfg.maxFindingsPerLens, Changes(prompt.diff), asked, [], Some(NOT_PARSED))
      modifies this
      ensures made == old(made) + [c] && at == old(at) + 1 && refusals == old(refusals) && splitBatches == old(splitBatches)
      ensures c.Reformat? && c.repair == w(old(at)).repair && reformatted == c.repair.Some?
      ensures findings == if reformatted then Counted(c.repair.value, lens, cfg) else []
      ensures Ran(lens, cfg.maxFindingsPerLens, Changes(prompt.diff), asked + [c], findings, if reformatted then None else Some(NOT_PARSED))
      ensures Honest(old(Disclosures()), Disclosures(), [c], cfg, false, false)
    {
      hide *;
      DisclosuresAre();
      ghost var d := Disclosures();
      var repair;
      repair, c := RepairFindings(w, lens, prompt);
      RanReformat(lens, cfg.maxFindingsPerLens, asked, [], NOT_PARSED, c);
      ReformatUnanswered(c);
      findings, reformatted := [], repair.Some?;
      if repair.Some? {
        repaired := repaired + {lens.id};
        DisclosuresAre();
        findings := StampAndBound(repair.value, lens);
        CountedIs(repair.value, lens);
        assert [] + findings == findings;
      }
      HonestOne(d, Disclosures(), c, cfg, false, false);
    }

    lemma DisclosuresAre()
      ensures Disclosures() == Disclosure(repaired, steppedDown, escalated, reAsked, flooded.Keys, splitBatches, adapter)
    {
    }

    lemma BareIsLast(calls: Log, more: Log, lens: string, prompt: Prompt)
      requires more != [] ==> IsAsk(more[0], lens, prompt, false, false, false)
      ensures more != [] ==> exists i :: 0 <= i < |calls + more| && IsSchemaless((calls + more)[i])
      ensures Bound(false, false, false, false, false, 0) == 3
    {
      assert more != [] ==> IsSchemaless((calls + more)[|calls|]);
    }

    lemma RecoveredIs(w: World, at: nat, lens: Lens, schema: bool, recover: bool, reformattable: bool)
      ensures var tries: nat := if cfg.repairUnparseable && reformattable then 1 else 0;
              Recovered(cfg, count, w, at, lens, schema, recover, reformattable)
              == if !recover then Run([], Some(NOT_PARSED), at, 0)
                 else if StopAt(w, at).Some? then Run([], Some(NOT_PARSED), at + 1, 0)
                 else if tries == 1 && w(at + 1).repair.Some? then Run(Counted(w(at + 1).repair.value, lens, cfg), None, at + 2, 1)
                 else if !schema || !cfg.retryWithoutSchema then Run([], Some(NOT_PARSED), at + 1 + tries, tries)
                 else if !w(at + 1 + tries).yes then Run([], Some(NOT_PARSED), at + 2 + tries, tries)
                 else
                   var r := Bare(cfg, count, w, at + 2 + tries, lens, NOT_PARSED);
                   Run(r.findings, if r.error.None? then None else Some(NOT_PARSED), r.at, tries + r.asks)
    {
      hide Bare, Counted, StopAt;
    }

    lemma ReformatUnanswered(c: Completion)
      requires c.Reformat?
      ensures !OtherModel(c, cfg)
      ensures c.repair.None? ==> NoneAnswered([c]) && !Floods(c, cfg)
      ensures c.repair.Some? ==> (Floods(c, cfg) <==> 0 < cfg.maxFindingsPerLens < |c.repair.value|)
    {
    }
  }
}
