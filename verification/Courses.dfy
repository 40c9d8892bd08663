/** How a lens call goes, answer by answer: what each kind of reply comes to, and which calls get a second chance (`engine/engine.py`). */
module Courses {
  import opened Wrappers
  import opened Patches
  import opened Findings
  import opened Compress
  import opened Retrieve
  import opened SplitBatch
  import opened Ladder
  import opened Rungs
  import opened FanOut

  /** A ceiling forbids the next call. */
  predicate Stopped(a: Answer) { a.interrupted || a.late || a.spent }

  /** The error says that the call was not made, which nothing makes worth repeating. */
  predicate Skipped(error: Option<Reason>) {
    error in {Some(Reason(InterruptSkip, Final)), Some(Reason(DeadlineSkip, Final)), Some(Reason(BudgetSkip, Final))}
  }

  lemma PieceSkipped(cfg: Config, count: Counter, w: World, at: nat, lens: Lens)
    requires Reviewed(cfg, count, w, at, lens, None).asks == 0
    ensures Skipped(Reviewed(cfg, count, w, at, lens, None).error) && Reviewed(cfg, count, w, at, lens, None).error.Some?
  {
    hide Shrunk, Understood;
  }

  /** A split that made no completion skipped every piece. */
  lemma {:induction false} PiecesSkipped(cfg: Config, count: Counter, w: World, at: nat, lens: Lens, p: nat)
    requires PiecesDone(cfg, count, w, at, lens, p).asks == 0
    ensures var errors := PiecesDone(cfg, count, w, at, lens, p).errors;
            |errors| == p && forall e :: e in errors ==> Skipped(Some(e))
  {
    if p == 0 {
      NoPieces(cfg, count, w, at, lens);
    } else {
      var t := PiecesDone(cfg, count, w, at, lens, p - 1);
      OnePieceMore(cfg, count, w, at, lens, p);
      hide PiecesDone, Reviewed, Skipped;
      PiecesSkipped(cfg, count, w, at, lens, p - 1);
      PieceSkipped(cfg, count, w, t.at, lens);
    }
  }

  /** What a call comes to when one completion was all there was of it. */
  predicate EndsAs(r: Reply, units: seq<Unit>, count: Counter, error: Option<Reason>) {
    match r
    case Parsed(_, _) => error == None || Skipped(error)
    case Unparseable(_) => error == Some(Reason(NotParsed, Final))
    case BodyCut(_) => error == Some(Reason(CutOff, Final))
    case OtherFailure(u) => error == Some(Reason(ProviderFailure, if u then Final else Retryable))
    case WallTimeout(u) =>
      if |PiecesOf(units, false, count)| < 2 then error == Some(Reason(ProviderFailure, if u then Final else Payload)) else Skipped(error)
    case PromptTooLarge =>
      if |PiecesOf(units, true, count)| < 2 then error == Some(Reason(ProviderFailure, Final)) else Skipped(error)
    case CeilingCut(_, thought, ceiling) =>
      if thought.Some? && ceiling.Some? && thought.value > 0 && ceiling.value > 0 && 10 * thought.value >= 9 * ceiling.value then
        error == Some(Reason(ThoughtExhausted, Final))
      else if |PiecesOf(units, false, count)| < 2 then error == Some(Reason(ProviderFailure, Final)) else Skipped(error)
  }

  lemma OneCompletion(cfg: Config, count: Counter, w: World, lens: Lens, units: seq<Unit>)
    requires Reviewed(cfg, count, w, 0, lens, Some(units)).asks == 1
    ensures EndsAs(w(1).reply, units, count, Reviewed(cfg, count, w, 0, lens, Some(units)).error)
  {
    var r := w(1).reply;
    if PayloadSized(r) {
      OneOversized(cfg, count, w, 2, lens, units, r);
    } else {
      OneRead(cfg, count, w, lens, units);
    }
  }

  lemma OneRead(cfg: Config, count: Counter, w: World, lens: Lens, units: seq<Unit>)
    requires Reviewed(cfg, count, w, 0, lens, Some(units)).asks == 1 && !PayloadSized(w(1).reply)
    ensures EndsAs(w(1).reply, units, count, Reviewed(cfg, count, w, 0, lens, Some(units)).error)
  {
    hide Shrunk, Resolves, Counted, Bare;
    var r := w(1).reply;
    BareMade(cfg, count, w, 4, lens);
    BareMade(cfg, count, w, 5, lens);
    if r.Parsed? && cfg.fetcher.Some? && r.needs != [] {
      Completes(cfg, count, w, 3, lens, cfg.structuredOutput, false, true, false);
    }
  }

  /** A call that gets as far as its completion makes one. */
  lemma Completes(cfg: Config, count: Counter, w: World, at: nat, lens: Lens, schema: bool, lowered: bool, recover: bool, fallback: bool)
    ensures Completed(cfg, count, w, at, lens, [], false, false, schema, lowered, recover, fallback).asks > 0
  {
    hide Shrunk, Understood;
  }

  lemma BareMade(cfg: Config, count: Counter, w: World, at: nat, lens: Lens)
    ensures Bare(cfg, count, w, at, lens, NOT_PARSED).asks == 0 ==> Bare(cfg, count, w, at, lens, NOT_PARSED).error == Some(NOT_PARSED)
  {
    Completes(cfg, count, w, at + 1, lens, false, false, false, false);
    hide Completed;
  }

  lemma StepMade(cfg: Config, count: Counter, w: World, at: nat, lens: Lens, schema: bool, reason: Reason)
    ensures SteppedDown(cfg, count, w, at, lens, schema, reason).asks == 0 ==> SteppedDown(cfg, count, w, at, lens, schema, reason).error == Some(reason)
    ensures OnSecond(cfg, count, w, at, lens, schema, reason).asks == 0 ==> OnSecond(cfg, count, w, at, lens, schema, reason).error == Some(reason)
  {
    Completes(cfg, count, w, at + 2, lens, schema, true, true, false);
    Completes(cfg, count, w, at + 2, lens, schema, false, false, true);
    hide Completed;
  }

  lemma SplitMade(cfg: Config, count: Counter, w: World, at: nat, lens: Lens, units: seq<Unit>, reason: Reason, slice: bool)
    requires InPieces(cfg, count, w, at, lens, units, reason, slice).asks == 0
    ensures var error := InPieces(cfg, count, w, at, lens, units, reason, slice).error;
            if |PiecesOf(units, slice, count)| < 2 then error == Some(reason) else Skipped(error)
  {
    hide PiecesOf, PiecesDone;
    var p := |PiecesOf(units, slice, count)|;
    if p >= 2 {
      PiecesSkipped(cfg, count, w, at, lens, p);
      var errors := PiecesDone(cfg, count, w, at, lens, p).errors;
      assert Skipped(Some(errors[|errors| - 1]));
      assert forall e :: e in errors ==> Skipped(Some(e));
    }
  }

  lemma OneOversized(cfg: Config, count: Counter, w: World, at: nat, lens: Lens, units: seq<Unit>, r: Reply)
    requires PayloadSized(r) && Shrunk(cfg, count, w, at, lens, units, true, cfg.structuredOutput, false, false, r).asks == 0
    ensures EndsAs(r, units, count, Shrunk(cfg, count, w, at, lens, units, true, cfg.structuredOutput, false, false, r).error)
  {
    hide PiecesOf, SteppedDown, OnSecond, InPieces, Counted;
    var reason, schema := Ladder.Outcome(r).value, cfg.structuredOutput;
    StepMade(cfg, count, w, at, lens, schema, reason);
    if !Exhausted(r) {
      var t := InPieces(cfg, count, w, at, lens, units, reason, r.PromptTooLarge?);
      SplitMade(cfg, count, w, at, lens, units, reason, r.PromptTooLarge?);
      if t.error.Some? {
        StepMade(cfg, count, w, t.at, lens, schema, t.error.value);
      }
    } else {
      var t := SteppedDown(cfg, count, w, at, lens, schema, reason);
      if t.error.Some? {
        StepMade(cfg, count, w, t.at, lens, schema, t.error.value);
      }
    }
  }

  // ---------------------------------------------------------------------
  // The second chance
  // ---------------------------------------------------------------------

  /** The reply is a provider's failure that leaves hope for the same call later. */
  predicate Passing(r: Reply) { r in {OtherFailure(false), WallTimeout(false)} }

  /**
    A call of one completion is asked again if and only if no ceiling stops that
    and the provider failed in passing, for another cause than time or on a batch
    that could not be split.
   */
  lemma AskedAgainIff(cfg: Config, count: Counter, call: PreparedCall, w: World, w': World, log: Log, first: FanOut.Outcome,
                      again: Log, merged: FanOut.Outcome)
    requires Did(cfg, count, call, w, log, first) && Retried(cfg, count, call, first, w', again, merged) && |log| == 1
    ensures again != [] <==>
              && !w'(0).interrupted && !w'(0).late && !w'(0).spent
              && Passing(log[0].reply)
              && (log[0].reply.WallTimeout? ==> |PiecesOf(call.units, false, count)| < 2)
  {
    OneCompletion(cfg, count, w, call.lens, call.units);
    AgainIff(cfg, count, call, w', first, again, merged);
    hide RanCall, CallBound, Reviewed, PiecesOf;
    assert log[0].reply == w(1).reply;
  }

  lemma AgainIff(cfg: Config, count: Counter, call: PreparedCall, w: World, first: FanOut.Outcome, again: Log, merged: FanOut.Outcome)
    requires Retried(cfg, count, call, first, w, again, merged)
    ensures again != [] <==> Rescuable(first.error) && StopAt(w, 0).None?
  {
    hide RanCall, CallBound, Gathered, Completed;
    if StopAt(w, 0).None? {
      UnstoppedAsks(cfg, count, w, call.lens, call.units);
    }
  }

  /** A call that made no completion is not asked again, nor is one in which the provider never failed in passing. */
  lemma NotAskedAgain(cfg: Config, count: Counter, call: PreparedCall, w: World, w': World, log: Log, first: FanOut.Outcome,
                      again: Log, merged: FanOut.Outcome)
    requires Did(cfg, count, call, w, log, first) && Retried(cfg, count, call, first, w', again, merged)
    requires forall i :: 0 <= i < |log| && log[i].Ask? ==> !Passing(log[i].reply)
    ensures again == [] && merged == first
  {
    hide CallBound, Gathered, Reviewed, AllCovered, OfLens, Owed;
    assert !Rescuable(first.error);
  }

  /** A call that a ceiling stops makes no completion, and says which: an interruption before the deadline before the budget. */
  lemma StoppedAtOnce(cfg: Config, count: Counter, w: World, lens: Lens, units: seq<Unit>)
    requires Stopped(w(0))
    ensures var r := Reviewed(cfg, count, w, 0, lens, Some(units));
            && r.asks == 0 && r.findings == []
            && r.error == Some(Reason(if w(0).interrupted then InterruptSkip else if w(0).late then DeadlineSkip else BudgetSkip, Final))
  {
  }

  /**
    What a deferral is shown: at most five files, within the budget, none of them
    in the batch; and every readable file it asked for that is not, unless there is no room for it.
   */
  lemma DeferralIsShown(env: Env, batch: seq<Unit>, needs: seq<string>, path: string)
    ensures var out := Shown(env, batch, needs);
            && |out| <= 5 && Cost(env, out) <= env.budget
            && (forall e :: e in out ==> (forall u :: u in batch ==> u.0 != e.path) && env.fetch(e.path).Some? && e.text == env.redact(env.fetch(e.path).value))
            && (path in needs && (forall u :: u in batch ==> u.0 != path) && env.fetch(path).Some? && env.fetch(path).value != [] ==>
                  var text := env.redact(env.fetch(path).value);
                  Entry(path, text) in out || |out| == 5 || Cost(env, out) + env.count(text) > env.budget)
  {
    var env' := DeferralEnv(env, batch);
    CostSame(env, env', Shown(env, batch, needs));
    WalkKeepsCaps(env', Taken([], 0), needs, true);
    var t := WalkAll(env', Taken([], 0), needs, true);
    if path in needs && path !in env'.already && env.fetch(path).Some? && env.fetch(path).value != [] {
      NothingHeldBack(env', Taken([], 0), needs, true, path, env.redact(env.fetch(path).value));
    }
    forall e | e in t.out
      ensures (forall u :: u in batch ==> u.0 != e.path) && env.fetch(e.path).Some? && e.text == env.redact(env.fetch(e.path).value)
    {
      var i :| 0 <= i < |t.out| && t.out[i] == e;
      assert TextFor(env', t.out[i].path) == Some(t.out[i].text);
      assert forall u :: u in batch ==> u.0 in env'.already;
    }
  }

  lemma {:induction false} CostSame(env: Env, env': Env, out: seq<Entry>)
    requires env'.count == env.count
    ensures Cost(env', out) == Cost(env, out)
  {
    if out != [] {
      CostSame(env, env', out[1..]);
    }
  }

  // ---------------------------------------------------------------------
  // The courses
  // ---------------------------------------------------------------------

  /** No ceiling stands in the way here. */
  predicate Free(w: World, at: nat) { !Stopped(w(at)) }

  /** The reply spent its output ceiling on thought. */
  predicate ThoughtItAway(r: Reply) {
    r.CeilingCut? && r.reasoning.Some? && r.ceiling.Some? && r.reasoning.value > 0 && r.ceiling.value > 0
    && 10 * r.reasoning.value >= 9 * r.ceiling.value
  }

  /** The call answered for its batch, in so many completions. */
  predicate Succeeds(r: Run, asks: nat) { r.error == None && r.asks == asks }

  /** A reply in which nothing is left to do: it parsed, and asks for nothing that could be shown. */
  lemma AnswersAtOnce(cfg: Config, count: Counter, w: World, lens: Lens, units: seq<Unit>)
    requires Free(w, 0) && w(1).reply.Parsed? && (w(1).reply.needs == [] || cfg.fetcher.None?)
    ensures Succeeds(Reviewed(cfg, count, w, 0, lens, Some(units)), 1)
  {
  }

  /** A reply that came back is read. */
  lemma ReadsOn(cfg: Config, count: Counter, w: World, lens: Lens, units: seq<Unit>)
    requires Free(w, 0) && CameBack(w(1).reply)
    ensures var r, more := Reviewed(cfg, count, w, 0, lens, Some(units)),
                           Understood(cfg, count, w, 2, lens, units, cfg.fetcher.Some?, cfg.structuredOutput, true, w(1).reply);
            r.error == more.error && r.asks == 1 + more.asks
  {
    hide Understood;
  }

  /** A deferral that can be met is a second call, which is answered whatever else it asks for. */
  lemma DefersOnce(cfg: Config, count: Counter, w: World, lens: Lens, units: seq<Unit>)
    requires Free(w, 0) && w(1).reply.Parsed? && w(1).reply.needs != [] && Resolves(cfg, units, w(1).reply.needs)
    requires Free(w, 2) && w(3).reply.Parsed?
    ensures Succeeds(Reviewed(cfg, count, w, 0, lens, Some(units)), 2)
  {
    ReadsOn(cfg, count, w, lens, units);
    ParsesAtOnce(cfg, count, w, 3, lens, cfg.structuredOutput, false, true, false);
    hide Resolves, Counted, Completed, Reviewed;
  }

  lemma ParsesAtOnce(cfg: Config, count: Counter, w: World, at: nat, lens: Lens, schema: bool, lowered: bool, recover: bool, fallback: bool)
    requires w(at).reply.Parsed?
    ensures Completed(cfg, count, w, at, lens, [], false, false, schema, lowered, recover, fallback)
         == Run(Counted(w(at).reply.findings, lens, cfg), None, at + 1, 1)
  {
    hide Counted;
  }

  /** After a failure over size the call goes on with its remedies. */
  lemma GoesOn(cfg: Config, count: Counter, w: World, lens: Lens, units: seq<Unit>)
    requires Free(w, 0) && PayloadSized(w(1).reply)
    ensures var r, more := Reviewed(cfg, count, w, 0, lens, Some(units)), Shrunk(cfg, count, w, 2, lens, units, true, cfg.structuredOutput, false, false, w(1).reply);
            r.error == more.error && r.asks == 1 + more.asks
  {
    hide Shrunk;
  }

  /** The second model, once it is asked and once it is not to be had. */
  lemma SecondModel(cfg: Config, count: Counter, w: World, at: nat, lens: Lens, schema: bool, reason: Reason)
    requires Free(w, at)
    ensures var r := OnSecond(cfg, count, w, at, lens, schema, reason);
            && (w(at + 1).yes && w(at + 2).reply.Parsed? ==> r.error == None && r.asks == 1)
            && (!w(at + 1).yes ==> r.error == Some(reason) && r.asks == 0)
  {
    if w(at + 2).reply.Parsed? {
      ParsesAtOnce(cfg, count, w, at + 2, lens, schema, false, false, true);
    }
    hide Completed;
  }

  /** Output spent on thought: one more call, at a lower effort. */
  lemma StepsDownOnce(cfg: Config, count: Counter, w: World, lens: Lens, units: seq<Unit>)
    requires Free(w, 0) && ThoughtItAway(w(1).reply) && Free(w, 2) && w(3).yes && w(4).reply.Parsed?
    ensures Succeeds(Reviewed(cfg, count, w, 0, lens, Some(units)), 2)
  {
    GoesOn(cfg, count, w, lens, units);
    ParsesAtOnce(cfg, count, w, 4, lens, cfg.structuredOutput, true, true, false);
    hide Counted, InPieces, OnSecond, Completed, Reviewed;
  }

  /** No lower effort to be had: one more call, of the second model. */
  lemma EscalatesOnce(cfg: Config, count: Counter, w: World, lens: Lens, units: seq<Unit>)
    requires Free(w, 0) && ThoughtItAway(w(1).reply) && Free(w, 2) && !w(3).yes
    requires Free(w, 4) && w(5).yes && w(6).reply.Parsed?
    ensures Succeeds(Reviewed(cfg, count, w, 0, lens, Some(units)), 2)
  {
    GoesOn(cfg, count, w, lens, units);
    SecondModel(cfg, count, w, 4, lens, cfg.structuredOutput, Reason(ThoughtExhausted, Final));
    hide Counted, InPieces, OnSecond, Completed, Reviewed;
  }

  /** Every piece answered or failed at once. */
  ghost predicate PiecesRead(w: World, at: nat, p: nat) {
    forall k :: 0 <= k < p ==> Free(w, PieceAt(at, k)) && (w(PieceAt(at, k) + 1).reply.Parsed? || w(PieceAt(at, k) + 1).reply.OtherFailure?)
  }

  /** Where the questions of piece `k` start. */
  function PieceAt(at: nat, k: nat): nat { at + 2 * k }

  /** Every piece asked once: the errors are those of the pieces that did not parse, retryable where the failure is passing. */
  ghost predicate Tallied(w: World, at: nat, p: nat, t: Tally) {
    && t.at == PieceAt(at, p) && t.asks == p
    && (t.errors == [] <==> forall k :: 0 <= k < p ==> w(PieceAt(at, k) + 1).reply.Parsed?)
    && (forall e :: e in t.errors ==> e.what == ProviderFailure && e.mark in {Final, Retryable})
    && ((exists e :: e in t.errors && e.mark == Retryable) <==> SomePassing(w, at, p))
  }

  /** Some piece failed in passing. */
  ghost predicate SomePassing(w: World, at: nat, p: nat) {
    exists k :: 0 <= k < p && w(PieceAt(at, k) + 1).reply == OtherFailure(false)
  }

  /** One piece more. */
  lemma OnePieceMore(cfg: Config, count: Counter, w: World, at: nat, lens: Lens, p: nat)
    requires p > 0
    ensures var t, t' := PiecesDone(cfg, count, w, at, lens, p - 1), PiecesDone(cfg, count, w, at, lens, p);
            var r := Reviewed(cfg, count, w, t.at, lens, None);
            t'.errors == (if r.error.Some? then t.errors + [r.error.value] else t.errors) && t'.at == r.at && t'.asks == t.asks + r.asks
  {
    hide Reviewed;
  }

  lemma NoPieces(cfg: Config, count: Counter, w: World, at: nat, lens: Lens)
    ensures PiecesDone(cfg, count, w, at, lens, 0).errors == [] && Tallied(w, at, 0, PiecesDone(cfg, count, w, at, lens, 0))
  {
  }

  lemma {:induction false} PiecesCome(cfg: Config, count: Counter, w: World, at: nat, lens: Lens, p: nat)
    requires PiecesRead(w, at, p)
    ensures Tallied(w, at, p, PiecesDone(cfg, count, w, at, lens, p))
  {
    hide Reviewed, PiecesDone, SomePassing;
    if p == 0 {
      NoPieces(cfg, count, w, at, lens);
    } else {
      var t := PiecesDone(cfg, count, w, at, lens, p - 1);
      PiecesCome(cfg, count, w, at, lens, p - 1);
      assert Free(w, PieceAt(at, p - 1));
      PieceComes(cfg, count, w, t.at, lens);
      OnePieceMore(cfg, count, w, at, lens, p);
      TalliedNext(w, at, p, t, PiecesDone(cfg, count, w, at, lens, p), Reviewed(cfg, count, w, t.at, lens, None));
    }
  }

  lemma TalliedNext(w: World, at: nat, p: nat, t: Tally, t': Tally, r: Run)
    requires p > 0 && Tallied(w, at, p - 1, t) && Came(w, t.at, r)
    requires t'.errors == (if r.error.Some? then t.errors + [r.error.value] else t.errors) && t'.at == r.at && t'.asks == t.asks + r.asks
    ensures Tallied(w, at, p, t')
  {
    var k := p - 1;
    assert w(PieceAt(at, k) + 1).reply == w(t.at + 1).reply;
    assert SomePassing(w, at, p) <==> SomePassing(w, at, p - 1) || w(PieceAt(at, k) + 1).reply == OtherFailure(false);
    if r.error.Some? {
      assert t'.errors[|t.errors|] == r.error.value;
      assert forall e :: e in t'.errors <==> e in t.errors || e == r.error.value;
    }
  }

  /** The piece was asked once, and parsed or failed. */
  ghost predicate Came(w: World, at: nat, r: Run) {
    && r.at == at + 2 && r.asks == 1 && (w(at + 1).reply.Parsed? || w(at + 1).reply.OtherFailure?)
    && r.error == if w(at + 1).reply.Parsed? then None else Some(Reason(ProviderFailure, if w(at + 1).reply.unrecoverable then Final else Retryable))
  }

  lemma PieceComes(cfg: Config, count: Counter, w: World, at: nat, lens: Lens)
    requires Free(w, at) && (w(at + 1).reply.Parsed? || w(at + 1).reply.OtherFailure?)
    ensures Came(w, at, Reviewed(cfg, count, w, at, lens, None))
  {
    hide Counted, Shrunk;
  }

  /** A reply over size that did not spend itself on thought, on a batch that can be split in `p`. */
  ghost predicate Splits(w: World, units: seq<Unit>, count: Counter, p: nat) {
    && PayloadSized(w(1).reply) && !ThoughtItAway(w(1).reply)
    && p == |PiecesOf(units, w(1).reply.PromptTooLarge?, count)| >= 2
  }

  /** What the pieces and then the second model come to is what the call comes to. */
  lemma AfterSplit(cfg: Config, count: Counter, w: World, lens: Lens, units: seq<Unit>)
    requires PayloadSized(w(1).reply) && !ThoughtItAway(w(1).reply)
    ensures var r, reply := Shrunk(cfg, count, w, 2, lens, units, true, cfg.structuredOutput, false, false, w(1).reply), w(1).reply;
            var t := InPieces(cfg, count, w, 2, lens, units, Ladder.Outcome(reply).value, reply.PromptTooLarge?);
            if t.error.None? then r.error == None && r.asks == t.asks
            else
              var e := OnSecond(cfg, count, w, t.at, lens, cfg.structuredOutput, t.error.value);
              r.error == e.error && r.asks == t.asks + e.asks
  {
    hide Counted, OnSecond, SteppedDown, InPieces;
  }

  /** Over size, and every piece answers: the call is answered, in one completion a piece. */
  lemma SplitAnswers(cfg: Config, count: Counter, w: World, lens: Lens, units: seq<Unit>, p: nat)
    requires Free(w, 0) && Splits(w, units, count, p)
    requires PiecesRead(w, 2, p) && forall k :: 0 <= k < p ==> w(PieceAt(2, k) + 1).reply.Parsed?
    ensures Succeeds(Reviewed(cfg, count, w, 0, lens, Some(units)), 1 + p)
  {
    GoesOn(cfg, count, w, lens, units);
    PiecesCome(cfg, count, w, 2, lens, p);
    hide Counted, OnSecond, Completed, Reviewed, PiecesOf, PiecesDone, SteppedDown;
  }

  /**
    Over size, and some piece fails: the call fails with it when there is no second
    model, and is worth another attempt if and only if some piece failed in passing;
    the second model's answer makes it good.
   */
  lemma SplitFails(cfg: Config, count: Counter, w: World, lens: Lens, units: seq<Unit>, p: nat)
    requires Free(w, 0) && Splits(w, units, count, p)
    requires PiecesRead(w, 2, p) && (exists k :: 0 <= k < p && w(PieceAt(2, k) + 1).reply.OtherFailure?) && Free(w, PieceAt(2, p))
    ensures var r := Reviewed(cfg, count, w, 0, lens, Some(units));
            && (!w(PieceAt(2, p) + 1).yes ==> Failed(w, 2, p, r.error) && r.asks == 1 + p)
            && (w(PieceAt(2, p) + 1).yes && w(PieceAt(2, p) + 2).reply.Parsed? ==> r.error == None && r.asks == 2 + p)
  {
    hide *;
    OverSize(w, units, count, p);
    GoesOn(cfg, count, w, lens, units);
    SplitComesTo(cfg, count, w, lens, units, p);
    var r := InPieces(cfg, count, w, 2, lens, units, Ladder.Outcome(w(1).reply).value, w(1).reply.PromptTooLarge?);
    SecondModel(cfg, count, w, PieceAt(2, p), lens, cfg.structuredOutput, r.error.value);
    AfterSplit(cfg, count, w, lens, units);
  }

  /** The pieces' own failure, worth another attempt if and only if one of them failed in passing. */
  ghost predicate Failed(w: World, at: nat, p: nat, error: Option<Reason>) {
    error.Some? && error.value.what == ProviderFailure && (Rescuable(error) <==> SomePassing(w, at, p))
  }

  lemma OverSize(w: World, units: seq<Unit>, count: Counter, p: nat)
    requires Splits(w, units, count, p)
    ensures PayloadSized(w(1).reply) && !ThoughtItAway(w(1).reply) && Ladder.Outcome(w(1).reply).Some?
  {
  }

  lemma SplitComesTo(cfg: Config, count: Counter, w: World, lens: Lens, units: seq<Unit>, p: nat)
    requires Splits(w, units, count, p)
    requires PiecesRead(w, 2, p) && exists k :: 0 <= k < p && w(PieceAt(2, k) + 1).reply.OtherFailure?
    ensures var r := InPieces(cfg, count, w, 2, lens, units, Ladder.Outcome(w(1).reply).value, w(1).reply.PromptTooLarge?);
            r.at == PieceAt(2, p) && r.asks == p && r.error.Some? && Failed(w, 2, p, r.error)
  {
    hide PiecesOf, PiecesDone, Completed, Reviewed, SomePassing;
    PiecesCome(cfg, count, w, 2, lens, p);
    var errors := PiecesDone(cfg, count, w, 2, lens, p).errors;
    assert errors != [] ==> errors[|errors| - 1] in errors;
  }

  /** An unparseable reply that is reformatted. */
  lemma Reformats(cfg: Config, count: Counter, w: World, lens: Lens, units: seq<Unit>)
    requires Free(w, 0) && w(1).reply == Unparseable(true) && cfg.repairUnparseable && Free(w, 2) && w(3).repair.Some?
    ensures Succeeds(Reviewed(cfg, count, w, 0, lens, Some(units)), 2)
  {
    hide Counted;
  }

  /** One that is not, and is asked for once more without the schema. */
  lemma ReAsksBare(cfg: Config, count: Counter, w: World, lens: Lens, units: seq<Unit>)
    requires Free(w, 0) && w(1).reply == Unparseable(true) && cfg.repairUnparseable && Free(w, 2) && w(3).repair.None?
    requires cfg.structuredOutput && cfg.retryWithoutSchema && w(4).yes && Free(w, 5) && w(6).reply.Parsed?
    ensures Succeeds(Reviewed(cfg, count, w, 0, lens, Some(units)), 3)
  {
    ParsesAtOnce(cfg, count, w, 6, lens, false, false, false, false);
    hide Counted, Shrunk;
    assert Bare(cfg, count, w, 5, lens, NOT_PARSED) == Completed(cfg, count, w, 6, lens, [], false, false, false, false, false, false);
    assert Recovered(cfg, count, w, 2, lens, true, true, true).error == None;
  }
}
