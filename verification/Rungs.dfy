/**
  One lens call as a function of the answers it gets: what it finds, what its
  error is and how many completions it takes (the recovery ladder of `engine/engine.py`).
 */
module Rungs {
  import opened Wrappers
  import opened Patches
  import opened Compress
  import opened Findings
  import opened Retrieve
  import opened SplitBatch
  import opened Ladder

  /** What the outside world answers to one question: a ceiling, a capability, a completion or a reformat. */
  datatype Answer = Answer(
    interrupted: bool, late: bool, spent: bool,
    yes: bool,
    reply: Reply, second: bool, learnt: Adapter,
    repair: Option<seq<Finding>>)

  /** The answers to the questions of one call, in the order it asks them. Nothing is assumed of them. */
  type World = nat -> Answer

  /** What a rung comes to, the next question, and the completions it took. */
  datatype Run = Run(findings: seq<Finding>, error: Option<Reason>, at: nat, asks: nat)

  /** The completion is this answer: its reply, whether the adapter switched model, and what it learnt. */
  predicate Answers(c: Completion, a: Answer) {
    c.Ask? && c.reply == a.reply && c.switched == a.second && c.learnt == a.learnt && Leq(a.learnt, c.adapter)
  }

  /** Why the next call must not be made, or nothing. */
  function StopAt(w: World, at: nat): Option<Reason> {
    if w(at).interrupted then Some(Reason(InterruptSkip, Final))
    else if w(at).late then Some(Reason(DeadlineSkip, Final))
    else if w(at).spent then Some(Reason(BudgetSkip, Final))
    else None
  }

  /** The findings of one completion that count. */
  function Counted(findings: seq<Finding>, lens: Lens, cfg: Config): seq<Finding> {
    Bounded(StampAll(findings, lens), cfg.maxFindingsPerLens)
  }

  const NOT_PARSED := Reason(NotParsed, Final)

  /** A lens that may defer, asked for these needs, would be shown something it does not have. */
  ghost predicate Resolves(cfg: Config, batch: seq<Unit>, needs: seq<string>) {
    cfg.fetcher.Some? && Shown(cfg.fetcher.value, batch, needs) != []
  }

  /** The lens parsed but asked for code that can be shown to it. */
  ghost predicate Defers(cfg: Config, batch: seq<Unit>, r: Reply) {
    r.Parsed? && r.needs != [] && Resolves(cfg, batch, r.needs)
  }

  /** The environment of a deferral's fetch: the batch's own files count as already shown. */
  function DeferralEnv(env: Env, batch: seq<Unit>): Env {
    env.(already := set u | u in batch :: u.0, maxFiles := MAX_FETCH_FILES)
  }

  /** The files a deferral is shown. */
  ghost function Shown(env: Env, batch: seq<Unit>, needs: seq<string>): seq<Entry> {
    WalkAll(DeferralEnv(env, batch), Taken([], 0), needs, true).out
  }

  /** The reason a split reports: the last piece's, retryable if any piece's provider faltered for another cause than size. */
  function SplitReason(errors: seq<Reason>): Reason
    requires errors != []
  {
    var last := errors[|errors| - 1];
    Reason(last.what, if exists e :: e in errors && e.mark == Retryable then Retryable else Final)
  }

  // ---------------------------------------------------------------------
  // The rungs
  // ---------------------------------------------------------------------

  /** One lens call. Without a batch it is a piece: nothing to split and nothing to defer. */
  ghost function Reviewed(cfg: Config, count: Counter, w: World, at: nat, lens: Lens, batch: Option<seq<Unit>>): Run
    decreases if batch.Some? then 1 else 0, 1, 1, 4
  {
    if StopAt(w, at).Some? then Run([], StopAt(w, at), at + 1, 0)
    else
      Completed(cfg, count, w, at + 1, lens, if batch.Some? then batch.value else [], batch.Some?,
                batch.Some? && cfg.fetcher.Some?, cfg.structuredOutput, false, true, false)
  }

  /** The completion, and whichever remedy its failure asks for. */
  ghost function Completed(cfg: Config, count: Counter, w: World, at: nat, lens: Lens, batch: seq<Unit>, whole: bool, defers: bool,
                           schema: bool, lowered: bool, recover: bool, fallback: bool): Run
    requires (whole ==> !lowered) && (defers ==> whole)
    decreases if whole then 1 else 0, if schema then 1 else 0, if lowered then 0 else 1, 2
  {
    var reply := w(at).reply;
    var r := if PayloadSized(reply) then Shrunk(cfg, count, w, at + 1, lens, batch, whole, schema, lowered, fallback, reply)
             else if reply.OtherFailure? then Run([], Some(FailureReason(reply)), at + 1, 0)
             else Understood(cfg, count, w, at + 1, lens, batch, defers, schema, recover, reply);
    r.(asks := r.asks + 1)
  }

  /** After a payload-sized failure: a lower effort or smaller pieces, and last a second model. */
  ghost function Shrunk(cfg: Config, count: Counter, w: World, at: nat, lens: Lens, batch: seq<Unit>, whole: bool,
                        schema: bool, lowered: bool, fallback: bool, reply: Reply): Run
    requires PayloadSized(reply) && (whole ==> !lowered)
    decreases if whole then 1 else 0, if schema then 1 else 0, if lowered then 0 else 1, 1
  {
    var own, reason := Counted(Salvage(reply), lens, cfg), Outcome(reply).value;
    if (if Exhausted(reply) then lowered || fallback else !whole) then Run(own, Some(reason), at, 0)
    else
      var r := if Exhausted(reply) then SteppedDown(cfg, count, w, at, lens, schema, reason)
               else InPieces(cfg, count, w, at, lens, batch, reason, reply.PromptTooLarge?);
      if r.error.None? || !whole then r.(findings := own + r.findings)
      else
        var e := OnSecond(cfg, count, w, r.at, lens, schema, r.error.value);
        Run(own + r.findings + e.findings, e.error, e.at, r.asks + e.asks)
  }

  ghost function SteppedDown(cfg: Config, count: Counter, w: World, at: nat, lens: Lens, schema: bool, reason: Reason): Run
    decreases 0, if schema then 1 else 0, 1, 0
  {
    if StopAt(w, at).Some? then Run([], Some(reason), at + 1, 0)
    else if !w(at + 1).yes then Run([], Some(reason), at + 2, 0)
    else Completed(cfg, count, w, at + 2, lens, [], false, false, schema, true, true, false)
  }

  ghost function OnSecond(cfg: Config, count: Counter, w: World, at: nat, lens: Lens, schema: bool, reason: Reason): Run
    decreases 0, 1, 1, 3
  {
    if StopAt(w, at).Some? then Run([], Some(reason), at + 1, 0)
    else if !w(at + 1).yes then Run([], Some(reason), at + 2, 0)
    else Completed(cfg, count, w, at + 2, lens, [], false, false, schema, false, false, true)
  }

  /** The pieces of a split batch, one call each; any failed piece is a failure. */
  ghost function InPieces(cfg: Config, count: Counter, w: World, at: nat, lens: Lens, batch: seq<Unit>, reason: Reason, slice: bool): Run
    decreases 0, 1, 1, 6
  {
    var p := |PiecesOf(batch, slice, count)|;
    if p < 2 then Run([], Some(reason), at, 0)
    else
      var t := PiecesDone(cfg, count, w, at, lens, p);
      Run(t.findings, if t.errors == [] then None else Some(SplitReason(t.errors)), t.at, t.asks)
  }

  /** What the pieces reviewed so far came to. */
  datatype Tally = Tally(findings: seq<Finding>, errors: seq<Reason>, at: nat, asks: nat)

  ghost function PiecesDone(cfg: Config, count: Counter, w: World, at: nat, lens: Lens, p: nat): Tally
    decreases 0, 1, 1, 5, p
  {
    if p == 0 then Tally([], [], at, 0)
    else
      var t := PiecesDone(cfg, count, w, at, lens, p - 1);
      var r := Reviewed(cfg, count, w, t.at, lens, None);
      Tally(t.findings + r.findings, if r.error.Some? then t.errors + [r.error.value] else t.errors, r.at, t.asks + r.asks)
  }

  /** A reply that came back: parsed, cut off in its body, or unparseable. */
  ghost function Understood(cfg: Config, count: Counter, w: World, at: nat, lens: Lens, batch: seq<Unit>, defers: bool,
                            schema: bool, recover: bool, reply: Reply): Run
    requires CameBack(reply)
    decreases if defers then 1 else 0, if schema then 1 else 0, 0, 1
  {
    if reply.Unparseable? then Recovered(cfg, count, w, at, lens, schema, recover, reply.reformattable)
    else
      var own := Counted(ReplyFindings(reply), lens, cfg);
      if reply.Parsed? && defers && reply.needs != [] then WithContext(cfg, count, w, at, lens, batch, reply.needs, own)
      else Run(own, Outcome(reply), at, 0)
  }

  ghost function WithContext(cfg: Config, count: Counter, w: World, at: nat, lens: Lens, batch: seq<Unit>, needs: seq<string>,
                             own: seq<Finding>): Run
    decreases 0, 1, 1, 3
  {
    if StopAt(w, at).Some? then Run(own, StopAt(w, at), at + 1, 0)
    else if !Resolves(cfg, batch, needs) then Run(own, None, at + 1, 0)
    else
      var r := Completed(cfg, count, w, at + 1, lens, [], false, false, cfg.structuredOutput, false, true, false);
      r.(findings := own + r.findings)
  }

  /** After a reply that is not findings: one reformat of it, then one re-ask without the schema. */
  ghost function Recovered(cfg: Config, count: Counter, w: World, at: nat, lens: Lens, schema: bool, recover: bool, reformattable: bool): Run
    decreases 0, if schema then 1 else 0, 0, 0
  {
    if !recover then Run([], Some(NOT_PARSED), at, 0)
    else if StopAt(w, at).Some? then Run([], Some(NOT_PARSED), at + 1, 0)
    else
      var tries: nat := if cfg.repairUnparseable && reformattable then 1 else 0;
      if tries == 1 && w(at + 1).repair.Some? then Run(Counted(w(at + 1).repair.value, lens, cfg), None, at + 2, 1)
      else if !schema || !cfg.retryWithoutSchema then Run([], Some(NOT_PARSED), at + 1 + tries, tries)
      else if !w(at + 1 + tries).yes then Run([], Some(NOT_PARSED), at + 2 + tries, tries)
      else
        var r := Bare(cfg, count, w, at + 2 + tries, lens, NOT_PARSED);
        Run(r.findings, if r.error.None? then None else Some(NOT_PARSED), r.at, tries + r.asks)
  }

  ghost function Bare(cfg: Config, count: Counter, w: World, at: nat, lens: Lens, reason: Reason): Run
    decreases 0, 0, 1, 3
  {
    if StopAt(w, at).Some? then Run([], Some(reason), at + 1, 0)
    else Completed(cfg, count, w, at + 1, lens, [], false, false, false, false, false, false)
  }

  // ---------------------------------------------------------------------
  // A clean call
  // ---------------------------------------------------------------------

  /** Nothing stops the call and the reply is that there is nothing to report, from the configured model or one that is not named. */
  ghost predicate Clean(w: World, cfg: Config) {
    forall i :: StopAt(w, i).None? && w(i).reply == Parsed([], []) && (w(i).second ==> !NamesModels(cfg))
  }

  /** Whatever the adapter learns on the way, a clean call is one completion, without findings or an error. */
  lemma CleanRun(cfg: Config, count: Counter, w: World, lens: Lens, batch: seq<Unit>)
    requires Clean(w, cfg)
    ensures Reviewed(cfg, count, w, 0, lens, Some(batch)) == Run([], None, 2, 1)
  {
    assert StopAt(w, 0).None? && w(1).reply == Parsed([], []);
    assert Counted([], lens, cfg) == [];
  }

  /** A call that nothing stops at the start makes a completion. */
  lemma UnstoppedAsks(cfg: Config, count: Counter, w: World, lens: Lens, batch: seq<Unit>)
    requires StopAt(w, 0).None?
    ensures Reviewed(cfg, count, w, 0, lens, Some(batch)).asks > 0
  {
    hide Shrunk, Understood;
  }
}
