/** Running every (batch, lens) call, in whatever order they finish, and rescuing the provider's failures (`engine/engine.py`). */
module FanOut {
  import opened Wrappers
  import opened DiffParse
  import opened Patches
  import opened Findings
  import opened Compress
  import opened SplitBatch
  import opened Ladder
  import opened Rungs
  import opened Engine
  import opened Schedule

  /** One lens call ready to submit. */
  datatype PreparedCall = PreparedCall(lens: Lens, batchNum: nat, units: seq<Unit>)

  /** A batch's calls, one a lens, and whether its first one runs alone to warm the prompt cache. */
  datatype BatchCalls = BatchCalls(warm: bool, calls: seq<PreparedCall>)

  datatype Outcome = Outcome(findings: seq<Finding>, error: Option<Reason>)

  function Shape(perBatch: seq<BatchCalls>): (bs: seq<Batch>)
    ensures |bs| == |perBatch|
    ensures forall b :: 0 <= b < |bs| ==> bs[b] == Batch(perBatch[b].warm, |perBatch[b].calls|)
  {
    if perBatch == [] then [] else [Batch(perBatch[0].warm, |perBatch[0].calls|)] + Shape(perBatch[1..])
  }

  function AllCalls(perBatch: seq<BatchCalls>): seq<PreparedCall> {
    if perBatch == [] then [] else AllCalls(perBatch[..|perBatch| - 1]) + perBatch[|perBatch| - 1].calls
  }

  /** The most completions one call can cause. */
  function CallBound(call: PreparedCall): nat {
    Bound(true, true, false, true, false, Width(call.units))
  }

  /** The outcome is the call's own and rests on these completions. */
  ghost predicate RanCall(call: PreparedCall, cap: nat, log: Log, outcome: Outcome) {
    Ran(call.lens, cap, Owed(Joined(call.units), call.units, true), log, outcome.findings, outcome.error)
  }

  /** What the call comes to when the world answers it so, by itself and whatever runs beside it. */
  ghost function Task(cfg: Config, count: Counter, call: PreparedCall, w: World): Outcome {
    var r := Reviewed(cfg, count, w, 0, call.lens, Some(call.units));
    Outcome(r.findings, r.error)
  }

  ghost function Tasks(cfg: Config, count: Counter, calls: seq<PreparedCall>, worlds: nat -> World): (r: seq<Outcome>)
    ensures |r| == |calls| && forall i :: 0 <= i < |r| ==> r[i] == Task(cfg, count, calls[i], worlds(i))
  {
    seq(|calls|, i requires 0 <= i < |calls| => Task(cfg, count, calls[i], worlds(i)))
  }

  /** The call's completions are as many as its answers make them, the first one a plain lens call on the joined patches. */
  ghost predicate Opens(cfg: Config, count: Counter, call: PreparedCall, w: World, log: Log) {
    && |log| == Reviewed(cfg, count, w, 0, call.lens, Some(call.units)).asks
    && (log != [] ==> Answers(log[0], w(1))
                      && IsAsk(log[0], call.lens.id, Prompt(Joined(call.units), []), cfg.structuredOutput, false, false))
  }

  /** The call ran to its own outcome, on completions of its own, within its bound. */
  ghost predicate Did(cfg: Config, count: Counter, call: PreparedCall, w: World, log: Log, outcome: Outcome) {
    && RanCall(call, cfg.maxFindingsPerLens, log, outcome) && |log| <= CallBound(call)
    && outcome == Task(cfg, count, call, w) && Opens(cfg, count, call, w, log)
  }

  method RunCall(review: Review, call: PreparedCall, w: World) returns (outcome: Outcome, ghost log: Log)
    modifies review
    ensures review.made == old(review.made) + log
    ensures Did(review.cfg, review.count, call, w, log, outcome)
    ensures Honest(old(review.Disclosures()), review.Disclosures(), log, review.cfg, false, false)
  {
    hide Ran, Honest, Reviewed, Owed, IsAsk, Answers;
    var findings, error;
    ghost var p;
    review.at := 0;
    findings, error, log, p := review.ReviewLens(w, call.lens, Joined(call.units), Some(call.units), call.batchNum);
    return Outcome(findings, error), log;
  }

  /** The completions of the calls in `order`, one call after another. */
  ghost function Trace(runs: map<nat, Log>, order: seq<nat>): Log
    requires forall i :: i in order ==> i in runs
  {
    if order == [] then []
    else Trace(runs, order[..|order| - 1]) + runs[order[|order| - 1]]
  }

  lemma {:induction false} TraceKept(runs: map<nat, Log>, runs': map<nat, Log>, order: seq<nat>)
    requires forall i :: i in order ==> i in runs && i in runs' && runs[i] == runs'[i]
    ensures Trace(runs, order) == Trace(runs', order)
  {
    if order != [] {
      TraceKept(runs, runs', order[..|order| - 1]);
    }
  }

  lemma TraceNext(runs: map<nat, Log>, order: seq<nat>, i: nat, log: Log)
    requires i !in order && forall j :: j in order ==> j in runs
    ensures Trace(runs[i := log], order + [i]) == Trace(runs, order) + log
  {
    TraceKept(runs, runs[i := log], order);
    assert (order + [i])[..|order + [i]| - 1] == order;
  }

  /** Each call of `order` ran once and left its task's outcome; no other call ran. */
  ghost predicate Results(calls: seq<PreparedCall>, cfg: Config, count: Counter, worlds: nat -> World, order: seq<nat>, runs: map<nat, Log>, results: map<nat, Outcome>) {
    && runs.Keys == results.Keys && (forall i :: i in order <==> i in runs)
    && (forall a, b :: 0 <= a < b < |order| ==> order[a] != order[b])
    && (forall i :: i in runs ==> i < |calls| && Did(cfg, count, calls[i], worlds(i), runs[i], results[i]))
  }

  lemma {:induction false} ResultsNext(calls: seq<PreparedCall>, cfg: Config, count: Counter, worlds: nat -> World, order: seq<nat>, runs: map<nat, Log>, results: map<nat, Outcome>,
                    i: nat, log: Log, outcome: Outcome)
    requires Results(calls, cfg, count, worlds, order, runs, results) && i < |calls| && i !in runs
    requires Did(cfg, count, calls[i], worlds(i), log, outcome)
    ensures Results(calls, cfg, count, worlds, order + [i], runs[i := log], results[i := outcome])
  {
    hide Did;
  }

  /** Everything known between two completions. */
  ghost predicate Progress(bs: seq<Batch>, calls: seq<PreparedCall>, cfg: Config, count: Counter, worlds: nat -> World, q: Books,
                           order: seq<nat>, released: Releases, runs: map<nat, Log>, results: map<nat, Outcome>) {
    && Offset(bs, |bs|) == |calls| && q.finished == results.Keys
    && Consistent(bs, |bs|, q)
    && Results(calls, cfg, count, worlds, order, runs, results)
    && released.Keys == q.pending + q.finished && Waited(bs, order, released)
  }

  lemma ProgressAtFirst(bs: seq<Batch>, calls: seq<PreparedCall>, cfg: Config, count: Counter, worlds: nat -> World, q: Books, released: Releases)
    requires Offset(bs, |bs|) == |calls| && q.finished == {} && Consistent(bs, |bs|, q)
    requires forall b :: 0 <= b < |bs| && bs[b].warm ==> b in q.deferred
    requires released.Keys == q.pending && forall i :: i in released ==> released[i] == 0
    ensures Progress(bs, calls, cfg, count, worlds, q, [], released, map[], map[])
  {
    hide Consistent, Waited, Results;
    WaitedAtFirst(bs, q, released);
    NoResults(calls, cfg, count, worlds);
  }

  lemma NoResults(calls: seq<PreparedCall>, cfg: Config, count: Counter, worlds: nat -> World)
    ensures Results(calls, cfg, count, worlds, [], map[], map[])
  {
    hide Did;
  }

  /** A running call is a call, has not run before, and every call that ran before is known. */
  lemma Running(bs: seq<Batch>, calls: seq<PreparedCall>, cfg: Config, count: Counter, worlds: nat -> World, q: Books,
                order: seq<nat>, released: Releases, runs: map<nat, Log>, results: map<nat, Outcome>, i: nat)
    requires Progress(bs, calls, cfg, count, worlds, q, order, released, runs, results) && i in q.pending
    ensures i < |calls| && i !in order && i !in runs && (forall j :: j in order <==> j in runs) && q.finished == results.Keys == runs.Keys
    ensures Left(calls, q.finished + {i}) < Left(calls, q.finished)
  {
    assert i !in q.finished && i in Left(calls, q.finished);
  }

  /** The calls that have no result yet. */
  function Left(calls: seq<PreparedCall>, finished: set<nat>): set<nat> {
    (set j | j in Range(0, |calls|)) - finished
  }

  lemma {:induction false} ProgressNext(bs: seq<Batch>, calls: seq<PreparedCall>, cfg: Config, count: Counter, worlds: nat -> World, q: Books,
                     order: seq<nat>, released: Releases, runs: map<nat, Log>, results: map<nat, Outcome>,
                     i: nat, log: Log, outcome: Outcome)
    requires Progress(bs, calls, cfg, count, worlds, q, order, released, runs, results) && i in q.pending && i < |calls|
    requires Did(cfg, count, calls[i], worlds(i), log, outcome)
    ensures Progress(bs, calls, cfg, count, worlds, Finish(q, i), order + [i], Release(q, Finish(q, i), released, |order| + 1),
                     runs[i := log], results[i := outcome])
  {
    hide Consistent, Results, Waited, Finish, Release, Did;
    Running(bs, calls, cfg, count, worlds, q, order, released, runs, results, i);
    FinishKeeps(bs, q, i);
    WaitedNext(bs, q, order, released, i);
    ResultsNext(calls, cfg, count, worlds, order, runs, results, i, log, outcome);
    FinishIs(q, i);
    assert Finish(q, i).finished == results[i := outcome].Keys;
  }

  /** Nothing running: every call has its outcome. */
  lemma ProgressAtLast(bs: seq<Batch>, calls: seq<PreparedCall>, cfg: Config, count: Counter, worlds: nat -> World, q: Books,
                       order: seq<nat>, released: Releases, runs: map<nat, Log>, results: map<nat, Outcome>)
    requires Progress(bs, calls, cfg, count, worlds, q, order, released, runs, results) && q.pending == {}
    ensures Ordered(bs, calls, order, released, runs)
    ensures results.Keys == runs.Keys
    ensures forall i :: 0 <= i < |calls| ==>
              i in runs && i in results && Did(cfg, count, calls[i], worlds(i), runs[i], results[i])
    ensures forall i :: i in results <==> 0 <= i < |calls|
  {
    hide Did, Consistent, Waited;
    NoStall(bs, q);
    forall i: nat
      ensures i in runs <==> 0 <= i < |calls|
      ensures i in runs ==> i in results && Did(cfg, count, calls[i], worlds(i), runs[i], results[i])
    {
      assert i in q.finished <==> i in runs;
    }
  }

  /** Each call ran exactly once, and no follower started before its primer had finished. */
  ghost predicate Ordered(bs: seq<Batch>, calls: seq<PreparedCall>, order: seq<nat>, released: Releases, runs: map<nat, Log>) {
    && (forall i :: i in order <==> 0 <= i < |calls|)
    && (forall a, b :: 0 <= a < b < |order| ==> order[a] != order[b])
    && (forall i :: i in runs <==> 0 <= i < |calls|)
    && (forall i :: i in released <==> 0 <= i < |calls|)
    && Waited(bs, order, released)
  }

  /** Submits every batch, or its primer alone, in call order. */
  method SubmitAll(perBatch: seq<BatchCalls>)
    returns (calls: seq<PreparedCall>, pending: set<nat>, primerBatch: map<nat, nat>, deferred: map<nat, seq<nat>>)
    requires forall b :: 0 <= b < |perBatch| && perBatch[b].warm ==> perBatch[b].calls != []
    ensures calls == AllCalls(perBatch) && |calls| == Offset(Shape(perBatch), |perBatch|)
    ensures Consistent(Shape(perBatch), |perBatch|, Books(pending, primerBatch, deferred, {}))
    ensures forall b :: 0 <= b < |perBatch| && perBatch[b].warm ==> b in deferred
  {
    hide Orderly, Shape;
    ghost var bs := Shape(perBatch);
    calls, pending, primerBatch, deferred := [], {}, map[], map[];
    for b := 0 to |perBatch|
      invariant calls == AllCalls(perBatch[..b]) && |calls| == Offset(bs, b)
      invariant Consistent(bs, b, Books(pending, primerBatch, deferred, {}))
      invariant forall a :: 0 <= a < b && perBatch[a].warm ==> a in deferred
    {
      AllCallsNext(perBatch, b);
      SubmitKeeps(bs, Books(pending, primerBatch, deferred, {}), b);
      var lo, hi := |calls|, |calls| + |perBatch[b].calls|;
      if perBatch[b].warm {
        pending, primerBatch, deferred := pending + {lo}, primerBatch[lo := b], deferred[b := Range(lo + 1, hi)];
      } else {
        pending := pending + (set i | i in Range(lo, hi));
      }
      calls := calls + perBatch[b].calls;
    }
    assert perBatch[..|perBatch|] == perBatch;
  }

  /**
    Submits the calls and collects each as it finishes; any running call may be
    the next. Each runs exactly once, and whatever the order in which they finish
    the outcomes are the calls' own, in call order.
   */
  method RunPool(review: Review, perBatch: seq<BatchCalls>, worlds: nat -> World)
    returns (outcomes: seq<Outcome>, ghost order: seq<nat>, ghost released: Releases, ghost runs: map<nat, Log>)
    requires forall b :: 0 <= b < |perBatch| && perBatch[b].warm ==> perBatch[b].calls != []
    modifies review
    ensures Ordered(Shape(perBatch), AllCalls(perBatch), order, released, runs)
    ensures outcomes == Tasks(review.cfg, review.count, AllCalls(perBatch), worlds)
    ensures forall i :: 0 <= i < |outcomes| ==>
              i in runs && Did(review.cfg, review.count, AllCalls(perBatch)[i], worlds(i), runs[i], outcomes[i])
    ensures (forall i :: i in order ==> i in runs) && review.made == old(review.made) + Trace(runs, order)
    ensures Honest(old(review.Disclosures()), review.Disclosures(), Trace(runs, order), review.cfg, false, false)
  {
    hide *;
    ghost var bs, cfg, count := Shape(perBatch), review.cfg, review.count;
    var calls, pending, primerBatch, deferred := SubmitAll(perBatch);
    var results: map<nat, Outcome> := map[];
    ghost var tasks := Tasks(cfg, count, calls, worlds);
    ghost var made, d := review.made, review.Disclosures();
    order, runs := [], map[];
    released := map i | i in pending :: 0;
    BatchesAre(perBatch);
    ProgressAtFirst(bs, calls, cfg, count, worlds, Books(pending, primerBatch, deferred, results.Keys), released);
    NothingLogged(review.cfg, made, d);
    while pending != {}
      invariant Progress(bs, calls, cfg, count, worlds, Books(pending, primerBatch, deferred, results.Keys), order, released, runs, results)
      invariant Logged(cfg, made, d, runs, order, review.made, review.Disclosures())
      decreases Left(calls, results.Keys)
    {
      var i :| i in pending;
      ghost var q := Books(pending, primerBatch, deferred, results.Keys);
      Running(bs, calls, cfg, count, worlds, q, order, released, runs, results, i);
      var outcome;
      ghost var made', d', log := review.made, review.Disclosures(), [];
      outcome, log := RunCall(review, calls[i], worlds(i));
      LoggedNext(cfg, made, d, runs, order, made', d', i, log, review.made, review.Disclosures());
      ProgressNext(bs, calls, cfg, count, worlds, q, order, released, runs, results, i, log, outcome);
      FinishIs(q, i);
      pending, results := pending - {i}, results[i := outcome];
      released := Release(q, Finish(q, i), released, |order| + 1);
      order, runs := order + [i], runs[i := log];
      if i in primerBatch && primerBatch[i] in deferred {
        pending := pending + (set j | j in deferred[primerBatch[i]]);
        deferred := deferred - {primerBatch[i]};
      }
      primerBatch := primerBatch - {i};
      assert pending == Finish(q, i).pending && results.Keys == q.finished + {i};
      assert Books(pending, primerBatch, deferred, results.Keys) == Finish(q, i);
    }
    ProgressAtLast(bs, calls, cfg, count, worlds, Books(pending, primerBatch, deferred, results.Keys), order, released, runs, results);
    TasksDone(cfg, count, calls, worlds, runs, results);
    outcomes := InCallOrder(results, tasks);
    LoggedIs(cfg, made, d, runs, order, review.made, review.Disclosures());
  }

  lemma TasksDone(cfg: Config, count: Counter, calls: seq<PreparedCall>, worlds: nat -> World, runs: map<nat, Log>, results: map<nat, Outcome>)
    requires forall i :: 0 <= i < |calls| ==> i in runs && i in results && Did(cfg, count, calls[i], worlds(i), runs[i], results[i])
    ensures |Tasks(cfg, count, calls, worlds)| == |calls|
    ensures forall i :: 0 <= i < |calls| ==> results[i] == Tasks(cfg, count, calls, worlds)[i]
  {
    hide RanCall, CallBound, Opens, Task;
  }

  /** The results by call index. */
  method InCallOrder(results: map<nat, Outcome>, ghost tasks: seq<Outcome>) returns (outcomes: seq<Outcome>)
    requires forall i :: i in results <==> 0 <= i < |tasks|
    requires forall i :: 0 <= i < |tasks| ==> results[i] == tasks[i]
    ensures outcomes == tasks
  {
    outcomes := [];
    CardOf(results.Keys, |tasks|);
    for i := 0 to |results|
      invariant outcomes == tasks[..i]
    {
      outcomes := outcomes + [results[i]];
    }
    assert tasks[..|tasks|] == tasks;
  }

  lemma {:induction false} CardOf(keys: set<nat>, n: nat)
    requires forall i :: i in keys <==> 0 <= i < n
    ensures |keys| == n
  {
    if n > 0 {
      CardOf(keys - {n - 1}, n - 1);
    } else {
      assert keys == {};
    }
  }

  lemma BatchesAre(perBatch: seq<BatchCalls>)
    ensures |Shape(perBatch)| == |perBatch|
    ensures forall b :: 0 <= b < |perBatch| ==> Shape(perBatch)[b] == Batch(perBatch[b].warm, |perBatch[b].calls|)
  {
  }

  /** The record since the start: the completions of the calls in `order`, all of them disclosed. */
  ghost predicate Logged(cfg: Config, made0: Log, d0: Disclosure, runs: map<nat, Log>, order: seq<nat>, made: Log, d: Disclosure) {
    && (forall i :: i in order <==> i in runs) && made == made0 + Trace(runs, order)
    && Honest(d0, d, Trace(runs, order), cfg, false, false)
  }

  lemma LoggedIs(cfg: Config, made0: Log, d0: Disclosure, runs: map<nat, Log>, order: seq<nat>, made: Log, d: Disclosure)
    requires Logged(cfg, made0, d0, runs, order, made, d)
    ensures (forall i :: i in order ==> i in runs) && made == made0 + Trace(runs, order)
    ensures Honest(d0, d, Trace(runs, order), cfg, false, false)
  {
    hide Honest, Trace;
  }

  lemma NothingLogged(cfg: Config, made: Log, d: Disclosure)
    ensures Logged(cfg, made, d, map[], [], made, d)
  {
    HonestNone(d, cfg, false, false);
    hide Honest;
    assert made + [] == made;
  }

  lemma LoggedNext(cfg: Config, made0: Log, d0: Disclosure, runs: map<nat, Log>, order: seq<nat>, made: Log, d: Disclosure,
                   i: nat, log: Log, made': Log, d': Disclosure)
    requires Logged(cfg, made0, d0, runs, order, made, d) && i !in order
    requires made' == made + log && Honest(d, d', log, cfg, false, false)
    ensures Logged(cfg, made0, d0, runs[i := log], order + [i], made', d')
  {
    hide Honest, Trace;
    HonestThen(d0, d, d', Trace(runs, order), log, cfg, false, false, false, false);
    TraceNext(runs, order, i, log);
    Assoc(made0, Trace(runs, order), log);
  }

  lemma FinishIs(q: Books, i: nat)
    ensures Finish(q, i).pending == q.pending - {i} + (if i in q.primers && q.primers[i] in q.deferred then set j | j in q.deferred[q.primers[i]] else {})
    ensures Finish(q, i).deferred == if i in q.primers && q.primers[i] in q.deferred then q.deferred - {q.primers[i]} else q.deferred
    ensures Finish(q, i).primers == q.primers - {i} && Finish(q, i).finished == q.finished + {i}
  {
  }

  lemma AllCallsNext(perBatch: seq<BatchCalls>, b: nat)
    requires b < |perBatch|
    ensures AllCalls(perBatch[..b + 1]) == AllCalls(perBatch[..b]) + perBatch[b].calls
  {
    assert perBatch[..b + 1][..b] == perBatch[..b];
  }

  // ---------------------------------------------------------------------
  // The rescue wave
  // ---------------------------------------------------------------------

  /**
    What the rescue makes of one outcome: nothing, unless it failed on the
    provider. Then the call was made once more, the second error stands, and the
    findings of both attempts are kept.
   */
  ghost predicate RescuedOnce(call: PreparedCall, cap: nat, first: Outcome, again: Log, merged: Outcome) {
    if Rescuable(first.error) then
      && |again| <= CallBound(call)
      && merged.findings == first.findings + Gathered(again, call.lens, cap)
      && RanCall(call, cap, again, Outcome(Gathered(again, call.lens, cap), merged.error))
    else
      again == [] && merged == first
  }

  /** Both attempts together are one run of the call, within twice its bound. */
  lemma RescueRuns(call: PreparedCall, cap: nat, first: Outcome, log: Log, again: Log, merged: Outcome)
    requires RanCall(call, cap, log, first) && |log| <= CallBound(call)
    requires RescuedOnce(call, cap, first, again, merged)
    ensures RanCall(call, cap, log + again, merged) && |log + again| <= 2 * CallBound(call)
  {
    hide AllCovered, Backed, OfLens, Owed, CallBound;
    if Rescuable(first.error) {
      RanBoth(call.lens, cap, Owed(Joined(call.units), call.units, true), log, first.findings, again, Gathered(again, call.lens, cap), merged.error);
    } else {
      assert log + again == log;
    }
  }

  /** The call's outcome after its second chance, if it has one. */
  ghost function SecondChance(cfg: Config, count: Counter, call: PreparedCall, first: Outcome, w: World): Outcome {
    if Rescuable(first.error) then
      var second := Task(cfg, count, call, w);
      Outcome(first.findings + second.findings, second.error)
    else
      first
  }

  /** What is known of one call's second chance: the same call, whose outcome is its own. */
  ghost predicate Retried(cfg: Config, count: Counter, call: PreparedCall, first: Outcome, w: World, again: Log, merged: Outcome) {
    && RescuedOnce(call, cfg.maxFindingsPerLens, first, again, merged)
    && merged == SecondChance(cfg, count, call, first, w)
    && (Rescuable(first.error) ==> Opens(cfg, count, call, w, again))
  }

  method Rescue(review: Review, calls: seq<PreparedCall>, outcomes: seq<Outcome>, worlds: nat -> World)
    returns (merged: seq<Outcome>, ghost again: seq<Log>)
    requires |outcomes| == |calls|
    modifies review
    ensures |merged| == |again| == |calls|
    ensures forall i :: 0 <= i < |calls| ==>
              Retried(review.cfg, review.count, calls[i], outcomes[i], worlds(i), again[i], merged[i])
    ensures review.made == old(review.made) + Flatten(again)
    ensures Honest(old(review.Disclosures()), review.Disclosures(), Flatten(again), review.cfg, false, false)
  {
    hide RanCall, CallBound, Flatten, Gathered, Honest, Task, Opens;
    ghost var cap := review.cfg.maxFindingsPerLens;
    merged, again := [], [];
    FlattenNothing();
    HonestNone(review.Disclosures(), review.cfg, false, false);
    for i := 0 to |calls|
      invariant |merged| == |again| == i
      invariant forall j :: 0 <= j < i ==> Retried(review.cfg, review.count, calls[j], outcomes[j], worlds(j), again[j], merged[j])
      invariant review.made == old(review.made) + Flatten(again)
      invariant Honest(old(review.Disclosures()), review.Disclosures(), Flatten(again), review.cfg, false, false)
    {
      var outcome := outcomes[i];
      ghost var log: Log := [];
      ghost var d := review.Disclosures();
      HonestNone(d, review.cfg, false, false);
      if Rescuable(outcome.error) {
        var second;
        second, log := RunCall(review, calls[i], worlds(i));
        RanOffers(calls[i], cap, log, second);
        outcome := Outcome(outcome.findings + second.findings, second.error);
      }
      assert Retried(review.cfg, review.count, calls[i], outcomes[i], worlds(i), log, outcome);
      HonestThen(old(review.Disclosures()), d, review.Disclosures(), Flatten(again), log, review.cfg,
                 false, false, false, false);
      FlattenSnoc(again, log);
      Assoc(old(review.made), Flatten(again), log);
      merged, again := merged + [outcome], again + [log];
    }
  }

  lemma FlattenNothing()
    ensures Flatten<Completion>([]) == []
  {
  }

  lemma RanOffers(call: PreparedCall, cap: nat, log: Log, outcome: Outcome)
    requires RanCall(call, cap, log, outcome)
    ensures outcome == Outcome(Gathered(log, call.lens, cap), outcome.error)
  {
  }

  /**
    Every call of every batch, once, and once more where the provider faltered;
    the outcomes in call order, each a function of its own answers alone.
   */
  method FanOut(review: Review, perBatch: seq<BatchCalls>, worlds: nat -> World, rescues: nat -> World)
    returns (merged: seq<Outcome>, ghost order: seq<nat>, ghost released: Releases, ghost runs: map<nat, Log>,
             ghost first: seq<Outcome>, ghost again: seq<Log>)
    requires forall b :: 0 <= b < |perBatch| && perBatch[b].warm ==> perBatch[b].calls != []
    modifies review
    ensures Ordered(Shape(perBatch), AllCalls(perBatch), order, released, runs)
    ensures |merged| == |first| == |again| == |AllCalls(perBatch)|
    ensures first == Tasks(review.cfg, review.count, AllCalls(perBatch), worlds)
    ensures forall i :: 0 <= i < |merged| ==>
              i in runs && Did(review.cfg, review.count, AllCalls(perBatch)[i], worlds(i), runs[i], first[i])
              && Retried(review.cfg, review.count, AllCalls(perBatch)[i], first[i], rescues(i), again[i], merged[i])
    ensures forall i :: 0 <= i < |merged| ==>
              RanCall(AllCalls(perBatch)[i], review.cfg.maxFindingsPerLens, runs[i] + again[i], merged[i])
              && |runs[i] + again[i]| <= 2 * CallBound(AllCalls(perBatch)[i])
    ensures (forall i :: i in order ==> i in runs)
            && review.made == old(review.made) + Trace(runs, order) + Flatten(again)
    ensures Honest(old(review.Disclosures()), review.Disclosures(), Trace(runs, order) + Flatten(again),
                   review.cfg, false, false)
  {
    hide Honest, RanCall, CallBound, RescuedOnce, AllCalls, Waited, Shape, Trace, Flatten, Task, SecondChance, Tasks, Opens;
    ghost var cap := review.cfg.maxFindingsPerLens;
    var outcomes;
    outcomes, order, released, runs := RunPool(review, perBatch, worlds);
    first := outcomes;
    var calls := AllCalls(perBatch);
    ghost var d := review.Disclosures();
    merged, again := Rescue(review, calls, outcomes, rescues);
    HonestThen(old(review.Disclosures()), d, review.Disclosures(), Trace(runs, order), Flatten(again),
               review.cfg, false, false, false, false);
    forall i | 0 <= i < |merged|
      ensures RanCall(calls[i], cap, runs[i] + again[i], merged[i]) && |runs[i] + again[i]| <= 2 * CallBound(calls[i])
    {
      RescueRuns(calls[i], cap, first[i], runs[i], again[i], merged[i]);
    }
  }

  // ---------------------------------------------------------------------
  // Reading the record
  // ---------------------------------------------------------------------

  lemma {:induction false} InTrace(runs: map<nat, Log>, order: seq<nat>, c: Completion) returns (i: nat)
    requires (forall j :: j in order ==> j in runs) && c in Trace(runs, order)
    ensures i in order && c in runs[i]
  {
    var front, last := order[..|order| - 1], order[|order| - 1];
    if c in Trace(runs, front) {
      i := InTrace(runs, front, c);
    } else {
      i := last;
    }
  }

  lemma {:induction false} InParts(parts: seq<Log>, c: Completion) returns (i: nat)
    requires c in Flatten(parts)
    ensures i < |parts| && c in parts[i]
  {
    if c in parts[0] {
      i := 0;
    } else {
      i := InParts(parts[1..], c);
      i := i + 1;
    }
  }

  /** The question was answered at once, with nothing to report and nothing to disclose. */
  predicate IsPlain(c: Completion, cfg: Config) {
    && c.Ask? && c.reply == Parsed([], []) && c.schema == cfg.structuredOutput && !c.lowered && !c.fallback
    && !OtherModel(c, cfg)
  }

  lemma CleanCall(cfg: Config, count: Counter, call: PreparedCall, w: World, log: Log, outcome: Outcome)
    requires Did(cfg, count, call, w, log, outcome) && Clean(w, cfg)
    ensures outcome == Outcome([], None) && |log| == 1 && IsPlain(log[0], cfg)
  {
    CleanRun(cfg, count, w, call.lens, call.units);
    hide RanCall, CallBound, Reviewed;
    assert StopAt(w, 1).None?;
  }

  /** Against a world that answers every call cleanly no call is repeated and every completion is a plain one. */
  lemma CleanFanOut(cfg: Config, count: Counter, calls: seq<PreparedCall>, worlds: nat -> World, rescues: nat -> World,
                    order: seq<nat>, runs: map<nat, Log>, first: seq<Outcome>, again: seq<Log>, merged: seq<Outcome>)
    requires |merged| == |first| == |again| == |calls|
    requires (forall i :: i in order ==> i in runs && i < |calls|)
    requires forall i :: 0 <= i < |calls| ==>
               i in runs && Did(cfg, count, calls[i], worlds(i), runs[i], first[i])
               && Retried(cfg, count, calls[i], first[i], rescues(i), again[i], merged[i])
    requires forall i :: Clean(worlds(i), cfg)
    ensures forall i :: 0 <= i < |merged| ==> merged[i] == Outcome([], None)
    ensures forall c :: c in Trace(runs, order) + Flatten(again) ==> IsPlain(c, cfg)
  {
    hide Did, Trace, Flatten, IsPlain, Clean;
    forall i | 0 <= i < |calls|
      ensures again[i] == [] && merged[i] == Outcome([], None) && |runs[i]| == 1 && IsPlain(runs[i][0], cfg)
    {
      CleanCall(cfg, count, calls[i], worlds(i), runs[i], first[i]);
      assert !Rescuable(first[i].error);
    }
    forall c | c in Trace(runs, order) + Flatten(again)
      ensures IsPlain(c, cfg)
    {
      if c in Trace(runs, order) {
        var i := InTrace(runs, order, c);
      } else {
        var i := InParts(again, c);
      }
    }
  }

  lemma {:induction false} PartsEnd(parts: seq<Log>)
    requires forall i :: 0 <= i < |parts| ==> parts[i] == [] || EndsAnswered(parts[i])
    ensures if forall i :: 0 <= i < |parts| ==> parts[i] == [] then Flatten(parts) == [] else EndsAnswered(Flatten(parts))
  {
    if parts != [] {
      PartsEnd(parts[1..]);
      assert Flatten(parts) == parts[0] + Flatten(parts[1..]);
      assert forall i :: 0 < i < |parts| ==> parts[i] == parts[1..][i - 1];
    }
  }

  /** When every call came to a success, the last completion of all is an answer. */
  lemma RecordEndsAnswered(calls: seq<PreparedCall>, cap: nat, order: seq<nat>, runs: map<nat, Log>, again: seq<Log>, merged: seq<Outcome>)
    requires |merged| == |again| == |calls| > 0
    requires forall i :: i in order <==> 0 <= i < |calls|
    requires forall i :: 0 <= i < |calls| ==>
               i in runs && RanCall(calls[i], cap, runs[i] + again[i], merged[i]) && merged[i].error.None?
    ensures EndsAnswered(Trace(runs, order) + Flatten(again))
  {
    hide AllCovered, Gathered, OfLens, Owed;
    forall i | 0 <= i < |calls|
      ensures EndsAnswered(runs[i] + again[i]) && (again[i] == [] || EndsAnswered(again[i]))
    {
      assert EndsAnswered(runs[i] + again[i]);
    }
    PartsEnd(again);
    assert 0 in order;
    if forall i :: 0 <= i < |again| ==> again[i] == [] {
      var last := order[|order| - 1];
      assert last in order;
      assert runs[last] + again[last] == runs[last];
      TraceEnds(runs, order);
    }
  }

  lemma TraceEnds(runs: map<nat, Log>, order: seq<nat>)
    requires (forall i :: i in order ==> i in runs) && order != [] && EndsAnswered(runs[order[|order| - 1]])
    ensures EndsAnswered(Trace(runs, order))
  {
  }
}
