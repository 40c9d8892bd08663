/** The vocabulary of the recovery ladder: replies, reasons, the record of completions (`engine/engine.py`). */
module Ladder {
  import opened Wrappers
  import opened DiffParse
  import opened Patches
  import opened Findings
  import opened RankSort
  import opened Retrieve

  /** A lens; a merged one lists the categories its findings may keep. */
  datatype Lens = Lens(id: string, allowed: Option<set<string>>)

  // ---------------------------------------------------------------------
  // Replies and reasons
  // ---------------------------------------------------------------------

  /** What a provider may answer to one lens call. Nothing is assumed about when it answers what. */
  datatype Reply =
    | Parsed(findings: seq<Finding>, needs: seq<string>)
    | Unparseable(reformattable: bool)
    | BodyCut(recovered: seq<Finding>)      // truncation seen in the body
    | CeilingCut(salvage: seq<Finding>, reasoning: Option<nat>, ceiling: Option<nat>)
    | WallTimeout(unrecoverable: bool)
    | PromptTooLarge
    | OtherFailure(unrecoverable: bool)

  predicate CameBack(r: Reply) { r.Parsed? || r.Unparseable? || r.BodyCut? }

  /** The ceiling went on thought: at least nine tenths of it, both counts being known and not zero. */
  predicate Exhausted(r: Reply) {
    r.CeilingCut? && r.reasoning.Some? && r.ceiling.Some?
    && r.reasoning.value != 0 && r.ceiling.value != 0
    && !(10 * r.reasoning.value < 9 * r.ceiling.value)
  }

  predicate PayloadSized(r: Reply) { r.CeilingCut? || r.WallTimeout? || r.PromptTooLarge? }

  /** The provider faltered in a way an identical later call could survive. */
  predicate Faltered(r: Reply) {
    (r.WallTimeout? && !r.unrecoverable) || (r.OtherFailure? && !r.unrecoverable)
  }

  datatype What = DeadlineSkip | BudgetSkip | InterruptSkip | ProviderFailure | ThoughtExhausted | NotParsed | CutOff

  /** A plain reason is final; the other two marks are worth a rescue; a payload mark also says the payload was too big. */
  datatype Mark = Final | Retryable | Payload

  datatype Reason = Reason(what: What, mark: Mark)

  predicate Rescuable(error: Option<Reason>) { error.Some? && error.value.mark != Final }

  /** The call was not made at all. */
  predicate IsSkip(what: What) { what.DeadlineSkip? || what.BudgetSkip? || what.InterruptSkip? }

  function FailureReason(r: Reply): Reason
    requires !r.Parsed? && !r.Unparseable? && !r.BodyCut?
  {
    Reason(ProviderFailure, if !Faltered(r) then Final else if r.WallTimeout? then Payload else Retryable)
  }

  /** The reply is one that this reason reports. */
  predicate Shows(r: Reply, what: What) {
    match what
    case ProviderFailure => PayloadSized(r) || r.OtherFailure?
    case ThoughtExhausted => Exhausted(r)
    case NotParsed => r.Unparseable?
    case CutOff => r.BodyCut?
    case _ => true
  }

  // ---------------------------------------------------------------------
  // The record of completions
  // ---------------------------------------------------------------------

  /** The model the review is configured with, and its fallback. */
  datatype Model = Primary | Second

  /** What the adapter remembers: the models it no longer sends the schema to, and those that refused a reasoning effort. */
  datatype Adapter = Adapter(off: set<Model>, refused: set<Model>)

  predicate Leq(a: Adapter, b: Adapter) { a.off <= b.off && a.refused <= b.refused }

  function Learn(a: Adapter, more: Adapter): (r: Adapter)
    ensures Leq(a, r) && Leq(more, r)
  {
    Adapter(a.off + more.off, a.refused + more.refused)
  }

  /** What a lens is shown: the diff, and the files fetched for a deferral. */
  datatype Prompt = Prompt(diff: seq<Line>, context: seq<Entry>)

  /**
    One completion: a lens call with its prompt, the options it was asked with, whether
    the adapter switched model by itself, what the adapter learnt in it, and the
    adapter's memory after it; or a reformat of a reply to that prompt.
   */
  datatype Completion =
    | Ask(lens: string, prompt: Prompt, schema: bool, lowered: bool, fallback: bool, switched: bool, learnt: Adapter, adapter: Adapter, reply: Reply)
    | Reformat(lens: string, prompt: Prompt, learnt: Adapter, adapter: Adapter, repair: Option<seq<Finding>>)

  predicate IsAsk(c: Completion, lens: string, prompt: Prompt, schema: bool, lowered: bool, fallback: bool) {
    c.Ask? && c.lens == lens && c.prompt == prompt && c.schema == schema && c.lowered == lowered && c.fallback == fallback
  }

  /** The model that ran last for this completion. */
  function By(c: Completion): Model { if c.Ask? && (c.fallback || c.switched) then Second else Primary }

  /** The request that was answered carried the schema: it was asked for and not taken out for this model. */
  predicate SentSchema(c: Completion) { c.Ask? && c.schema && By(c) !in c.adapter.off }

  /** The request that was answered went out at the configured effort. */
  predicate SentEffort(c: Completion) { c.Ask? && !c.lowered && By(c) !in c.adapter.refused }

  /** The settings a lens call reads. `fetcher` is present when a lens may defer for context. */
  datatype Config = Config(
    structuredOutput: bool,
    repairUnparseable: bool,
    retryWithoutSchema: bool,
    maxFindingsPerLens: nat,
    model: Option<string>,          // the names the provider reports, if it reports any
    fallbackModel: Option<string>,
    fetcher: Option<Env>)

  /** The provider names its models, and the two apart. */
  predicate NamesModels(cfg: Config) {
    cfg.model.Some? && cfg.fallbackModel.Some? && cfg.model != cfg.fallbackModel
  }

  /** The completion produced the lens's answer about its payload. */
  predicate Answered(c: Completion) {
    if c.Ask? then c.reply.Parsed? else c.repair.Some?
  }

  type Log = seq<Completion>

  /** Some answered call of this lens had the changed line in its payload. */
  ghost predicate CoveredBy(log: Log, lens: string, c: Change) {
    exists i :: 0 <= i < |log| && Answered(log[i]) && log[i].lens == lens && c in Changes(log[i].prompt.diff)
  }

  ghost predicate AllCovered(log: Log, lens: string, cs: seq<Change>) {
    forall c :: c in cs ==> CoveredBy(log, lens, c)
  }

  lemma CoveredPart(a: Log, part: Log, b: Log, lens: string, cs: seq<Change>)
    requires AllCovered(part, lens, cs)
    ensures AllCovered(a + part + b, lens, cs)
  {
    var log := a + part + b;
    forall c | c in cs
      ensures CoveredBy(log, lens, c)
    {
      assert CoveredBy(part, lens, c);
      var i :| 0 <= i < |part| && Answered(part[i]) && part[i].lens == lens && c in Changes(part[i].prompt.diff);
      assert log[|a| + i] == part[i];
    }
  }

  /** An answered call covers its own payload. */
  lemma CoveredByLast(log: Log, lens: string, payload: seq<Line>)
    requires log != []
    requires var last := log[|log| - 1]; Answered(last) && last.lens == lens && last.prompt.diff == payload
    ensures AllCovered(log, lens, Changes(payload))
  {
    forall c | c in Changes(payload)
      ensures CoveredBy(log, lens, c)
    {
      assert c in Changes(log[|log| - 1].prompt.diff);
    }
  }

  /** The calls bear the reason out: a reply it reports was given, and a rescuable one has a provider that faltered. */
  ghost predicate Backed(log: Log, reason: Reason) {
    && (!IsSkip(reason.what) ==> exists i :: 0 <= i < |log| && log[i].Ask? && Shows(log[i].reply, reason.what))
    && (reason.mark != Final ==> exists i :: 0 <= i < |log| && log[i].Ask? && Faltered(log[i].reply))
  }

  lemma BackedPart(a: Log, part: Log, b: Log, reason: Reason)
    requires Backed(part, reason)
    ensures Backed(a + part + b, reason)
  {
    var log := a + part + b;
    if !IsSkip(reason.what) {
      var i :| 0 <= i < |part| && part[i].Ask? && Shows(part[i].reply, reason.what);
      assert log[|a| + i] == part[i];
    }
    if reason.mark != Final {
      var i :| 0 <= i < |part| && part[i].Ask? && Faltered(part[i].reply);
      assert log[|a| + i] == part[i];
    }
  }

  // ---------------------------------------------------------------------
  // Stamping and bounding what one call contributes
  // ---------------------------------------------------------------------

  /** Advice of these categories is never graded above medium. */
  const ADVISORY := {"complexity", "ponytail", "documentation", "tests"}

  /** The finding under its lens's category, or its own if the lens covers it, and no graver than the category may be. */
  function Stamp(f: Finding, lens: Lens): Finding {
    var category := if lens.allowed.Some? && f.category in lens.allowed.value then f.category else lens.id;
    var severity := if category in ADVISORY && f.severity.Rank() > Medium.Rank() then Medium else f.severity;
    f.(category := category, severity := severity)
  }

  function StampAll(fs: seq<Finding>, lens: Lens): (r: seq<Finding>)
    ensures |r| == |fs| && forall i :: 0 <= i < |r| ==> r[i] == Stamp(fs[i], lens)
  {
    seq(|fs|, i requires 0 <= i < |fs| => Stamp(fs[i], lens))
  }

  function BySeverity(fs: seq<Finding>): (r: seq<(Finding, int)>)
    ensures |r| == |fs| && forall i :: 0 <= i < |r| ==> r[i] == (fs[i], fs[i].severity.Rank())
  {
    if fs == [] then [] else [(fs[0], fs[0].severity.Rank())] + BySeverity(fs[1..])
  }

  lemma {:induction false} ItemsAt<T>(s: seq<(T, int)>)
    ensures |Items(s)| == |s| && forall i :: 0 <= i < |s| ==> Items(s)[i] == s[i].0
  {
    if s != [] {
      ItemsAt(s[1..]);
    }
  }

  lemma {:induction false} SortedLength(fs: seq<Finding>)
    ensures |Items(SortByRank(BySeverity(fs)))| == |fs|
    ensures multiset(Items(SortByRank(BySeverity(fs)))) == multiset(Items(BySeverity(fs)))
  {
    SortKeepsItems(BySeverity(fs));
    ItemsAt(BySeverity(fs));
    assert |multiset(Items(SortByRank(BySeverity(fs))))| == |multiset(Items(BySeverity(fs)))|;
  }

  /** The findings of one call that count: all of them, or the most severe `cap` of them. */
  function Bounded(stamped: seq<Finding>, cap: nat): seq<Finding> {
    if cap == 0 || |stamped| <= cap then stamped
    else
      SortedLength(stamped);
      Items(SortByRank(BySeverity(stamped)))[..cap]
  }

  lemma {:induction false} RanksAreSeverities(s: seq<(Finding, int)>, t: seq<(Finding, int)>)
    requires multiset(s) == multiset(t) && forall i :: 0 <= i < |t| ==> t[i].1 == t[i].0.severity.Rank()
    ensures forall i :: 0 <= i < |s| ==> s[i].1 == s[i].0.severity.Rank()
  {
    forall i | 0 <= i < |s|
      ensures s[i].1 == s[i].0.severity.Rank()
    {
      assert s[i] in multiset(t);
    }
  }

  /** The bound drops the least severe: nothing dropped is more severe than anything kept, and nothing else is lost. */
  lemma BoundKeepsTheSevere(stamped: seq<Finding>, cap: nat) returns (dropped: seq<Finding>)
    requires 0 < cap < |stamped|
    ensures |Bounded(stamped, cap)| == cap
    ensures multiset(Bounded(stamped, cap) + dropped) == multiset(stamped)
    ensures forall k, d :: k in Bounded(stamped, cap) && d in dropped ==> k.severity.Rank() >= d.severity.Rank()
  {
    SortedLength(stamped);
    dropped := Items(SortByRank(BySeverity(stamped)))[cap..];
    SeverestFirst(stamped);
    var all := Items(SortByRank(BySeverity(stamped)));
    hide SortByRank, BySeverity, Items;
    assert all == all[..cap] + dropped;
    forall k, d | k in all[..cap] && d in dropped
      ensures k.severity.Rank() >= d.severity.Rank()
    {
      var i :| 0 <= i < cap && all[i] == k;
      var j :| cap <= j < |all| && all[j] == d;
    }
  }

  lemma SeverestFirst(stamped: seq<Finding>)
    ensures var all := Items(SortByRank(BySeverity(stamped)));
            multiset(all) == multiset(stamped)
            && forall i, j :: 0 <= i < j < |all| ==> all[i].severity.Rank() >= all[j].severity.Rank()
  {
    var s := SortByRank(BySeverity(stamped));
    SortIsStable(BySeverity(stamped), 0);
    SortKeepsItems(BySeverity(stamped));
    ItemsAt(s);
    ItemsAt(BySeverity(stamped));
    assert Items(BySeverity(stamped)) == stamped;
    RanksAreSeverities(s, BySeverity(stamped));
    hide SortByRank, BySeverity, Items;
    forall i, j | 0 <= i < j < |Items(s)|
      ensures Items(s)[i].severity.Rank() >= Items(s)[j].severity.Rank()
    {
      assert s[i].1 >= s[j].1;
    }
  }

  /** The findings a model completed before its output ceiling cut it off. */
  function Salvage(r: Reply): seq<Finding> {
    if r.CeilingCut? then r.salvage else []
  }

  /** The findings in a reply that came back. */
  function ReplyFindings(r: Reply): seq<Finding> {
    if r.Parsed? then r.findings else if r.BodyCut? then r.recovered else []
  }

  /** What one completion offers, whatever became of the call. */
  function Offered(c: Completion): seq<Finding> {
    match c
    case Reformat(_, _, _, _, repair) => if repair.Some? then repair.value else []
    case Ask(_, _, _, _, _, _, _, _, reply) => if PayloadSized(reply) then Salvage(reply) else ReplyFindings(reply)
  }

  /** Everything the completions offered, stamped and bounded call by call, in order. */
  function Gathered(log: Log, lens: Lens, cap: nat): seq<Finding> {
    if log == [] then [] else Bounded(StampAll(Offered(log[0]), lens), cap) + Gathered(log[1..], lens, cap)
  }

  lemma {:induction false} GatheredConcat(a: Log, b: Log, lens: Lens, cap: nat)
    ensures Gathered(a + b, lens, cap) == Gathered(a, lens, cap) + Gathered(b, lens, cap)
  {
    hide Bounded, Offered, StampAll;
    if a == [] {
      assert a + b == b;
    } else {
      assert (a + b)[1..] == a[1..] + b;
      GatheredConcat(a[1..], b, lens, cap);
      Assoc(Bounded(StampAll(Offered(a[0]), lens), cap), Gathered(a[1..], lens, cap), Gathered(b, lens, cap));
    }
  }

  lemma GatheredOne(c: Completion, lens: Lens, cap: nat)
    ensures Gathered([c], lens, cap) == Bounded(StampAll(Offered(c), lens), cap)
  {
    hide Bounded, Offered, StampAll;
    assert [c][1..] == [];
    assert Gathered([], lens, cap) == [];
  }

  // ---------------------------------------------------------------------
  // What becomes of the findings in a reply
  // ---------------------------------------------------------------------

  /**
    `g` is the finding `f` as a lens returns it: the same claim at the same place,
    under the lens's category or its own if the lens covers that, and no graver
    than advice of the category may be.
   */
  ghost predicate Returns(lens: Lens, f: Finding, g: Finding) {
    && g.path == f.path && g.line == f.line && g.side == f.side && g.body == f.body && g.anchor == f.anchor
    && g.anchored == f.anchored && g.broad == f.broad && g.confidence == f.confidence
    && (if lens.allowed.Some? && f.category in lens.allowed.value then g.category == f.category else g.category == lens.id)
    && (g.severity == f.severity
        || (g.category in {"complexity", "ponytail", "documentation", "tests"} && g.severity == Medium && f.severity in {High, Critical}))
    && (g.category in {"complexity", "ponytail", "documentation", "tests"} ==> g.severity !in {High, Critical})
  }

  lemma StampReturns(f: Finding, lens: Lens)
    ensures Returns(lens, f, Stamp(f, lens))
  {
  }

  /** `part` is these findings as the lens returns them, all of them and in order. */
  ghost predicate AllReturned(lens: Lens, fs: seq<Finding>, part: seq<Finding>) {
    |part| == |fs| && forall k :: 0 <= k < |fs| ==> Returns(lens, fs[k], part[k])
  }

  /**
    What one completion's findings come to: all of them, if there is no cap or they
    are within it; else as many as the cap, the severest first and of equals the first.
   */
  ghost predicate Contributes(lens: Lens, cap: nat, fs: seq<Finding>, part: seq<Finding>) {
    if cap == 0 || |fs| <= cap then AllReturned(lens, fs, part)
    else
      exists all, at :: AllReturned(lens, fs, all) && |part| == cap && Severest(all, part, at)
  }

  /** Finding `i` is graver than finding `j`, or as grave and before it. */
  predicate Graver(all: seq<Finding>, i: nat, j: nat)
    requires i < |all| && j < |all|
  {
    all[i].severity.Rank() > all[j].severity.Rank() || (all[i].severity.Rank() == all[j].severity.Rank() && i < j)
  }

  /** The part is of the gravest, gravest first; `at` says which they are. */
  ghost predicate Severest(all: seq<Finding>, part: seq<Finding>, at: seq<nat>) {
    && |at| == |part| && (forall k :: 0 <= k < |at| ==> at[k] < |all| && part[k] == all[at[k]])
    && (forall k, l :: 0 <= k < l < |at| ==> Graver(all, at[k], at[l]))
    && (forall k, i: nat :: 0 <= k < |at| && i < |all| && i !in at ==> Graver(all, at[k], i))
  }

  /** The bound keeps the gravest, and of equals the first. */
  lemma BoundIsSeverest(all: seq<Finding>, cap: nat) returns (at: seq<nat>)
    requires 0 < cap < |all|
    ensures |Bounded(all, cap)| == cap && Severest(all, Bounded(all, cap), at)
  {
    hide *;
    var pairs := RankedPairs(all);
    var sorted := SortByRank<nat>(pairs);
    SortOrders(pairs);
    SortPlaced(all, pairs);
    KeptAre(all, sorted, cap);
    at := PlacesKept(all, pairs, sorted, cap);
  }

  lemma RankedPairs(all: seq<Finding>) returns (pairs: seq<Rung>)
    ensures |pairs| == |all| && forall i :: 0 <= i < |all| ==> pairs[i] == (i, all[i].severity.Rank())
    ensures forall i, j :: 0 <= i < j < |pairs| ==> pairs[i].0 < pairs[j].0
    ensures Within(pairs, |all|) && Placed(all, pairs) == BySeverity(all)
  {
    pairs := seq(|all|, i requires 0 <= i < |all| => (i, all[i].severity.Rank()));
  }

  lemma KeptAre(all: seq<Finding>, sorted: seq<Rung>, cap: nat)
    requires 0 < cap < |all| && Within(sorted, |all|) && Placed(all, sorted) == SortByRank(BySeverity(all))
    ensures |sorted| == |all| && (forall k :: 0 <= k < |sorted| ==> sorted[k].0 < |all|)
    ensures Bounded(all, cap) == seq(cap, k requires 0 <= k < cap => all[sorted[k].0])
  {
    SortedLength(all);
    ItemsAt(SortByRank(BySeverity(all)));
    hide SortByRank, BySeverity, Items;
  }

  /** The places of the first `cap` of the sorted findings. */
  lemma PlacesKept(all: seq<Finding>, pairs: seq<Rung>, sorted: seq<Rung>, cap: nat) returns (at: seq<nat>)
    requires InOrder(sorted) && (forall p :: p in sorted <==> p in pairs) && Within(sorted, |all|) && cap <= |sorted|
    requires |pairs| == |all| && forall i :: 0 <= i < |all| ==> pairs[i] == (i, all[i].severity.Rank())
    ensures forall k :: 0 <= k < |sorted| ==> sorted[k].0 < |all|
    ensures Severest(all, seq(cap, k requires 0 <= k < cap => all[sorted[k].0]), at)
  {
    at := seq(cap, k requires 0 <= k < cap => sorted[k].0);
    forall k | 0 <= k < |sorted|
      ensures sorted[k].1 == all[sorted[k].0].severity.Rank()
    {
      assert sorted[k] in pairs;
    }
    forall k, i: nat | 0 <= k < |at| && i < |all| && i !in at
      ensures Graver(all, at[k], i)
    {
      assert pairs[i] in sorted;
      var l :| 0 <= l < |sorted| && sorted[l] == pairs[i];
      forall m | 0 <= m < cap
        ensures sorted[m].0 != i
      {
        assert at[m] in at;
      }
      assert Ahead(sorted[k], sorted[l]);
    }
    forall k, l | 0 <= k < l < |at|
      ensures Graver(all, at[k], at[l])
    {
      assert Ahead(sorted[k], sorted[l]);
    }
  }

  /** What each kind of completion contributes: the findings in its reply or its reformat, or nothing. */
  ghost predicate FromReply(lens: Lens, cap: nat, c: Completion, part: seq<Finding>) {
    match c
    case Reformat(_, _, _, _, Some(fs)) => Contributes(lens, cap, fs, part)
    case Reformat(_, _, _, _, None) => part == []
    case Ask(_, _, _, _, _, _, _, _, Parsed(fs, _)) => Contributes(lens, cap, fs, part)
    case Ask(_, _, _, _, _, _, _, _, BodyCut(fs)) => Contributes(lens, cap, fs, part)
    case Ask(_, _, _, _, _, _, _, _, CeilingCut(fs, _, _)) => Contributes(lens, cap, fs, part)
    case Ask(_, _, _, _, _, _, _, _, _) => part == []
  }

  /** The findings are what the completions contribute, one completion's after another, and nothing else. */
  ghost predicate Delivered(lens: Lens, cap: nat, log: Log, findings: seq<Finding>) {
    if log == [] then findings == []
    else
      exists k :: 0 <= k <= |findings| && FromReply(lens, cap, log[0], findings[..k]) && Delivered(lens, cap, log[1..], findings[k..])
  }

  lemma BoundContributes(fs: seq<Finding>, lens: Lens, cap: nat)
    ensures Contributes(lens, cap, fs, Bounded(StampAll(fs, lens), cap))
  {
    var all := StampAll(fs, lens);
    forall k | 0 <= k < |fs|
      ensures Returns(lens, fs[k], all[k])
    {
      StampReturns(fs[k], lens);
    }
    hide Returns, StampAll, Bounded;
    BoundIs(all, cap);
    if !(cap == 0 || |fs| <= cap) {
      var at := BoundIsSeverest(all, cap);
      assert AllReturned(lens, fs, all);
    }
  }

  lemma BoundIs(stamped: seq<Finding>, cap: nat)
    ensures cap == 0 || |stamped| <= cap ==> Bounded(stamped, cap) == stamped
  {
  }

  lemma OfferedContributes(c: Completion, lens: Lens, cap: nat)
    ensures FromReply(lens, cap, c, Bounded(StampAll(Offered(c), lens), cap))
  {
    BoundContributes(Offered(c), lens, cap);
    hide Contributes;
    assert Offered(c) == [] ==> Bounded(StampAll(Offered(c), lens), cap) == [];
    hide Bounded, StampAll;
  }

  /** Everything gathered is so delivered. */
  lemma {:induction false} GatheredIsDelivered(log: Log, lens: Lens, cap: nat)
    ensures Delivered(lens, cap, log, Gathered(log, lens, cap))
  {
    hide FromReply, Bounded, StampAll, Offered;
    if log != [] {
      var own, rest := Bounded(StampAll(Offered(log[0]), lens), cap), Gathered(log[1..], lens, cap);
      OfferedContributes(log[0], lens, cap);
      GatheredIsDelivered(log[1..], lens, cap);
      assert Gathered(log, lens, cap)[..|own|] == own && Gathered(log, lens, cap)[|own|..] == rest;
    }
  }

  /** So every finding in a reply within the cap is among those delivered. */
  lemma {:induction false} DeliveredEach(lens: Lens, cap: nat, log: Log, findings: seq<Finding>, i: nat, fs: seq<Finding>, f: Finding)
    returns (g: Finding)
    requires Delivered(lens, cap, log, findings) && i < |log| && f in fs && (cap == 0 || |fs| <= cap)
    requires match log[i]
             case Reformat(_, _, _, _, repair) => repair == Some(fs)
             case Ask(_, _, _, _, _, _, _, _, reply) =>
               (reply.Parsed? && reply.findings == fs) || (reply.BodyCut? && reply.recovered == fs) || (reply.CeilingCut? && reply.salvage == fs)
    ensures g in findings && Returns(lens, f, g)
  {
    hide Returns;
    var k :| 0 <= k <= |findings| && FromReply(lens, cap, log[0], findings[..k]) && Delivered(lens, cap, log[1..], findings[k..]);
    if i == 0 {
      var j :| 0 <= j < |fs| && fs[j] == f;
      assert AllReturned(lens, fs, findings[..k]);
      g := findings[..k][j];
    } else {
      g := DeliveredEach(lens, cap, log[1..], findings[k..], i - 1, fs, f);
    }
  }

  // ---------------------------------------------------------------------
  // What every rung of the ladder leaves behind
  // ---------------------------------------------------------------------

  predicate OfLens(log: Log, lens: string) {
    forall i :: 0 <= i < |log| ==> log[i].lens == lens
  }

  predicate EndsAnswered(log: Log) { log != [] && Answered(log[|log| - 1]) }

  /**
    The calls are this lens's own and the findings are exactly what they offered;
    a success ends in an answer and covers every change of `cs`; and the calls bear an error out.
   */
  ghost predicate Ran(lens: Lens, cap: nat, cs: seq<Change>, log: Log, findings: seq<Finding>, error: Option<Reason>) {
    && OfLens(log, lens.id)
    && findings == Gathered(log, lens, cap)
    && (error.None? ==> AllCovered(log, lens.id, cs) && EndsAnswered(log))
    && (error.Some? ==> Backed(log, error.value))
  }

  /** What ran delivered what its replies held. */
  lemma RanDelivers(lens: Lens, cap: nat, cs: seq<Change>, log: Log, findings: seq<Finding>, error: Option<Reason>)
    requires Ran(lens, cap, cs, log, findings, error)
    ensures Delivered(lens, cap, log, findings)
  {
    hide Gathered, Delivered, AllCovered, Backed, OfLens;
    GatheredIsDelivered(log, lens, cap);
  }

  /** What a call owes its batch: the changes of its payload, so long as a batch it may split is of clean patches. */
  ghost function Owed(payload: seq<Line>, batch: seq<Unit>, whole: bool): seq<Change> {
    if whole && !AllClean(batch) then [] else Changes(payload)
  }

  lemma RanOwed(lens: Lens, cap: nat, payload: seq<Line>, batch: seq<Unit>, whole: bool,
                log: Log, findings: seq<Finding>, error: Option<Reason>)
    requires Ran(lens, cap, Changes(payload), log, findings, error)
    ensures Ran(lens, cap, Owed(payload, batch, whole), log, findings, error)
  {
    hide OfLens, Gathered, Backed, CoveredBy, AllClean;
  }

  /** Two rungs, one after the other: a success needs one of them to cover, a reason one of them to bear it out. */
  lemma RanBoth(lens: Lens, cap: nat, cs: seq<Change>, a: Log, fa: seq<Finding>, b: Log, fb: seq<Finding>, error: Option<Reason>)
    requires OfLens(a, lens.id) && fa == Gathered(a, lens, cap)
    requires OfLens(b, lens.id) && fb == Gathered(b, lens, cap)
    requires error.None? ==> AllCovered(a, lens.id, cs) || AllCovered(b, lens.id, cs)
    requires error.None? ==> if b == [] then EndsAnswered(a) else EndsAnswered(b)
    requires error.Some? ==> Backed(a, error.value) || Backed(b, error.value)
    ensures Ran(lens, cap, cs, a + b, fa + fb, error)
  {
    hide AllCovered, Backed, Gathered;
    GatheredConcat(a, b, lens, cap);
    assert a + b + [] == a + b && [] + a + b == a + b;
    if error.None? {
      if AllCovered(a, lens.id, cs) {
        CoveredPart([], a, b, lens.id, cs);
      } else {
        CoveredPart(a, b, [], lens.id, cs);
      }
    } else if Backed(a, error.value) {
      BackedPart([], a, b, error.value);
    } else {
      BackedPart(a, b, [], error.value);
    }
  }

  /** A failure followed by a rung that either ran or handed the reason back. */
  lemma RanAfter(lens: Lens, cap: nat, cs: seq<Change>, a: Log, fa: seq<Finding>, reason: Reason,
                 b: Log, fb: seq<Finding>, ran: bool, error: Option<Reason>)
    requires Ran(lens, cap, cs, a, fa, Some(reason))
    requires ran ==> Ran(lens, cap, cs, b, fb, error)
    requires !ran ==> b == [] && fb == [] && error == Some(reason)
    ensures Ran(lens, cap, cs, a + b, fa + fb, error)
  {
    hide AllCovered, Backed, OfLens;
    if !ran {
      assert a + b == a && fa + fb == fa;
    } else {
      RanBoth(lens, cap, cs, a, fa, b, fb, error);
    }
  }

  /** A failure followed by a rung whose success counts and whose own reason is not reported. */
  lemma RanKeeping(lens: Lens, cap: nat, cs: seq<Change>, a: Log, fa: seq<Finding>, reason: Reason,
                   b: Log, fb: seq<Finding>, ran: bool, error: Option<Reason>)
    requires Ran(lens, cap, cs, a, fa, Some(reason))
    requires ran ==> Ran(lens, cap, cs, b, fb, error)
    requires !ran ==> b == [] && fb == [] && error == Some(reason)
    ensures Ran(lens, cap, cs, a + b, fa + fb, if error.None? then None else Some(reason))
  {
    hide AllCovered, Backed, OfLens;
    if !ran {
      assert a + b == a && fa + fb == fa;
    } else {
      RanBoth(lens, cap, cs, a, fa, b, fb, if error.None? then None else Some(reason));
    }
  }

  /** An answer that deferred: whatever the re-run comes to, the first answer still covers. */
  lemma RanDeferred(lens: Lens, cap: nat, cs: seq<Change>, a: Log, fa: seq<Finding>, b: Log, error: Option<Reason>)
    requires Ran(lens, cap, cs, a, fa, None) && OfLens(b, lens.id)
    requires error.None? && b != [] ==> EndsAnswered(b)
    requires error.Some? ==> Backed(b, error.value)
    ensures Ran(lens, cap, cs, a + b, fa + Gathered(b, lens, cap), error)
  {
    hide AllCovered, Backed, OfLens;
    RanBoth(lens, cap, cs, a, fa, b, Gathered(b, lens, cap), error);
  }

  // ---------------------------------------------------------------------
  // Which replies end a call at once
  // ---------------------------------------------------------------------

  /** The reply ends the call: no remedy applies to it, or the call may use none. */
  predicate Settles(r: Reply, whole: bool, defers: bool, lowered: bool, recover: bool, fallback: bool) {
    match r
    case Parsed(_, needs) => !defers || needs == []
    case Unparseable(_) => !recover
    case BodyCut(_) => true
    case OtherFailure(_) => true
    case _ => if Exhausted(r) then lowered || fallback else !whole
  }

  /** What a reply comes to by itself. */
  function Outcome(r: Reply): Option<Reason> {
    match r
    case Parsed(_, _) => None
    case Unparseable(_) => Some(Reason(NotParsed, Final))
    case BodyCut(_) => Some(Reason(CutOff, Final))
    case _ => Some(if Exhausted(r) then Reason(ThoughtExhausted, Final) else FailureReason(r))
  }

  /** A first call on its own. */
  lemma RanFirst(lens: Lens, cap: nat, payload: seq<Line>, first: Completion)
    requires first.Ask? && first.lens == lens.id && first.prompt.diff == payload
    ensures Ran(lens, cap, Changes(payload), [first], Bounded(StampAll(Offered(first), lens), cap), Outcome(first.reply))
    ensures Offered(first) == [] ==> Bounded(StampAll(Offered(first), lens), cap) == []
  {
    assert Offered(first) == [] ==> Bounded(StampAll(Offered(first), lens), cap) == [];
    GatheredOne(first, lens, cap);
    hide Bounded, Offered, StampAll, Gathered, AllCovered;
    if first.reply.Parsed? {
      CoveredByLast([first], lens.id, payload);
    } else {
      assert Shows([first][0].reply, Outcome(first.reply).value.what);
      assert Outcome(first.reply).value.mark != Final ==> Faltered([first][0].reply);
    }
  }

  /** A reformatted reply answers for its payload. */
  lemma RanReformat(lens: Lens, cap: nat, a: Log, fa: seq<Finding>, reason: Reason, c: Completion)
    requires c.Reformat? && c.lens == lens.id
    requires Ran(lens, cap, Changes(c.prompt.diff), a, fa, Some(reason))
    ensures Ran(lens, cap, Changes(c.prompt.diff), a + [c],
                if c.repair.Some? then fa + Bounded(StampAll(c.repair.value, lens), cap) else fa,
                if c.repair.Some? then None else Some(reason))
  {
    GatheredOne(c, lens, cap);
    assert c.repair.None? ==> Bounded(StampAll(Offered(c), lens), cap) == [];
    hide Bounded, StampAll, Gathered, AllCovered, Backed;
    if c.repair.Some? {
      CoveredByLast([c], lens.id, c.prompt.diff);
    }
    assert fa + [] == fa;
    RanBoth(lens, cap, Changes(c.prompt.diff), a, fa, [c], if c.repair.Some? then Bounded(StampAll(c.repair.value, lens), cap) else [],
            if c.repair.Some? then None else Some(reason));
  }

  // ---------------------------------------------------------------------
  // Every recovery is disclosed
  // ---------------------------------------------------------------------

  /** What the summary will disclose, by lens or by batch, and the adapter's memory. */
  datatype Disclosure = Disclosure(
    repaired: set<string>, steppedDown: set<string>, escalated: set<string>, reAsked: set<string>,
    flooded: set<string>, split: set<nat>, adapter: Adapter)

  predicate Grown(d: Disclosure, d': Disclosure) {
    && d.repaired <= d'.repaired && d.steppedDown <= d'.steppedDown && d.escalated <= d'.escalated && d.reAsked <= d'.reAsked
    && d.flooded <= d'.flooded && d.split <= d'.split && Leq(d.adapter, d'.adapter)
  }

  /** The reply came back from another model than the configured one, and says so. */
  predicate OtherModel(c: Completion, cfg: Config) {
    c.Ask? && CameBack(c.reply) && By(c) == Second && NamesModels(cfg)
  }

  /** The completion offers more than one call may contribute. */
  predicate Floods(c: Completion, cfg: Config) { 0 < cfg.maxFindingsPerLens < |Offered(c)| }

  /**
    An answer that took a reformat, a lower effort, another model or the schema
    off, or that was cut to the bound, is on the list for it. `low` and `bare` excuse answers at the lower effort
    and without the schema, for a rung inside the one that will list them.
   */
  predicate IsDisclosed(c: Completion, d: Disclosure, cfg: Config, low: bool, bare: bool) {
    && (Floods(c, cfg) ==> c.lens in d.flooded)
    && if c.Reformat? then (c.repair.Some? ==> c.lens in d.repaired)
    else
      && (OtherModel(c, cfg) ==> c.lens in d.escalated)
      && (Answered(c) && c.lowered && !low ==> c.lens in d.steppedDown)
      && (Answered(c) && cfg.structuredOutput && !c.schema && !bare ==> c.lens in d.reAsked)
  }

  predicate Disclosed(log: Log, d: Disclosure, cfg: Config, low: bool, bare: bool) {
    forall i :: 0 <= i < |log| ==> IsDisclosed(log[i], d, cfg, low, bare)
  }

  /** Some completion of the log is a reason to list its lens. */
  predicate Repairs(log: Log, lens: string) { exists i :: 0 <= i < |log| && log[i].lens == lens && log[i].Reformat? && log[i].repair.Some? }
  predicate StepsDown(log: Log, lens: string) { exists i :: 0 <= i < |log| && log[i].lens == lens && log[i].Ask? && log[i].lowered }
  predicate Escalates(log: Log, lens: string, cfg: Config) { exists i :: 0 <= i < |log| && log[i].lens == lens && OtherModel(log[i], cfg) }
  predicate ReAsks(log: Log, lens: string, cfg: Config) {
    cfg.structuredOutput && exists i :: 0 <= i < |log| && log[i].lens == lens && log[i].Ask? && !log[i].schema
  }
  predicate Overflows(log: Log, lens: string, cfg: Config) { exists i :: 0 <= i < |log| && log[i].lens == lens && Floods(log[i], cfg) }
  predicate Oversizes(log: Log) { exists i :: 0 <= i < |log| && log[i].Ask? && PayloadSized(log[i].reply) }

  /** Nothing is listed anew without a completion that is the reason for it. */
  ghost predicate Caused(d: Disclosure, d': Disclosure, log: Log, cfg: Config) {
    && (forall l :: l in d'.repaired - d.repaired ==> Repairs(log, l))
    && (forall l :: l in d'.steppedDown - d.steppedDown ==> StepsDown(log, l))
    && (forall l :: l in d'.escalated - d.escalated ==> Escalates(log, l, cfg))
    && (forall l :: l in d'.reAsked - d.reAsked ==> ReAsks(log, l, cfg))
    && (forall l :: l in d'.flooded - d.flooded ==> Overflows(log, l, cfg))
    && (d'.split != d.split ==> Oversizes(log))
  }

  /** The adapter's memory after these completions, learning nothing outside them. */
  function MemoryAfter(a: Adapter, log: Log): Adapter {
    if log == [] then a else Learn(MemoryAfter(a, log[..|log| - 1]), log[|log| - 1].learnt)
  }

  /** The reply came back from the second model, asked or switched to, and the provider names the two apart. */
  predicate NamesOther(c: Completion, cfg: Config) {
    && c.Ask? && (c.reply.Parsed? || c.reply.Unparseable? || c.reply.BodyCut?) && (c.fallback || c.switched)
    && cfg.model.Some? && cfg.fallbackModel.Some? && cfg.model.value != cfg.fallbackModel.value
  }

  /** The completion's reply, or its reformat, holds more findings than the cap. */
  predicate Overfull(c: Completion, cap: nat) {
    match c
    case Reformat(_, _, _, _, repair) => repair.Some? && 0 < cap < |repair.value|
    case Ask(_, _, _, _, _, _, _, _, reply) =>
      || (reply.Parsed? && 0 < cap < |reply.findings|)
      || (reply.BodyCut? && 0 < cap < |reply.recovered|)
      || (reply.CeilingCut? && 0 < cap < |reply.salvage|)
  }

  predicate ForLens(c: Completion, log: Log, lens: string) { c in log && c.lens == lens }

  /**
    What a review lists of a lens, from the first of its completions on: a reformat, another
    model's reply or an overfull one if and only if there was one; a lower effort or a missing
    schema if an answer came of it, and only if it was asked for.
   */
  lemma ListsAre(d0: Disclosure, d: Disclosure, log: Log, cfg: Config, lens: string)
    requires Honest(d0, d, log, cfg, false, false)
    requires d0.repaired == d0.steppedDown == d0.escalated == d0.reAsked == d0.flooded == {}
    ensures lens in d.repaired <==> exists c :: ForLens(c, log, lens) && c.Reformat? && c.repair.Some?
    ensures lens in d.escalated <==> exists c :: ForLens(c, log, lens) && NamesOther(c, cfg)
    ensures lens in d.flooded <==> exists c :: ForLens(c, log, lens) && Overfull(c, cfg.maxFindingsPerLens)
    ensures (exists c :: ForLens(c, log, lens) && c.Ask? && c.reply.Parsed? && c.lowered) ==> lens in d.steppedDown
    ensures lens in d.steppedDown ==> exists c :: ForLens(c, log, lens) && c.Ask? && c.lowered
    ensures (exists c :: ForLens(c, log, lens) && c.Ask? && c.reply.Parsed? && cfg.structuredOutput && !c.schema) ==> lens in d.reAsked
    ensures lens in d.reAsked ==> exists c :: ForLens(c, log, lens) && c.Ask? && cfg.structuredOutput && !c.schema
  {
    ReasonsAre(log, lens, cfg);
    CausesAre(d0, d, log, cfg, lens);
    hide Grown, Sticky, Caused, Repairs, StepsDown, Escalates, ReAsks, Overflows, NamesOther, Overfull, OtherModel, Floods;
    forall c | c in log
      ensures IsDisclosed(c, d, cfg, false, false) && (OtherModel(c, cfg) <==> NamesOther(c, cfg)) && (Floods(c, cfg) <==> Overfull(c, cfg.maxFindingsPerLens))
    {
      var i :| 0 <= i < |log| && log[i] == c;
      ReasonIs(c, cfg);
    }
  }

  lemma ReasonIs(c: Completion, cfg: Config)
    ensures OtherModel(c, cfg) <==> NamesOther(c, cfg)
    ensures Floods(c, cfg) <==> Overfull(c, cfg.maxFindingsPerLens)
  {
  }

  lemma ReasonsAre(log: Log, lens: string, cfg: Config)
    ensures Repairs(log, lens) <==> exists c :: ForLens(c, log, lens) && c.Reformat? && c.repair.Some?
    ensures StepsDown(log, lens) <==> exists c :: ForLens(c, log, lens) && c.Ask? && c.lowered
    ensures Escalates(log, lens, cfg) <==> exists c :: ForLens(c, log, lens) && NamesOther(c, cfg)
    ensures ReAsks(log, lens, cfg) <==> exists c :: ForLens(c, log, lens) && c.Ask? && cfg.structuredOutput && !c.schema
    ensures Overflows(log, lens, cfg) <==> exists c :: ForLens(c, log, lens) && Overfull(c, cfg.maxFindingsPerLens)
  {
    hide OtherModel, Floods, NamesOther, Overfull;
    forall c
      ensures OtherModel(c, cfg) <==> NamesOther(c, cfg)
      ensures Floods(c, cfg) <==> Overfull(c, cfg.maxFindingsPerLens)
    {
      ReasonIs(c, cfg);
    }
    assert forall i :: 0 <= i < |log| && log[i].lens == lens ==> ForLens(log[i], log, lens);
    assert forall c :: ForLens(c, log, lens) ==> exists i :: 0 <= i < |log| && log[i] == c;
  }

  lemma CausesAre(d0: Disclosure, d: Disclosure, log: Log, cfg: Config, lens: string)
    requires Honest(d0, d, log, cfg, false, false)
    requires d0.repaired == d0.steppedDown == d0.escalated == d0.reAsked == d0.flooded == {}
    ensures lens in d.repaired ==> Repairs(log, lens)
    ensures lens in d.steppedDown ==> StepsDown(log, lens)
    ensures lens in d.escalated ==> Escalates(log, lens, cfg)
    ensures lens in d.reAsked ==> ReAsks(log, lens, cfg)
    ensures lens in d.flooded ==> Overflows(log, lens, cfg)
  {
    hide Grown, Sticky, Disclosed, Repairs, StepsDown, Escalates, ReAsks, Overflows;
    assert lens in d.repaired ==> lens in d.repaired - d0.repaired;
    assert lens in d.steppedDown ==> lens in d.steppedDown - d0.steppedDown;
    assert lens in d.escalated ==> lens in d.escalated - d0.escalated;
    assert lens in d.reAsked ==> lens in d.reAsked - d0.reAsked;
    assert lens in d.flooded ==> lens in d.flooded - d0.flooded;
  }

  /** A changed line is covered when its lens got an answer, in a reply or by a reformat of one, to a prompt that held it. */
  lemma CoveredIff(log: Log, lens: string, c: Change)
    ensures CoveredBy(log, lens, c) <==>
              exists a :: ForLens(a, log, lens) && c in Changes(a.prompt.diff) && if a.Ask? then a.reply.Parsed? else a.repair.Some?
  {
    hide Changes;
    assert forall i :: 0 <= i < |log| && log[i].lens == lens ==> ForLens(log[i], log, lens);
    assert forall a :: ForLens(a, log, lens) ==> exists i :: 0 <= i < |log| && log[i] == a;
  }

  lemma {:induction false} MemoryConcat(a: Adapter, x: Log, y: Log)
    ensures MemoryAfter(a, x + y) == MemoryAfter(MemoryAfter(a, x), y)
  {
    if y == [] {
      assert x + y == x;
    } else {
      assert (x + y)[..|x + y| - 1] == x + y[..|y| - 1];
      MemoryConcat(a, x, y[..|y| - 1]);
    }
  }

  /** Each completion leaves the adapter with what it knew and what it learnt in it. */
  ghost predicate Remembers(a: Adapter, log: Log) {
    forall i :: 0 <= i < |log| ==> log[i].adapter == MemoryAfter(a, log[..i + 1])
  }

  lemma RemembersConcat(a: Adapter, x: Log, y: Log)
    requires Remembers(a, x) && Remembers(MemoryAfter(a, x), y)
    ensures Remembers(a, x + y)
  {
    hide MemoryAfter;
    forall i | 0 <= i < |x + y|
      ensures (x + y)[i].adapter == MemoryAfter(a, (x + y)[..i + 1])
    {
      if i < |x| {
        assert (x + y)[..i + 1] == x[..i + 1];
      } else {
        assert (x + y)[..i + 1] == x + y[..i - |x| + 1];
        MemoryConcat(a, x, y[..i - |x| + 1]);
      }
    }
  }

  /** Some completion among the first `n` made the adapter give this up for the model. */
  ghost predicate GivesUpSchema(log: Log, n: nat, m: Model)
    requires n <= |log|
  {
    exists i :: 0 <= i < n && m in log[i].learnt.off
  }

  ghost predicate GivesUpEffort(log: Log, n: nat, m: Model)
    requires n <= |log|
  {
    exists i :: 0 <= i < n && m in log[i].learnt.refused
  }

  /** What the adapter remembers is what it knew at the start and what it learnt since. */
  lemma {:induction false} MemoryIs(a: Adapter, log: Log, n: nat, m: Model)
    requires n <= |log|
    ensures m in MemoryAfter(a, log[..n]).off <==> m in a.off || GivesUpSchema(log, n, m)
    ensures m in MemoryAfter(a, log[..n]).refused <==> m in a.refused || GivesUpEffort(log, n, m)
  {
    if n > 0 {
      assert log[..n][..n - 1] == log[..n - 1];
      MemoryIs(a, log, n - 1, m);
    }
  }

  /** The adapter forgets nothing, and learns only in completions and from a successful re-ask without the schema. */
  ghost predicate Sticky(d: Disclosure, d': Disclosure, log: Log) {
    && (forall i :: 0 <= i < |log| ==> Leq(d.adapter, log[i].adapter) && Leq(log[i].adapter, d'.adapter))
    && (forall i, j :: 0 <= i < j < |log| ==> Leq(log[i].adapter, log[j].adapter))
    && (d'.reAsked == {} ==> d'.adapter == MemoryAfter(d.adapter, log) && Remembers(d.adapter, log))
  }

  /** The lists only grew, these completions are on them and nothing else is, and the adapter remembers. */
  ghost predicate Honest(d: Disclosure, d': Disclosure, log: Log, cfg: Config, low: bool, bare: bool) {
    Grown(d, d') && Disclosed(log, d', cfg, low, bare) && Caused(d, d', log, cfg) && Sticky(d, d', log)
  }

  lemma HonestNone(d: Disclosure, cfg: Config, low: bool, bare: bool)
    ensures Honest(d, d, [], cfg, low, bare)
  {
  }

  lemma DisclosedThen(d0: Disclosure, d1: Disclosure, d2: Disclosure, a: Log, b: Log, cfg: Config,
                      low: bool, bare: bool, low': bool, bare': bool)
    requires Grown(d0, d1) && Grown(d1, d2) && Disclosed(a, d1, cfg, low, bare) && Disclosed(b, d2, cfg, low', bare')
    requires (low' ==> low) && (bare' ==> bare)
    ensures Disclosed(a + b, d2, cfg, low, bare)
  {
    forall i | 0 <= i < |a + b|
      ensures IsDisclosed((a + b)[i], d2, cfg, low, bare)
    {
      if i < |a| {
        assert IsDisclosed(a[i], d1, cfg, low, bare);
      } else {
        assert IsDisclosed(b[i - |a|], d2, cfg, low', bare');
      }
    }
  }

  /** What one log is a reason for, it is still a reason for as part of a longer one. */
  lemma ReasonsPart(a: Log, part: Log, b: Log, lens: string, cfg: Config)
    ensures Repairs(part, lens) ==> Repairs(a + part + b, lens)
    ensures StepsDown(part, lens) ==> StepsDown(a + part + b, lens)
    ensures Escalates(part, lens, cfg) ==> Escalates(a + part + b, lens, cfg)
    ensures ReAsks(part, lens, cfg) ==> ReAsks(a + part + b, lens, cfg)
    ensures Overflows(part, lens, cfg) ==> Overflows(a + part + b, lens, cfg)
    ensures Oversizes(part) ==> Oversizes(a + part + b)
  {
    hide OtherModel, Floods, PayloadSized;
    var log := a + part + b;
    assert forall i :: 0 <= i < |part| ==> log[|a| + i] == part[i];
  }

  lemma CausedThen(d0: Disclosure, d1: Disclosure, d2: Disclosure, a: Log, b: Log, cfg: Config)
    requires Caused(d0, d1, a, cfg) && Caused(d1, d2, b, cfg)
    ensures Caused(d0, d2, a + b, cfg)
  {
    hide Repairs, StepsDown, Escalates, ReAsks, Overflows, Oversizes;
    assert a + b + [] == a + b == [] + a + b;
    forall l: string
      ensures Repairs(a, l) || Repairs(b, l) ==> Repairs(a + b, l)
      ensures StepsDown(a, l) || StepsDown(b, l) ==> StepsDown(a + b, l)
      ensures Escalates(a, l, cfg) || Escalates(b, l, cfg) ==> Escalates(a + b, l, cfg)
      ensures ReAsks(a, l, cfg) || ReAsks(b, l, cfg) ==> ReAsks(a + b, l, cfg)
      ensures Overflows(a, l, cfg) || Overflows(b, l, cfg) ==> Overflows(a + b, l, cfg)
    {
      ReasonsPart([], a, b, l, cfg);
      ReasonsPart(a, b, [], l, cfg);
    }
    ReasonsPart([], a, b, "", cfg);
    ReasonsPart(a, b, [], "", cfg);
  }

  lemma StickyThen(d0: Disclosure, d1: Disclosure, d2: Disclosure, a: Log, b: Log)
    requires Grown(d0, d1) && Grown(d1, d2) && Sticky(d0, d1, a) && Sticky(d1, d2, b)
    ensures Sticky(d0, d2, a + b)
  {
    hide MemoryAfter, Remembers;
    if d2.reAsked == {} {
      MemoryConcat(d0.adapter, a, b);
      RemembersConcat(d0.adapter, a, b);
    }
  }

  lemma HonestThen(d0: Disclosure, d1: Disclosure, d2: Disclosure, a: Log, b: Log, cfg: Config,
                   low: bool, bare: bool, low': bool, bare': bool)
    requires Honest(d0, d1, a, cfg, low, bare) && Honest(d1, d2, b, cfg, low', bare')
    requires (low' ==> low) && (bare' ==> bare)
    ensures Honest(d0, d2, a + b, cfg, low, bare)
  {
    hide Disclosed, Caused, Sticky;
    DisclosedThen(d0, d1, d2, a, b, cfg, low, bare, low', bare');
    CausedThen(d0, d1, d2, a, b, cfg);
    StickyThen(d0, d1, d2, a, b);
  }

  predicate NoneAnswered(log: Log) {
    forall i :: 0 <= i < |log| ==> !Answered(log[i])
  }

  /** The rung lists its lens if it succeeded; if it failed nothing of it answered. */
  lemma HonestSteppedDown(d0: Disclosure, d1: Disclosure, log: Log, cfg: Config, bare: bool, lens: string, error: Option<Reason>)
    requires Honest(d0, d1, log, cfg, true, bare) && OfLens(log, lens)
    requires error.Some? ==> NoneAnswered(log)
    requires log != [] && log[0].Ask? && log[0].lowered
    ensures error.None? ==> Honest(d0, d1.(steppedDown := d1.steppedDown + {lens}), log, cfg, false, bare)
    ensures error.Some? ==> Honest(d0, d1, log, cfg, false, bare)
  {
    assert StepsDown(log, lens);
    hide Repairs, StepsDown, Escalates, ReAsks, Overflows, Oversizes, OtherModel;
  }

  /** The same for the schema, which the adapter then leaves out for good. */
  lemma HonestReAsked(d0: Disclosure, d1: Disclosure, log: Log, cfg: Config, lens: string, error: Option<Reason>)
    requires Honest(d0, d1, log, cfg, false, true) && OfLens(log, lens)
    requires error.Some? ==> NoneAnswered(log)
    requires cfg.structuredOutput && log != [] && log[0].Ask? && !log[0].schema
    ensures error.None? ==>
              Honest(d0, d1.(reAsked := d1.reAsked + {lens}, adapter := Learn(d1.adapter, Adapter({Primary}, {}))), log, cfg, false, false)
    ensures error.Some? ==> Honest(d0, d1, log, cfg, false, false)
  {
    assert ReAsks(log, lens, cfg);
    hide Repairs, StepsDown, Escalates, ReAsks, Overflows, Oversizes, OtherModel;
  }

  /** One completion, listed as far as it must be: its lens under another model, or as bounded. */
  lemma HonestOne(d0: Disclosure, d1: Disclosure, c: Completion, cfg: Config, low: bool, bare: bool)
    requires c.adapter == Learn(d0.adapter, c.learnt)
    requires d1 == d0.(adapter := c.adapter, repaired := d1.repaired, escalated := d1.escalated, flooded := d1.flooded)
    requires d1.repaired == d0.repaired + if c.Reformat? && c.repair.Some? then {c.lens} else {}
    requires d1.escalated == d0.escalated + if OtherModel(c, cfg) then {c.lens} else {}
    requires d1.flooded == d0.flooded + if Floods(c, cfg) then {c.lens} else {}
    requires c.Ask? ==> (c.lowered ==> low) && (!c.schema ==> bare)
    ensures Honest(d0, d1, [c], cfg, low, bare)
  {
    hide OtherModel, Floods;
    assert [c][0] == c && [c][..0] == [] && [c][..1] == [c];
    assert MemoryAfter(d0.adapter, [c]) == Learn(MemoryAfter(d0.adapter, []), c.learnt);
  }

  /** A batch that was split is on the list once its call outgrew its size. */
  lemma HonestSplit(d0: Disclosure, d1: Disclosure, log: Log, cfg: Config, low: bool, bare: bool, split: set<nat>)
    requires Honest(d0, d1, log, cfg, low, bare) && Oversizes(log) && d1.split <= split
    ensures Honest(d0, d1.(split := split), log, cfg, low, bare)
  {
    hide Repairs, StepsDown, Escalates, ReAsks, Overflows, Oversizes, OtherModel;
  }

  /** Without structured output there is no schema to miss. */
  lemma HonestUnstructured(d: Disclosure, d': Disclosure, log: Log, cfg: Config, low: bool)
    requires Honest(d, d', log, cfg, low, !cfg.structuredOutput)
    ensures Honest(d, d', log, cfg, low, false)
  {
    hide Caused, Sticky, OtherModel;
  }

  lemma NoneBoth(a: Log, b: Log)
    requires NoneAnswered(a) && NoneAnswered(b)
    ensures NoneAnswered(a + b)
  {
  }

  predicate IsFallback(c: Completion) { c.Ask? && c.fallback }

  predicate IsSchemaless(c: Completion) { c.Ask? && !c.schema }

  /**
    With no ceiling hit and no remedy refused, the ladder was climbed to its top:
    a call whose ceiling went on thought was repeated at a lower effort, a whole
    batch that still failed on its size ended with the second model, and an
    unparseable reply that stayed so was asked for without the schema.
   */
  ghost predicate Persisted(calls: Log, error: Option<Reason>, whole: bool, schema: bool, lowered: bool, recover: bool, fallback: bool)
    requires calls != [] && calls[0].Ask?
  {
    var reply := calls[0].reply;
    && (Exhausted(reply) && !lowered && !fallback ==> |calls| > 1 && calls[1].Ask? && calls[1].lowered)
    && (PayloadSized(reply) && whole && error.Some? ==> IsFallback(calls[|calls| - 1]))
    && (reply.Unparseable? && recover && schema && error.Some? ==> exists i :: 0 <= i < |calls| && IsSchemaless(calls[i]))
  }

  lemma PersistedFrom(first: Completion, more: Log, error: Option<Reason>, whole: bool, schema: bool, lowered: bool, recover: bool, fallback: bool)
    requires first.Ask?
    requires Exhausted(first.reply) && !lowered && !fallback ==> more != [] && more[0].Ask? && more[0].lowered
    requires PayloadSized(first.reply) && whole && error.Some? ==> more != [] && IsFallback(more[|more| - 1])
    requires first.reply.Unparseable? && recover && schema && error.Some? ==> exists i :: 0 <= i < |more| && IsSchemaless(more[i])
    ensures Persisted([first] + more, error, whole, schema, lowered, recover, fallback)
  {
    hide Exhausted, PayloadSized, IsFallback, IsSchemaless;
    if i :| 0 <= i < |more| && IsSchemaless(more[i]) {
      assert IsSchemaless(([first] + more)[i + 1]);
    }
  }

  /** The most completions one lens call can cause; `p` is the number of pieces its batch was split into, if it was. */
  function Bound(whole: bool, schema: bool, lowered: bool, recover: bool, fallback: bool, p: nat): nat {
    if fallback then 1
    else if whole then if 6 * p + 2 > 7 then 6 * p + 2 else 7
    else if schema then if lowered then 5 else 6
    else if lowered then if recover then 2 else 1
    else 3
  }

  /**
    The course of one call: its first reply settled it when no remedy applies,
    the batch was split only over its size, a call without remedies of its own
    fails only if nothing answered, and the completions stay within the bound.
   */
  ghost predicate Course(calls: Log, error: Option<Reason>, whole: bool, defers: bool, schema: bool,
                         lowered: bool, recover: bool, fallback: bool, p: nat) {
    && calls != [] && calls[0].Ask?
    && var reply := calls[0].reply;
       && |calls| <= Bound(whole, schema, lowered, recover, fallback, p)
       && (Settles(reply, whole, defers, lowered, recover, fallback) ==> |calls| == 1 && error == Outcome(reply))
       && (p > 0 ==> whole && PayloadSized(reply) && !Exhausted(reply))
       && (!whole && error.Some? ==> NoneAnswered(calls))
  }

  /** What the remedies for a payload-sized failure add to the first call. */
  lemma CourseShrunk(first: Completion, more: Log, error: Option<Reason>, whole: bool, defers: bool, schema: bool,
                     lowered: bool, recover: bool, fallback: bool, p: nat)
    requires first.Ask? && PayloadSized(first.reply) && (whole ==> !lowered && recover) && (fallback ==> !whole && !lowered)
    requires Settles(first.reply, whole, false, lowered, true, fallback) ==> more == [] && error == Outcome(first.reply)
    requires |more| <= if lowered || fallback then 0
                       else if !whole then Bound(false, schema, true, true, false, 0)
                       else Bound(true, schema, lowered, true, fallback, p) - 1
    requires p > 0 ==> whole && !Exhausted(first.reply)
    requires !whole && error.Some? ==> NoneAnswered(more)
    ensures Course([first] + more, error, whole, defers, schema, lowered, recover, fallback, p)
  {
  }

  /** What a reply that came back, or did not, adds to the first call. */
  lemma CourseRead(first: Completion, more: Log, error: Option<Reason>, whole: bool, defers: bool, schema: bool,
                   lowered: bool, recover: bool, fallback: bool)
    requires first.Ask? && !PayloadSized(first.reply) && (whole ==> !lowered && recover) && (defers ==> whole)
    requires fallback ==> !whole && !lowered && !recover
    requires Settles(first.reply, false, defers, false, recover, false) ==> more == [] && error == Outcome(first.reply)
    requires |more| <= if first.reply.Unparseable? then if !recover then 0 else if schema then 4 else 1
                       else if first.reply.Parsed? && defers then 6 else 0
    requires !defers && error.Some? ==> !first.reply.Parsed? && NoneAnswered(more)
    ensures Course([first] + more, error, whole, defers, schema, lowered, recover, fallback, 0)
  {
  }
}
