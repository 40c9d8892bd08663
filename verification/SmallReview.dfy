/** One added line under review: thumbs-ups that do not rest on what was configured. */
module SmallReview {
  import opened Wrappers
  import opened DiffParse
  import opened Patches
  import opened Compress
  import opened Lookup
  import opened Triage
  import opened Findings
  import Reflect
  import opened Ladder
  import opened Rungs
  import opened FanOut
  import Notices
  import opened Pipeline

  /** A new file of one line. */
  function OneLine(text: string): Hunk { Hunk(Header(0, 0, 1, 1, ""), [Added(text)]) }

  function NewFile(path: string, text: string): Unit {
    (path, [FileHeader(Some(path))] + HunksLines([OneLine(text)]))
  }

  lemma NewFileIsGood(path: string, text: string)
    ensures GoodFile(NewFile(path, text))
    ensures Change(path, RIGHT, 1, text) in Changes(NewFile(path, text).1)
  {
    var h, pre := OneLine(text), [FileHeader(Some(path))];
    var patch := pre + HunksLines([h]);
    ParseUnique(pre, [h]);
    assert h.body == [Added(text)] + [] && NewLen(h.body) == 1 && OldLen(h.body) == 0;
    NameOfHeader(path);
    assert BodiesOk([h]);
    assert CleanPatch(path, patch);
    CleanChanges(INIT, path, patch);
    assert HunksChanges(path, [h]) == HunkChanges(path, h) + HunksChanges(path, []);
    OneLineChanges(path, text);
  }

  lemma NameOfHeader(path: string)
    ensures NameOf([FileHeader(Some(path))]) == Some(path)
  {
    var s := Step(State(None, 0, 0, false), FileHeader(Some(path)));
    assert [FileHeader(Some(path))][1..] == [];
    assert NameAfter(s.file, []) == s.file;
  }

  lemma OneLineChanges(path: string, text: string)
    ensures HunkChanges(path, OneLine(text)) == [Change(path, RIGHT, 1, text)]
  {
    var s, l := At(path, 0, 1), Added(text);
    var w := Walked(path, Plus, 0, 1, text);
    assert Emit(s, l) == [w];
    assert Walk(s, [l]) == [w] + Walk(Step(s, l), []);
    assert ChangesOf([w]) == ChangeOf(w) + ChangesOf([]);
  }

  function SmallContext(path: string, text: string): Context {
    Context(NewFile(path, text).1, [], map[], map[], 0)
  }

  lemma SmallDiffIsGood(path: string, text: string)
    ensures GoodDiff([NewFile(path, text)], SmallContext(path, text))
  {
    NewFileIsGood(path, text);
    var u := NewFile(path, text);
    assert DiffOf([u]) == u.1 + DiffOf([]);
    assert HunksLines([OneLine(text)]) == HunkLines(OneLine(text)) + HunksLines([]);
    assert u.1 == [FileHeader(Some(path)), HunkHead(Header(0, 0, 1, 1, "")), Added(text)];
    NamedByHeader(path, text);
    hide GoodFile;
  }

  lemma NamedByHeader(path: string, text: string)
    ensures PathOf([FileHeader(Some(path)), HunkHead(Header(0, 0, 1, 1, "")), Added(text)], 0, []) == path
  {
    var patch: seq<Line> := [FileHeader(Some(path)), HunkHead(Header(0, 0, 1, 1, "")), Added(text)];
    assert patch[1..] == [HunkHead(Header(0, 0, 1, 1, "")), Added(text)];
    assert patch[1..][1..] == [Added(text)];
    assert patch[1..][1..][1..] == [];
    NoNames(patch);
  }

  lemma {:induction false} NoNames(ls: seq<Line>)
    requires forall i :: 0 <= i < |ls| ==> !ls[i].NewName? && !ls[i].RenameTo? && !ls[i].OldName?
    ensures FirstNewName(ls).None? && FirstRename(ls).None? && FirstOldName(ls).None?
  {
    if ls != [] {
      NoNames(ls[1..]);
    }
  }

  /** One lens over everything, and no filter in its way. */
  function SmallSettings(lens: Lens): Settings {
    Settings(_ => true, 0, None, 1, 0, 0, 0, false, [lens], _ => false, _ => true, false, 0, _ => true)
  }

  /** Every call is answered at once with nothing to report; `learnt` and `second` say how the adapter went about it. */
  function CleanAnswers(learnt: Adapter, second: bool): Worlds {
    var a := Answer(false, false, false, true, Parsed([], []), second, learnt, None);
    Worlds(i => k => a, i => k => a, None, false)
  }

  /** An answered completion that was asked for as configured, run as `second` says, after which the adapter knows `learnt`. */
  ghost predicate AnsweredThus(c: Completion, cfg: Config, learnt: Adapter, second: bool) {
    && Answered(c) && c.Ask? && !c.lowered && (cfg.structuredOutput ==> c.schema)
    && c.switched == second && (NamesModels(cfg) ==> !c.fallback) && Leq(learnt, c.adapter)
  }

  /** Whatever the adapter gives up on the way, and whoever answers without saying so, a clean review is a thumbs-up. */
  method CleanReview(path: string, text: string, lens: Lens, count: Counter, auditor: Reflect.Auditor,
                     cfg: Config, learnt: Adapter, second: bool)
    returns (result: Result, ghost made: Log)
    requires second ==> !NamesModels(cfg)
    ensures result.Posted? && result.thumbsUp
    ensures exists i :: 0 <= i < |made| && AnsweredThus(made[i], cfg, learnt, second)
  {
    hide *;
    var u, ws, s := NewFile(path, text), CleanAnswers(learnt, second), SmallSettings(lens);
    SmallDiffIsGood(path, text);
    SmallFits(u, lens);
    AnswersAreClean(cfg, learnt, second);
    SmallContextIs(path, text, lens);
    ghost var record;
    result, made, record := RunReview(cfg, count, SmallContext(path, text), s, auditor, Adapter({}, {}), ws, [u]);
    NoGaps(result.notices);
    SomeCall(path, text, lens, record.chosen, record.batches);
    FirstAnswer(cfg, count, CallsOf([lens], record.batches), learnt, second, record.logs, record.outcomes, made);
  }

  lemma SmallContextIs(path: string, text: string, lens: Lens)
    ensures SmallContext(path, text).openThreads == 0 && SmallSettings(lens).lenses == [lens]
  {
  }

  lemma NoGaps(notices: seq<Notices.Notice>)
    ensures notices == [] ==> !AdmitsGaps(notices)
  {
  }

  lemma SmallFits(u: Unit, lens: Lens)
    ensures AllFitIn([u], SmallSettings(lens))
  {
  }

  lemma AnswersAreClean(cfg: Config, learnt: Adapter, second: bool)
    requires second ==> !NamesModels(cfg)
    ensures CleanWorlds(CleanAnswers(learnt, second), cfg)
  {
  }

  /** The one line has to be in some call. */
  lemma SomeCall(path: string, text: string, lens: Lens, chosen: seq<Unit>, batches: seq<seq<Unit>>)
    requires MeansNoMore(Reviewable([NewFile(path, text)], SmallSettings(lens)), chosen)
    requires UnitsChanges(Flatten(batches)) == UnitsChanges(chosen)
    ensures CallsOf([lens], batches) != []
  {
    hide CleanPatch, HunksOf, Changes;
    var u, s := NewFile(path, text), SmallSettings(lens);
    NewFileIsGood(path, text);
    assert u in Reviewable([u], s);
    MeaningOfMember(Reviewable([u], s), u, Change(path, RIGHT, 1, text));
    hide NewFile, Reviewable;
    assert batches != [];
    assert CallsOf([lens], batches) == CallsOf([lens], batches[..|batches| - 1]) + CallsFor([lens], |batches|, batches[|batches| - 1]);
  }

  lemma FirstAnswer(cfg: Config, count: Counter, calls: seq<PreparedCall>, learnt: Adapter, second: bool,
                    logs: seq<Log>, outcomes: seq<Outcome>, made: Log)
    requires CallsRan(cfg, count, calls, CleanAnswers(learnt, second), logs, outcomes, made) && calls != []
    requires AnsweredAsAsked(made, cfg)
    ensures exists i :: 0 <= i < |made| && AnsweredThus(made[i], cfg, learnt, second)
  {
    hide RanCall, CallBound, SecondChance, Task;
    var ws := CleanAnswers(learnt, second);
    assert StopAt(ws.first(0), 0).None?;
    var c := logs[0][0];
    assert c in made;
    var i :| 0 <= i < |made| && made[i] == c;
    assert AnsweredThus(made[i], cfg, learnt, second);
  }

  /** A thumbs-up with an answer that was asked for under the schema and sent without it: the adapter took it out on the way. */
  method ThumbsUpWithoutSchema(path: string, text: string, lens: Lens, count: Counter, auditor: Reflect.Auditor)
    returns (result: Result, cfg: Config, ghost made: Log)
    ensures result.Posted? && result.thumbsUp && cfg.structuredOutput && NamesModels(cfg)
    ensures exists i :: 0 <= i < |made| && Answered(made[i]) && made[i].Ask? && made[i].schema && !SentSchema(made[i])
  {
    cfg := Config(true, true, true, 0, Some("a"), Some("b"), None);
    result, made := CleanReview(path, text, lens, count, auditor, cfg, Adapter({Primary}, {}), false);
  }

  /** A thumbs-up with an answer the fallback gave: neither model is named, so nothing is noted. */
  method ThumbsUpFromFallback(path: string, text: string, lens: Lens, count: Counter, auditor: Reflect.Auditor)
    returns (result: Result, ghost made: Log)
    ensures result.Posted? && result.thumbsUp
    ensures exists i :: 0 <= i < |made| && Answered(made[i]) && By(made[i]) == Second
  {
    var cfg := Config(true, true, true, 0, None, None, None);
    result, made := CleanReview(path, text, lens, count, auditor, cfg, Adapter({}, {}), true);
  }

  /** A thumbs-up with an answer at another effort than the configured one: the model refused it. */
  method ThumbsUpWithoutEffort(path: string, text: string, lens: Lens, count: Counter, auditor: Reflect.Auditor)
    returns (result: Result, cfg: Config, ghost made: Log)
    ensures result.Posted? && result.thumbsUp && NamesModels(cfg)
    ensures exists i :: 0 <= i < |made| && Answered(made[i]) && made[i].Ask? && !made[i].lowered && !SentEffort(made[i])
  {
    cfg := Config(true, true, true, 0, Some("a"), Some("b"), None);
    result, made := CleanReview(path, text, lens, count, auditor, cfg, Adapter({}, {Primary}), false);
  }
}
