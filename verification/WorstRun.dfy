/** A provider against which a lens call takes as many completions as it ever can (the recovery ladder of `engine/engine.py`). */
module WorstRun {
  import opened Wrappers
  import opened Patches
  import opened Compress
  import opened SplitBatch
  import opened Ladder
  import opened Rungs

  const THOUGHT := CeilingCut([], Some(1), Some(1))  // the whole ceiling went on thought
  const GARBLED := Unparseable(true)

  /** Nothing stops the call, every remedy is on offer, and no reformat works. */
  function Answering(reply: Reply): Answer {
    Answer(false, false, false, true, reply, false, Adapter({}, {}), None)
  }

  ghost predicate Obliging(w: World) {
    forall i :: w(i) == Answering(w(i).reply)
  }

  /** Every remedy is configured. */
  predicate Generous(cfg: Config) { cfg.structuredOutput && cfg.repairUnparseable && cfg.retryWithoutSchema }

  /** A run that failed after so many completions and questions. */
  ghost predicate Failed(r: Run, at: nat, asks: nat) { r.error.Some? && r.at == at && r.asks == asks }

  lemma AsksOf(w: World, at: nat)
    requires Obliging(w)
    ensures StopAt(w, at).None? && w(at).yes && w(at).repair.None?
  {
    assert w(at) == Answering(w(at).reply);
  }

  /** A lower effort without the schema: the call and a reformat. */
  lemma LoweredBare(cfg: Config, count: Counter, w: World, at: nat, lens: Lens, reason: Reason)
    requires Generous(cfg) && Obliging(w) && w(at + 2).reply == GARBLED
    ensures Failed(SteppedDown(cfg, count, w, at, lens, false, reason), at + 5, 2)
  {
    AsksOf(w, at);
    AsksOf(w, at + 1);
    AsksOf(w, at + 3);
    AsksOf(w, at + 4);
    assert Failed(Recovered(cfg, count, w, at + 3, lens, false, true, true), at + 5, 1);
    assert Failed(Completed(cfg, count, w, at + 2, lens, [], false, false, false, true, true, false), at + 5, 2);
  }

  /** A re-ask without the schema that goes on thought, and its lower effort. */
  lemma BareThought(cfg: Config, count: Counter, w: World, at: nat, lens: Lens, reason: Reason)
    requires Generous(cfg) && Obliging(w) && w(at + 1).reply == THOUGHT && w(at + 4).reply == GARBLED
    ensures Failed(Bare(cfg, count, w, at, lens, reason), at + 7, 3)
  {
    AsksOf(w, at);
    LoweredBare(cfg, count, w, at + 2, lens, Outcome(THOUGHT).value);
    hide SteppedDown;
    assert Failed(Shrunk(cfg, count, w, at + 2, lens, [], false, false, false, false, THOUGHT), at + 7, 2);
    assert Failed(Completed(cfg, count, w, at + 1, lens, [], false, false, false, false, false, false), at + 7, 3);
  }

  /** A lower effort under the schema: the call, a reformat, and the re-ask without it. */
  lemma LoweredThrough(cfg: Config, count: Counter, w: World, at: nat, lens: Lens, reason: Reason)
    requires Generous(cfg) && Obliging(w)
    requires w(at + 2).reply == GARBLED && w(at + 7).reply == THOUGHT && w(at + 10).reply == GARBLED
    ensures Failed(SteppedDown(cfg, count, w, at, lens, true, reason), at + 13, 5)
  {
    AsksOf(w, at);
    AsksOf(w, at + 1);
    AsksOf(w, at + 3);
    AsksOf(w, at + 4);
    AsksOf(w, at + 5);
    BareThought(cfg, count, w, at + 6, lens, NOT_PARSED);
    hide Bare;
    assert Failed(Recovered(cfg, count, w, at + 3, lens, true, true, true), at + 13, 4);
    hide Recovered;
    assert Failed(Completed(cfg, count, w, at + 2, lens, [], false, false, true, true, true, false), at + 13, 5);
  }

  /** One call of its own and all that its thought costs. */
  ghost predicate Thinks(w: World, at: nat) {
    w(at).reply == THOUGHT && w(at + 3).reply == GARBLED && w(at + 8).reply == THOUGHT && w(at + 11).reply == GARBLED
  }

  lemma PieceTakesSix(cfg: Config, count: Counter, w: World, at: nat, lens: Lens)
    requires Generous(cfg) && Obliging(w) && Thinks(w, at + 1)
    ensures Failed(Reviewed(cfg, count, w, at, lens, None), at + 15, 6)
  {
    AsksOf(w, at);
    LoweredThrough(cfg, count, w, at + 2, lens, Outcome(THOUGHT).value);
    hide SteppedDown;
    assert Failed(Shrunk(cfg, count, w, at + 2, lens, [], false, true, false, false, THOUGHT), at + 15, 5);
    hide Shrunk;
    assert Failed(Completed(cfg, count, w, at + 1, lens, [], false, false, true, false, true, false), at + 15, 6);
  }

  lemma {:induction false} PiecesTakeSix(cfg: Config, count: Counter, w: World, lens: Lens, p: nat)
    requires Generous(cfg) && Obliging(w)
    requires forall i :: 0 <= i < p ==> Thinks(w, 2 + 15 * i + 1)
    ensures var t := PiecesDone(cfg, count, w, 2, lens, p);
            t.at == 2 + 15 * p && t.asks == 6 * p && |t.errors| == p
  {
    hide Reviewed, Thinks;
    if p > 0 {
      PiecesTakeSix(cfg, count, w, lens, p - 1);
      PieceTakesSix(cfg, count, w, 2 + 15 * (p - 1), lens);
    }
  }

  /** The last rung, refused by the second model too. */
  lemma SecondFails(cfg: Config, count: Counter, w: World, at: nat, lens: Lens, reason: Reason)
    requires Obliging(w) && (w(at + 2).reply == GARBLED || w(at + 2).reply == THOUGHT)
    ensures Failed(OnSecond(cfg, count, w, at, lens, true, reason), at + 3, 1)
  {
    AsksOf(w, at);
    AsksOf(w, at + 1);
    assert Failed(Completed(cfg, count, w, at + 2, lens, [], false, false, true, false, false, true), at + 3, 1);
  }

  /** What comes back to each question: the prompt is too large, or thought, and then every piece thinks in vain. */
  function WorstReply(split: bool, i: nat): Reply {
    if split && i <= 1 then PromptTooLarge
    else
      var k := if split then (i - 2) % 15 else i;
      if k == 4 || k == 12 then GARBLED else THOUGHT
  }

  function WorstWorld(split: bool): World {
    (i: nat) => Answering(WorstReply(split, i))
  }

  lemma WorstThinks(i: nat)
    ensures Thinks(WorstWorld(true), 2 + 15 * i + 1)
  {
    assert (15 * i + 1) % 15 == 1 && (15 * i + 4) % 15 == 4 && (15 * i + 9) % 15 == 9 && (15 * i + 12) % 15 == 12;
  }

  /**
    The bound on a whole batch's completions is reached: by pieces that all think
    in vain when the batch can be split, and by thought alone when it cannot.
   */
  lemma BoundIsReached(cfg: Config, count: Counter, lens: Lens, batch: seq<Unit>)
    requires Generous(cfg)
    ensures var p := |PiecesOf(batch, true, count)|;
            Reviewed(cfg, count, WorstWorld(p >= 2), 0, lens, Some(batch)).asks
            == Bound(true, true, false, true, false, if p >= 2 then p else 0)
  {
    hide PiecesOf;
    var p := |PiecesOf(batch, true, count)|;
    var w := WorstWorld(p >= 2);
    AsksOf(w, 0);
    if p >= 2 {
      forall i | 0 <= i < p
        ensures Thinks(w, 2 + 15 * i + 1)
      {
        WorstThinks(i);
      }
      PiecesTakeSix(cfg, count, w, lens, p);
      var r := InPieces(cfg, count, w, 2, lens, batch, Outcome(PromptTooLarge).value, true);
      assert Failed(r, 2 + 15 * p, 6 * p);
      WorstEnds(p);
      SecondFails(cfg, count, w, 2 + 15 * p, lens, r.error.value);
      hide InPieces, OnSecond, SteppedDown;
      assert Shrunk(cfg, count, w, 2, lens, batch, true, true, false, false, PromptTooLarge).asks == 6 * p + 1;
    } else {
      LoweredThrough(cfg, count, w, 2, lens, Outcome(THOUGHT).value);
      var r := SteppedDown(cfg, count, w, 2, lens, true, Outcome(THOUGHT).value);
      SecondFails(cfg, count, w, 15, lens, r.error.value);
      hide InPieces, OnSecond, SteppedDown;
      assert Shrunk(cfg, count, w, 2, lens, batch, true, true, false, false, THOUGHT).asks == 6;
    }
    hide Shrunk;
    assert Completed(cfg, count, w, 1, lens, batch, true, cfg.fetcher.Some?, true, false, true, false).asks
        == Bound(true, true, false, true, false, if p >= 2 then p else 0);
  }

  lemma WorstEnds(p: nat)
    ensures WorstReply(true, 2 + 15 * p + 2) == THOUGHT
  {
    assert (15 * p + 2) % 15 == 2;
  }
}
