/**
  Bounded, read-only retrieval (`engine/retrieve.py`): fetching in waves against
  the plain walk that fetches and accepts one entry at a time.
 */
module Retrieve {
  import opened Wrappers

  const MAX_HOPS: nat := 2
  const MAX_FETCH_FILES: nat := 5

  /**
    What a resolution is given. The fetcher and the symbol resolver are pure
    functions; `redact` and `count` stand for redaction and the token counter.
   */
  datatype Env = Env(
    fetch: string -> Option<string>,
    redact: string -> string,
    count: string -> nat,
    resolveSymbol: Option<string -> seq<string>>,
    already: set<string>,
    budget: nat,
    maxFiles: nat)

  datatype Entry = Entry(path: string, text: string)

  /** The accepted files, in order, and the tokens they cost. */
  datatype Taken = Taken(out: seq<Entry>, used: nat)

  // ---------------------------------------------------------------------
  // The sequential walk
  // ---------------------------------------------------------------------

  predicate Holds(out: seq<Entry>, path: string) {
    exists i :: 0 <= i < |out| && out[i].path == path
  }

  /** The redacted text a path would contribute, if it may be fetched and is readable and not empty. */
  function TextFor(env: Env, path: string): Option<string> {
    if path in env.already then None
    else
      var raw := env.fetch(path);
      if raw.None? || raw.value == [] then None else Some(env.redact(raw.value))
  }

  predicate Acceptable(env: Env, t: Taken, path: string) {
    var text := TextFor(env, path);
    !Holds(t.out, path) && text.Some? && t.used + env.count(text.value) <= env.budget
  }

  function Accept(env: Env, t: Taken, path: string): Taken
    requires Acceptable(env, t, path)
  {
    var text := TextFor(env, path).value;
    Taken(t.out + [Entry(path, text)], t.used + env.count(text))
  }

  /** One entry: nothing once the cap is reached; else the path itself, else the files that define the symbol. */
  function WalkOne(env: Env, t: Taken, path: string, symbols: bool): Taken
    decreases symbols, 0, 1
  {
    if |t.out| >= env.maxFiles then t
    else if Acceptable(env, t, path) then Accept(env, t, path)
    else if symbols && env.resolveSymbol.Some? then WalkAll(env, t, env.resolveSymbol.value(path), false)
    else t
  }

  /** The plain walk: each entry in order, one at a time. */
  function WalkAll(env: Env, t: Taken, paths: seq<string>, symbols: bool): Taken
    decreases symbols, |paths|, 0
  {
    if paths == [] then t else WalkAll(env, WalkOne(env, t, paths[0], symbols), paths[1..], symbols)
  }

  lemma {:induction false} WalkFull(env: Env, t: Taken, paths: seq<string>, symbols: bool)
    requires |t.out| >= env.maxFiles
    ensures WalkAll(env, t, paths, symbols) == t
    decreases |paths|
  {
    if paths != [] {
      WalkFull(env, t, paths[1..], symbols);
    }
  }

  function Cost(env: Env, out: seq<Entry>): nat {
    if out == [] then 0 else env.count(out[0].text) + Cost(env, out[1..])
  }

  lemma {:induction false} CostSnoc(env: Env, out: seq<Entry>, e: Entry)
    ensures Cost(env, out + [e]) == Cost(env, out) + env.count(e.text)
  {
    if out == [] {
      assert [e][1..] == [];
    } else {
      assert (out + [e])[1..] == out[1..] + [e];
      CostSnoc(env, out[1..], e);
    }
  }

  /** The caps hold, no path is taken twice or was already grounded, and every text is the redacted fetch. */
  ghost predicate WithinCaps(env: Env, t: Taken) {
    && |t.out| <= env.maxFiles
    && t.used == Cost(env, t.out) <= env.budget
    && (forall i, j :: 0 <= i < j < |t.out| ==> t.out[i].path != t.out[j].path)
    && (forall i :: 0 <= i < |t.out| ==> TextFor(env, t.out[i].path) == Some(t.out[i].text))
  }

  lemma AcceptKeepsCaps(env: Env, t: Taken, path: string)
    requires WithinCaps(env, t) && |t.out| < env.maxFiles && Acceptable(env, t, path)
    ensures WithinCaps(env, Accept(env, t, path))
  {
    CostSnoc(env, t.out, Entry(path, TextFor(env, path).value));
  }

  lemma {:induction false} WalkKeepsCaps(env: Env, t: Taken, paths: seq<string>, symbols: bool)
    requires WithinCaps(env, t)
    ensures WithinCaps(env, WalkAll(env, t, paths, symbols))
    ensures t.out <= WalkAll(env, t, paths, symbols).out
    decreases symbols, |paths|
  {
    if paths != [] {
      var path := paths[0];
      if |t.out| < env.maxFiles {
        if Acceptable(env, t, path) {
          AcceptKeepsCaps(env, t, path);
        } else if symbols && env.resolveSymbol.Some? {
          WalkKeepsCaps(env, t, env.resolveSymbol.value(path), false);
        }
      }
      WalkKeepsCaps(env, WalkOne(env, t, path, symbols), paths[1..], symbols);
    }
  }

  /** The path is not among those already shown and its file is there and not empty: it reads as this, redacted. */
  predicate ReadableAs(env: Env, path: string, text: string) {
    path !in env.already && env.fetch(path).Some? && env.fetch(path).value != [] && text == env.redact(env.fetch(path).value)
  }

  /** The file was taken, or there was no room for it when all was done: no place left, or not enough of the budget. */
  ghost predicate TakenOrNoRoom(env: Env, t: Taken, path: string, text: string) {
    Entry(path, text) in t.out || |t.out| >= env.maxFiles || t.used + env.count(text) > env.budget
  }

  /**
    Nothing that could be shown is held back: a readable file that was asked for, or that
    defines a symbol asked for where no readable file has that name, is taken unless there
    is no room for it.
   */
  lemma {:induction false} NothingHeldBack(env: Env, t: Taken, paths: seq<string>, symbols: bool, path: string, text: string)
    requires WithinCaps(env, t) && ReadableAs(env, path, text)
    requires path in paths
             || (symbols && env.resolveSymbol.Some? && exists name :: name in paths && env.fetch(name).None? && path in env.resolveSymbol.value(name))
    ensures TakenOrNoRoom(env, WalkAll(env, t, paths, symbols), path, text)
    decreases symbols, |paths|
  {
    WalkKeepsCaps(env, t, paths[..1], symbols);
    var next := WalkOne(env, t, paths[0], symbols);
    assert WithinCaps(env, next) && t.out <= next.out by {
      OneKeepsCaps(env, t, paths[0], symbols);
    }
    WalkKeepsCaps(env, next, paths[1..], symbols);
    UsedGrows(env, next, paths[1..], symbols);
    if paths[0] == path {
      TakenAtOnce(env, t, path, symbols, text);
      StillTaken(env, next, WalkAll(env, next, paths[1..], symbols), path, text);
    } else if path in paths[1..] {
      NothingHeldBack(env, next, paths[1..], symbols, path, text);
    } else if path !in paths && exists name :: name in paths[1..] && env.fetch(name).None? && path in env.resolveSymbol.value(name) {
      NothingHeldBack(env, next, paths[1..], symbols, path, text);
    } else {
      if |t.out| < env.maxFiles {
        NothingHeldBack(env, t, env.resolveSymbol.value(paths[0]), false, path, text);
      }
      StillTaken(env, next, WalkAll(env, next, paths[1..], symbols), path, text);
    }
  }

  lemma OneKeepsCaps(env: Env, t: Taken, path: string, symbols: bool)
    requires WithinCaps(env, t)
    ensures WithinCaps(env, WalkOne(env, t, path, symbols)) && t.out <= WalkOne(env, t, path, symbols).out
  {
    WalkKeepsCaps(env, t, [path], symbols);
    assert [path][1..] == [];
    hide WithinCaps;
    assert WalkAll(env, WalkOne(env, t, path, symbols), [], symbols) == WalkOne(env, t, path, symbols);
  }

  /** The tokens taken only grow. */
  lemma {:induction false} UsedGrows(env: Env, t: Taken, paths: seq<string>, symbols: bool)
    ensures t.used <= WalkAll(env, t, paths, symbols).used
    decreases symbols, |paths|
  {
    if paths != [] {
      if symbols && env.resolveSymbol.Some? {
        UsedGrows(env, t, env.resolveSymbol.value(paths[0]), false);
      }
      UsedGrows(env, WalkOne(env, t, paths[0], symbols), paths[1..], symbols);
    }
  }

  lemma TakenAtOnce(env: Env, t: Taken, path: string, symbols: bool, text: string)
    requires WithinCaps(env, t) && ReadableAs(env, path, text)
    ensures TakenOrNoRoom(env, WalkOne(env, t, path, symbols), path, text)
  {
    if Holds(t.out, path) {
      OneKeepsCaps(env, t, path, symbols);
      var i :| 0 <= i < |t.out| && t.out[i].path == path;
      assert t.out[i] == Entry(path, text);
      assert WalkOne(env, t, path, symbols).out[i] == t.out[i];
    } else if |t.out| < env.maxFiles && Acceptable(env, t, path) {
      assert WalkOne(env, t, path, symbols).out[|t.out|] == Entry(path, text);
    } else if symbols && env.resolveSymbol.Some? {
      OneKeepsCaps(env, t, path, symbols);
      UsedGrows(env, t, env.resolveSymbol.value(path), false);
    }
  }

  lemma StillTaken(env: Env, t: Taken, t': Taken, path: string, text: string)
    requires TakenOrNoRoom(env, t, path, text) && t.out <= t'.out && t.used <= t'.used
    ensures TakenOrNoRoom(env, t', path, text)
  {
  }

  /** What is asked for first is taken first: asking for more only adds to the end. */
  lemma {:induction false} FirstAskedFirstTaken(env: Env, t: Taken, paths: seq<string>, more: seq<string>, symbols: bool)
    requires WithinCaps(env, t)
    ensures WalkAll(env, t, paths + more, symbols) == WalkAll(env, WalkAll(env, t, paths, symbols), more, symbols)
    ensures WalkAll(env, t, paths, symbols).out <= WalkAll(env, t, paths + more, symbols).out
    decreases |paths|
  {
    if paths == [] {
      assert paths + more == more;
      WalkKeepsCaps(env, t, more, symbols);
    } else {
      assert (paths + more)[1..] == paths[1..] + more;
      OneKeepsCaps(env, t, paths[0], symbols);
      FirstAskedFirstTaken(env, WalkOne(env, t, paths[0], symbols), paths[1..], more, symbols);
    }
  }

  lemma FirstOfRest(wave: seq<string>, k: nat, rest: seq<string>)
    requires k < |wave|
    ensures wave[k..] + rest != [] && (wave[k..] + rest)[0] == wave[k]
    ensures (wave[k..] + rest)[1..] == wave[k + 1..] + rest
  {
  }

  // ---------------------------------------------------------------------
  // The wave-based resolver
  // ---------------------------------------------------------------------

  predicate Distinct(s: seq<string>) {
    forall i, j :: 0 <= i < j < |s| ==> s[i] != s[j]
  }

  /** What was fetched, by path: each path once, with what the fetcher answered, and nothing already grounded. */
  ghost predicate FetchedOnce(env: Env, seen: set<string>, fetched: map<string, Option<string>>, fetches: seq<string>) {
    && fetched.Keys == seen
    && (forall p :: p in seen ==> p !in env.already && fetched[p] == env.fetch(p))
    && Distinct(fetches) && (forall p :: p in fetches <==> p in seen)
  }

  lemma FetchNext(env: Env, seen: set<string>, fetched: map<string, Option<string>>, fetches: seq<string>, p: string)
    requires FetchedOnce(env, seen, fetched, fetches) && p !in seen && p !in env.already
    ensures FetchedOnce(env, seen + {p}, fetched[p := env.fetch(p)], fetches + [p])
  {
  }

  /** One wave of prefetching: its paths, and how many files had been taken when it started. */
  datatype Wave = Wave(paths: seq<string>, taken: nat)

  /** No wave was wider than the headroom left when it started, the headroom only shrank, and nothing was fetched outside a wave. */
  ghost predicate WavesFit(env: Env, waves: seq<Wave>, taken: nat, fetches: seq<string>) {
    && (forall i :: 0 <= i < |waves| ==> |waves[i].paths| + waves[i].taken <= env.maxFiles && waves[i].taken <= taken)
    && (forall i, j :: 0 <= i < j < |waves| ==> waves[i].taken <= waves[j].taken)
    && (forall p :: p in fetches ==> exists i :: 0 <= i < |waves| && p in waves[i].paths)
  }

  lemma WaveNext(env: Env, waves: seq<Wave>, taken: nat, fetches: seq<string>, paths: seq<string>, more: seq<string>)
    requires WavesFit(env, waves, taken, fetches) && |paths| + taken <= env.maxFiles
    requires fetches <= more && forall p :: p in more[|fetches|..] ==> p in paths
    ensures WavesFit(env, waves + [Wave(paths, taken)], taken, more)
  {
    var waves' := waves + [Wave(paths, taken)];
    forall p | p in more
      ensures exists i :: 0 <= i < |waves'| && p in waves'[i].paths
    {
      assert more == fetches + more[|fetches|..];
      if p in fetches {
        var i :| 0 <= i < |waves| && p in waves[i].paths;
        assert waves'[i] == waves[i];
      } else {
        assert waves'[|waves|].paths == paths;
      }
    }
  }

  lemma WavesStillFit(env: Env, waves: seq<Wave>, taken: nat, fetches: seq<string>, more: nat)
    requires WavesFit(env, waves, taken, fetches) && taken <= more
    ensures WavesFit(env, waves, more, fetches)
  {
  }

  /** The paths of a wave that may be fetched. */
  ghost function Asked(env: Env, paths: seq<string>): set<string> {
    set p | p in paths && p !in env.already
  }

  lemma AskedNone(env: Env, paths: seq<string>)
    ensures Asked(env, paths[..0]) == {}
  {
  }

  lemma AskedNext(env: Env, paths: seq<string>, i: nat)
    requires i < |paths|
    ensures Asked(env, paths[..i + 1]) == Asked(env, paths[..i]) + (if paths[i] in env.already then {} else {paths[i]})
  {
    TakeNext(paths, i);
  }

  lemma AskedIs(env: Env, paths: seq<string>)
    ensures Asked(env, paths) == (set p | p in paths && p !in env.already)
  {
  }

  /** `resolve_needs`'s shared locals. `fetches` records every call of the fetcher and `waves` every wave, in order. */
  class Resolver {
    const env: Env
    var out: seq<Entry>
    var used: nat
    var seen: set<string>
    var fetched: map<string, Option<string>>
    ghost var fetches: seq<string>
    ghost var waves: seq<Wave>

    ghost predicate Valid()
      reads this
    {
      FetchedOnce(env, seen, fetched, fetches) && WavesFit(env, waves, |out|, fetches)
    }

    function Now(): Taken
      reads this
    {
      Taken(out, used)
    }

    constructor (env: Env)
      ensures Valid() && this.env == env && Now() == Taken([], 0) && fetches == [] && waves == []
    {
      this.env := env;
      out, used, seen, fetched, fetches, waves := [], 0, {}, map[], [], [];
    }

    /** The wave is never wider than the headroom, and each path is fetched at most once, ever. */
    method Prefetch(paths: seq<string>)
      requires Valid() && |out| + |paths| <= env.maxFiles
      modifies this
      ensures Valid() && Now() == old(Now())
      ensures seen == old(seen) + (set p | p in paths && p !in env.already)
      ensures old(fetches) <= fetches && |fetches| - |old(fetches)| <= |paths|
      ensures waves == old(waves) + [Wave(paths, |old(out)|)]
    {
      hide FetchedOnce, Asked, WavesFit;
      AskedNone(env, paths);
      for i := 0 to |paths|
        invariant FetchedOnce(env, seen, fetched, fetches) && Now() == old(Now()) && waves == old(waves)
        invariant old(fetches) <= fetches && forall p :: p in fetches[|old(fetches)|..] ==> p in paths
        invariant seen == old(seen) + Asked(env, paths[..i])
        invariant old(fetches) <= fetches && |fetches| - |old(fetches)| <= i
      {
        var p := paths[i];
        AskedNext(env, paths, i);
        if p !in seen && p !in env.already {
          FetchNext(env, seen, fetched, fetches, p);
          seen := seen + {p};
          fetched := fetched[p := env.fetch(p)];
          fetches := fetches + [p];
        }
      }
      assert paths[..|paths|] == paths;
      AskedIs(env, paths);
      WaveNext(env, waves, |out|, old(fetches), paths, fetches);
      waves := waves + [Wave(paths, |out|)];
    }

    /** Takes an already fetched path if it is readable, new and within the budget. */
    method AcceptPath(path: string) returns (ok: bool)
      requires Valid() && (path in seen || path in env.already)
      modifies this`out, this`used
      ensures Valid()
      ensures ok == Acceptable(env, old(Now()), path)
      ensures Now() == if ok then Accept(env, old(Now()), path) else old(Now())
    {
      hide WavesFit;
      if exists i :: 0 <= i < |out| && out[i].path == path {
        return false;
      }
      var raw := if path in fetched then fetched[path] else None;
      if raw.None? || raw.value == [] {
        return false;
      }
      var text := env.redact(raw.value);
      var cost := env.count(text);
      if used + cost > env.budget {
        return false;
      }
      WavesStillFit(env, waves, |out|, fetches, |out| + 1);
      out := out + [Entry(path, text)];
      used := used + cost;
      return true;
    }

    /** One prefetched entry: accepted, or resolved as a symbol to the files that define it. */
    method TakeOne(path: string, resolveSymbols: bool)
      requires Valid() && WithinCaps(env, Now()) && |out| < env.maxFiles
      requires path in seen || path in env.already
      modifies this
      ensures Valid() && WithinCaps(env, Now())
      ensures Now() == WalkOne(env, old(Now()), path, resolveSymbols)
      ensures old(fetches) <= fetches && old(seen) <= seen && old(waves) <= waves
      decreases resolveSymbols, 0
    {
      ghost var before := Now();
      var ok := AcceptPath(path);
      if ok {
        AcceptKeepsCaps(env, before, path);
      } else if resolveSymbols && env.resolveSymbol.Some? {
        TakeInWaves(env.resolveSymbol.value(path), false);
      }
    }

    /** Fetching in waves takes exactly what the one-at-a-time walk takes. */
    method TakeInWaves(paths: seq<string>, resolveSymbols: bool)
      requires Valid() && WithinCaps(env, Now())
      modifies this
      ensures Valid() && WithinCaps(env, Now())
      ensures Now() == WalkAll(env, old(Now()), paths, resolveSymbols)
      ensures old(fetches) <= fetches && old(seen) <= seen && old(waves) <= waves
      decreases resolveSymbols, 1
    {
      ghost var goal := WalkAll(env, Now(), paths, resolveSymbols);
      hide WithinCaps, WalkOne, WavesFit, FetchedOnce;
      var pending := paths;
      while pending != [] && |out| < env.maxFiles
        invariant Valid() && WithinCaps(env, Now())
        invariant old(fetches) <= fetches && old(seen) <= seen && old(waves) <= waves
        invariant WalkAll(env, Now(), pending, resolveSymbols) == goal
        decreases |pending|
      {
        var width := env.maxFiles - |out|;
        var cut := if width < |pending| then width else |pending|;
        var wave, rest := pending[..cut], pending[cut..];
        assert pending == wave + rest;
        Prefetch(wave);
        assert wave[0..] == wave;
        for k := 0 to |wave|
          invariant Valid() && WithinCaps(env, Now())
          invariant old(fetches) <= fetches && old(seen) <= seen && old(waves) <= waves
          invariant forall p :: p in wave ==> p in seen || p in env.already
          invariant WalkAll(env, Now(), wave[k..] + rest, resolveSymbols) == goal
        {
          if |out| >= env.maxFiles {
            WalkFull(env, Now(), wave[k..] + rest, resolveSymbols);
            WalkFull(env, Now(), rest, resolveSymbols);
            break;
          }
          var path := wave[k];
          FirstOfRest(wave, k, rest);
          TakeOne(path, resolveSymbols);
        }
        assert wave[|wave|..] + rest == rest;
        pending := rest;
      }
      if |out| >= env.maxFiles {
        WalkFull(env, Now(), pending, resolveSymbols);
      }
    }
  }

  /**
    `resolve_needs` returns what the sequential walk returns, inside both caps,
    with each path fetched at most once and none that was already grounded, in
    waves each no wider than the headroom left when it started.
   */
  method ResolveNeeds(needs: seq<string>, env: Env) returns (out: seq<Entry>, ghost fetches: seq<string>, ghost waves: seq<Wave>)
    ensures out == WalkAll(env, Taken([], 0), needs, true).out
    ensures |out| <= env.maxFiles && Cost(env, out) <= env.budget
    ensures forall i, j :: 0 <= i < j < |out| ==> out[i].path != out[j].path
    ensures forall i :: 0 <= i < |out| ==> TextFor(env, out[i].path) == Some(out[i].text)
    ensures Distinct(fetches) && forall p :: p in fetches ==> p !in env.already
    ensures WavesFit(env, waves, |out|, fetches)
  {
    var r := new Resolver(env);
    assert WithinCaps(env, r.Now());
    r.TakeInWaves(needs, true);
    out, fetches, waves := r.out, r.fetches, r.waves;
  }
}
