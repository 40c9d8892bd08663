/** Choosing among the JSON values a reply may hold (`iter_json_values`, `_classify`, `parse_findings` in `engine/parse.py`). */
module ParseFindings {
  import opened Wrappers
  import opened Texts
  import opened Findings
  import opened Scan
  import Json
  import Commas
  import Truncation

  /** A decoded JSON value, as far as the selection looks at it. Items are named by their text. */
  datatype Decoded =
    | Envelope(items: seq<string>)               // an object whose `findings` is a list
    | Lone(item: string)                         // any other object
    | Listed(items: seq<string>, objects: bool)  // a list, and whether it holds objects only
    | Scalar

  /** What the parser relies on: dropping reasoning blocks, the JSON decoder and the findings schema. */
  datatype Reader = Reader(
    think: string -> string,
    decode: string -> Option<Decoded>,
    validate: string -> Option<Finding>)

  datatype Shape = EmptyReply | Prose | MalformedJson | NotFindings | Schema | Truncated

  datatype Parse = Found(findings: seq<Finding>) | ParseError(shape: Shape, recovered: seq<Finding>)

  // ---------------------------------------------------------------------
  // iter_json_values
  // ---------------------------------------------------------------------

  datatype Tried = Tried(values: seq<Decoded>, seen: set<string>)

  function TryOne(r: Reader, t: Tried, candidate: string): Tried {
    if candidate in t.seen then t
    else if r.decode(candidate).Some? then Tried(t.values + [r.decode(candidate).value], t.seen + {candidate})
    else
      var repaired := Commas.Strip(OUT, candidate);
      if repaired == candidate || repaired in t.seen then Tried(t.values, t.seen + {candidate})
      else Tried(t.values + (if r.decode(repaired).Some? then [r.decode(repaired).value] else []), t.seen + {candidate, repaired})
  }

  function TryAll(r: Reader, candidates: seq<string>): Tried {
    if candidates == [] then Tried([], {})
    else TryOne(r, TryAll(r, candidates[..|candidates| - 1]), candidates[|candidates| - 1])
  }

  /** The reply without its reasoning and outer blanks. */
  function Answer(r: Reader, raw: string): string { Trim(r.think(raw)) }

  function Candidates(text: string): seq<string> {
    if text == [] then [] else [text] + SpansBelow(text, |text|)
  }

  function ValuesIn(r: Reader, raw: string): seq<Decoded> { TryAll(r, Candidates(Answer(r, raw))).values }

  method IterJsonValues(r: Reader, raw: string) returns (values: seq<Decoded>)
    ensures values == ValuesIn(r, raw)
  {
    hide TryOne, Trim, SpansBelow;
    var text := Answer(r, raw);
    values := [];
    if text == [] {
      return;
    }
    var spans := BalancedSpans(text);
    var candidates := [text] + spans;
    var seen: set<string> := {};
    for i := 0 to |candidates|
      invariant Tried(values, seen) == TryAll(r, candidates[..i])
    {
      TakeNext(candidates, i);
      assert candidates[..i + 1][..i] == candidates[..i];
      var before := Tried(values, seen);
      values, seen := TryCandidate(r, values, seen, candidates[i]);
    }
    assert candidates[..|candidates|] == candidates;
  }

  method TryCandidate(r: Reader, values0: seq<Decoded>, seen0: set<string>, candidate: string)
    returns (values: seq<Decoded>, seen: set<string>)
    ensures Tried(values, seen) == TryOne(r, Tried(values0, seen0), candidate)
  {
    values, seen := values0, seen0;
    if candidate in seen {
      return;
    }
    seen := seen + {candidate};
    var value := r.decode(candidate);
    if value.Some? {
      return values + [value.value], seen;
    }
    var repaired := Commas.StripTrailingCommas(candidate);
    if repaired == candidate || repaired in seen {
      return;
    }
    assert seen + {repaired} == seen0 + {candidate, repaired};
    seen := seen + {repaired};
    value := r.decode(repaired);
    if value.Some? {
      values := values + [value.value];
    }
  }

  /** Every candidate that decodes has its value among those tried, however often it was seen before. */
  lemma {:induction false} TriedHold(r: Reader, candidates: seq<string>)
    ensures forall s :: s in TryAll(r, candidates).seen && r.decode(s).Some? ==> r.decode(s).value in TryAll(r, candidates).values
    ensures forall c :: c in candidates ==> c in TryAll(r, candidates).seen
  {
    hide Commas.Strip;
    if candidates != [] {
      var front := candidates[..|candidates| - 1];
      assert candidates == front + [candidates[|candidates| - 1]];
      TriedHold(r, front);
    }
  }

  /** What one candidate decodes to: as it stands, or else repaired. */
  function Yield(r: Reader, candidate: string): Option<Decoded> {
    if r.decode(candidate).Some? then r.decode(candidate) else r.decode(Commas.Strip(OUT, candidate))
  }

  /**
    Candidate `i` is tried: it is the first of its text, and no earlier candidate
    that was tried and does not decode has this text for its repair.
   */
  ghost predicate IsTried(r: Reader, candidates: seq<string>, i: nat)
    requires i < |candidates|
    decreases i
  {
    && candidates[i] !in candidates[..i]
    && forall j :: 0 <= j < i && IsTried(r, candidates, j) && r.decode(candidates[j]).None? ==>
         Commas.Strip(OUT, candidates[j]) != candidates[i]
  }

  /** The text is one of the first `n` candidates, or the repair of one that was tried and does not decode. */
  ghost predicate IsKnown(r: Reader, candidates: seq<string>, n: nat, s: string)
    requires n <= |candidates|
  {
    s in candidates[..n]
    || exists j :: 0 <= j < n && IsTried(r, candidates, j) && r.decode(candidates[j]).None? && Commas.Strip(OUT, candidates[j]) == s
  }

  lemma TriedIsUnknown(r: Reader, candidates: seq<string>, i: nat)
    requires i < |candidates|
    ensures IsTried(r, candidates, i) <==> !IsKnown(r, candidates, i, candidates[i])
  {
    hide Commas.Strip;
  }

  /** What is known after one more candidate. */
  lemma KnownNext(r: Reader, candidates: seq<string>, i: nat, s: string)
    requires i < |candidates|
    ensures IsKnown(r, candidates, i + 1, s) <==>
              IsKnown(r, candidates, i, s) || s == candidates[i]
              || (IsTried(r, candidates, i) && r.decode(candidates[i]).None? && Commas.Strip(OUT, candidates[i]) == s)
  {
    hide Commas.Strip, IsTried;
    TakeNext(candidates, i);
  }

  /** The memory of texts already seen is exactly what is known. */
  lemma {:induction false} SeenIsKnown(r: Reader, candidates: seq<string>, n: nat, s: string)
    requires n <= |candidates|
    ensures s in TryAll(r, candidates[..n]).seen <==> IsKnown(r, candidates, n, s)
  {
    hide Commas.Strip, IsTried, IsKnown;
    if n == 0 {
      NoneKnown(r, candidates, s);
    } else {
      var i := n - 1;
      assert candidates[..n][..i] == candidates[..i];
      SeenIsKnown(r, candidates, i, s);
      SeenIsKnown(r, candidates, i, candidates[i]);
      KnownNext(r, candidates, i, s);
      TriedIsUnknown(r, candidates, i);
    }
  }

  lemma NoneKnown(r: Reader, candidates: seq<string>, s: string)
    ensures !IsKnown(r, candidates, 0, s)
  {
  }

  /**
    The first candidate of its text is passed over if and only if an earlier one,
    itself tried and not decodable, has this text for its repair.
   */
  lemma PassedOverIff(r: Reader, candidates: seq<string>, i: nat)
    requires i < |candidates| && candidates[i] !in candidates[..i]
    ensures candidates[i] in TryAll(r, candidates[..i]).seen <==>
              exists j :: 0 <= j < i && candidates[j] !in TryAll(r, candidates[..j]).seen
                          && r.decode(candidates[j]).None? && Commas.Strip(OUT, candidates[j]) == candidates[i]
  {
    hide Commas.Strip, IsTried, TryAll;
    SeenIsKnown(r, candidates, i, candidates[i]);
    forall j | 0 <= j < i
      ensures candidates[j] !in TryAll(r, candidates[..j]).seen <==> IsTried(r, candidates, j)
    {
      SeenIsKnown(r, candidates, j, candidates[j]);
      TriedIsUnknown(r, candidates, j);
    }
  }

  /** The values come from the candidates that were tried, and every one of those has its value among them. */
  lemma {:induction false} TriedExactly(r: Reader, candidates: seq<string>, v: Decoded)
    ensures v in TryAll(r, candidates).values <==>
              exists i :: 0 <= i < |candidates| && IsTried(r, candidates, i) && Yield(r, candidates[i]) == Some(v)
  {
    TriedUpTo(r, candidates, |candidates|, v);
    assert candidates[..|candidates|] == candidates;
  }

  lemma {:induction false} TriedUpTo(r: Reader, candidates: seq<string>, n: nat, v: Decoded)
    requires n <= |candidates|
    ensures v in TryAll(r, candidates[..n]).values <==>
              exists i :: 0 <= i < n && IsTried(r, candidates, i) && Yield(r, candidates[i]) == Some(v)
  {
    hide Commas.Strip, IsTried, IsKnown;
    if n > 0 {
      var i := n - 1;
      assert candidates[..n][..i] == candidates[..i];
      TriedUpTo(r, candidates, i, v);
      SeenIsKnown(r, candidates, i, candidates[i]);
      TriedIsUnknown(r, candidates, i);
      TriedHold(r, candidates[..i]);
      LastTried(r, TryAll(r, candidates[..i]), candidates[i], v);
    }
  }

  /** One more candidate adds its value, unless its text was seen. */
  lemma LastTried(r: Reader, t: Tried, c: string, v: Decoded)
    requires forall s :: s in t.seen && r.decode(s).Some? ==> r.decode(s).value in t.values
    ensures v in TryOne(r, t, c).values <==> v in t.values || (c !in t.seen && Yield(r, c) == Some(v))
  {
    hide Commas.Strip;
  }

  /** No candidate is the half-repaired form of another. */
  ghost predicate Settled(candidates: seq<string>) {
    forall a, b :: a in candidates && b in candidates && Commas.Strip(OUT, a) == b ==> Commas.Strip(OUT, b) == b
  }

  /** Then every candidate has its value among those tried. */
  lemma {:induction false} SettledLosesNothing(r: Reader, candidates: seq<string>, v: Decoded)
    requires Settled(candidates)
    ensures v in TryAll(r, candidates).values <==> exists c :: c in candidates && Yield(r, c) == Some(v)
  {
    hide Commas.Strip, TryAll, IsTried;
    TriedExactly(r, candidates, v);
    if c :| c in candidates && Yield(r, c) == Some(v) {
      var i := FirstOf(candidates, c);
      if !IsTried(r, candidates, i) {
        var j := RepairedTo(r, candidates, i);
        assert candidates[j] in candidates;
      }
    }
  }

  lemma RepairedTo(r: Reader, candidates: seq<string>, i: nat) returns (j: nat)
    requires i < |candidates| && candidates[i] !in candidates[..i] && !IsTried(r, candidates, i)
    ensures j < i && IsTried(r, candidates, j) && r.decode(candidates[j]).None? && Commas.Strip(OUT, candidates[j]) == candidates[i]
  {
    hide Commas.Strip;
    j :| 0 <= j < i && IsTried(r, candidates, j) && r.decode(candidates[j]).None? && Commas.Strip(OUT, candidates[j]) == candidates[i];
  }

  lemma {:induction false} FirstOf(s: seq<string>, c: string) returns (i: nat)
    requires c in s
    ensures i < |s| && s[i] == c && c !in s[..i]
  {
    if c in s[..|s| - 1] {
      i := FirstOf(s[..|s| - 1], c);
      assert s[..|s| - 1][..i] == s[..i];
    } else {
      i := |s| - 1;
    }
  }

  // ---------------------------------------------------------------------
  // Reading values as findings
  // ---------------------------------------------------------------------

  function AsFindingsList(v: Decoded): Option<seq<string>> {
    match v
    case Envelope(items) => Some(items)
    case Lone(item) => Some([item])
    case Listed(items, objects) => if objects then Some(items) else None
    case Scalar => None
  }

  predicate IsContainer(v: Decoded) { v.Envelope? || v.Listed? }

  /** The findings the items validate to, if every one of them does. */
  function Validated(r: Reader, items: seq<string>): Option<seq<Finding>> {
    if items == [] then Some([])
    else
      var front, last := Validated(r, items[..|items| - 1]), r.validate(items[|items| - 1]);
      if front.Some? && last.Some? then Some(front.value + [last.value]) else None
  }

  function Reading(r: Reader, v: Decoded): Option<seq<Finding>> {
    var items := AsFindingsList(v);
    if items.None? then None else Validated(r, items.value)
  }

  /** A whole payload that passes the schema. */
  predicate Complete(r: Reader, v: Decoded) { IsContainer(v) && Reading(r, v).Some? }

  /** One object that passes the schema by itself. */
  predicate Single(r: Reader, v: Decoded) { v.Lone? && Reading(r, v).Some? }

  predicate Refused(r: Reader, v: Decoded) { AsFindingsList(v).Some? && Reading(r, v).None? }

  /** The findings among the lone objects, in order: what a cut-off reply finished. */
  function Recovered(r: Reader, values: seq<Decoded>): seq<Finding> {
    if values == [] then []
    else
      var last := values[|values| - 1];
      Recovered(r, values[..|values| - 1])
      + (if last.Lone? && r.validate(last.item).Some? then [r.validate(last.item).value] else [])
  }

  method ValidateAll(r: Reader, items: seq<string>) returns (parsed: Option<seq<Finding>>)
    ensures parsed == Validated(r, items)
  {
    var findings: seq<Finding> := [];
    for i := 0 to |items|
      invariant Validated(r, items[..i]) == Some(findings)
    {
      assert items[..i + 1][..i] == items[..i];
      var finding := r.validate(items[i]);
      if finding.None? {
        OneBadItem(r, items, i);
        return None;
      }
      findings := findings + [finding.value];
    }
    assert items[..|items|] == items;
    return Some(findings);
  }

  lemma {:induction false} OneBadItem(r: Reader, items: seq<string>, i: nat)
    requires i < |items| && r.validate(items[i]).None?
    ensures Validated(r, items).None?
  {
    if i < |items| - 1 {
      OneBadItem(r, items[..|items| - 1], i);
    }
  }

  method RecoverCompleteFindings(r: Reader, raw: string) returns (recovered: seq<Finding>)
    ensures recovered == Recovered(r, ValuesIn(r, raw))
  {
    hide ValuesIn;
    var values := IterJsonValues(r, raw);
    recovered := [];
    for i := 0 to |values|
      invariant recovered == Recovered(r, values[..i])
    {
      assert values[..i + 1][..i] == values[..i];
      if values[i].Lone? {
        var finding := r.validate(values[i].item);
        if finding.Some? {
          recovered := recovered + [finding.value];
        }
      }
    }
    assert values[..|values|] == values;
  }

  /** A balanced span with a quote in it: only that counts as an attempt at JSON. */
  ghost predicate Attempted(text: string, s: string) {
    s in SpansBelow(text, |text|) && '"' in s
  }

  /** Which fault an unreadable reply shows, by the span in it that comes closest to JSON. */
  ghost function FaultOf(r: Reader, raw: string): Shape {
    var text := Answer(r, raw);
    if text == [] then EmptyReply
    else if r.decode(text).Some? then NotFindings
    else if !exists s :: Attempted(text, s) then Prose
    else if exists s :: Attempted(text, s) && r.decode(Commas.Strip(OUT, s)).Some? then NotFindings
    else MalformedJson
  }

  method Classify(r: Reader, raw: string) returns (shape: Shape)
    ensures shape == FaultOf(r, raw)
  {
    hide SpansBelow, Trim, Commas.Strip;
    var text := Answer(r, raw);
    if text == [] {
      return EmptyReply;
    }
    if r.decode(text).Some? {
      return NotFindings;
    }
    var spans := BalancedSpans(text);
    var attempted := false;
    for i := 0 to |spans|
      invariant attempted <==> exists s :: s in spans[..i] && '"' in s
      invariant !exists s :: s in spans[..i] && '"' in s && r.decode(Commas.Strip(OUT, s)).Some?
    {
      TakeNext(spans, i);
      if '"' in spans[i] {
        attempted := true;
        var repaired := Commas.StripTrailingCommas(spans[i]);
        if r.decode(repaired).Some? {
          assert Attempted(text, spans[i]);
          return NotFindings;
        }
      }
    }
    assert spans[..|spans|] == spans;
    assert forall s :: Attempted(text, s) <==> s in spans && '"' in s;
    return if attempted then MalformedJson else Prose;
  }

  // ---------------------------------------------------------------------
  // parse_findings
  // ---------------------------------------------------------------------

  /** What the loop knows after `i` values, none of them complete: the first lone finding and whether any was refused. */
  ghost predicate Examined(r: Reader, values: seq<Decoded>, i: nat, lastError: bool, single: Option<seq<Finding>>)
    requires i <= |values|
  {
    && (forall j :: 0 <= j < i ==> !Complete(r, values[j]))
    && (lastError <==> exists j :: 0 <= j < i && Refused(r, values[j]))
    && (single.None? ==> forall j :: 0 <= j < i ==> !Single(r, values[j]))
    && (single.Some? ==> FirstSingle(r, values, i, single.value))
  }

  /** The first of the first `i` values that is a valid finding by itself reads as these findings. */
  ghost predicate FirstSingle(r: Reader, values: seq<Decoded>, i: nat, findings: seq<Finding>)
    requires i <= |values|
  {
    exists j :: 0 <= j < i && Single(r, values[j]) && Reading(r, values[j]) == Some(findings)
                && forall k :: 0 <= k < j ==> !Single(r, values[k])
  }

  /** The first complete payload reads as these findings. */
  ghost predicate FirstComplete(r: Reader, values: seq<Decoded>, findings: seq<Finding>) {
    exists j :: 0 <= j < |values| && Complete(r, values[j]) && Reading(r, values[j]) == Some(findings)
                && forall k :: 0 <= k < j ==> !Complete(r, values[k])
  }

  lemma ExaminedNext(r: Reader, values: seq<Decoded>, i: nat, lastError: bool, single: Option<seq<Finding>>)
    requires i < |values| && Examined(r, values, i, lastError, single) && !Complete(r, values[i])
    ensures Examined(r, values, i + 1, lastError || Refused(r, values[i]),
                     if single.None? && Single(r, values[i]) then Reading(r, values[i]) else single)
  {
    hide Validated;
    var lastError' := lastError || Refused(r, values[i]);
    assert lastError' <==> exists j :: 0 <= j < i + 1 && Refused(r, values[j]) by {
      if lastError {
        var j :| 0 <= j < i && Refused(r, values[j]);
        assert 0 <= j < i + 1;
      }
    }
    if single.Some? {
      var j :| 0 <= j < i && Single(r, values[j]) && Reading(r, values[j]) == single
               && forall k :: 0 <= k < j ==> !Single(r, values[k]);
      assert FirstSingle(r, values, i + 1, single.value);
    } else if Single(r, values[i]) {
      assert FirstSingle(r, values, i + 1, Reading(r, values[i]).value);
    }
  }

  /**
    The first complete payload is the answer. Failing that a reply that opens more
    than it closes is a truncation, with what it finished; then the first lone
    object is the answer; then the fault is the schema's, or whatever the text shows.
   */
  ghost predicate Selected(r: Reader, raw: string, result: Parse) {
    if Trim(raw) == [] then result == ParseError(EmptyReply, [])
    else
      var values := ValuesIn(r, raw);
      if exists v :: v in values && Complete(r, v) then
        result.Found? && FirstComplete(r, values, result.findings)
      else if Json.Unterminated(r.think(raw)) then
        result == ParseError(Truncated, Recovered(r, values))
      else if exists v :: v in values && Single(r, v) then
        result.Found? && FirstSingle(r, values, |values|, result.findings)
      else
        result == ParseError(if exists v :: v in values && Refused(r, v) then Schema else FaultOf(r, raw), [])
  }

  method ParseFindings(r: Reader, raw: string) returns (result: Parse)
    ensures Selected(r, raw, result)
  {
    hide *;
    if Trim(raw) == [] {
      SelectedEmpty(r, raw);
      return ParseError(EmptyReply, []);
    }
    var values := IterJsonValues(r, raw);
    var lastError := false;
    var single: Option<seq<Finding>> := None;
    NothingExamined(r, values);
    for i := 0 to |values|
      invariant Examined(r, values, i, lastError, single)
    {
      var v := values[i];
      var items := AsFindingsList(v);
      if items.None? {
        ReadsAsNothing(r, v);
        ExaminedNext(r, values, i, lastError, single);
        continue;
      }
      var parsed := ValidateAll(r, items.value);
      ReadsAs(r, v, parsed);
      if parsed.None? {
        ExaminedNext(r, values, i, lastError, single);
        lastError := true;
        continue;
      }
      if IsContainer(v) {
        CompleteAt(r, values, i, lastError, single);
        SelectedComplete(r, raw, v, parsed.value);
        return Found(parsed.value);
      }
      ExaminedNext(r, values, i, lastError, single);
      if single.None? {
        single := parsed;
      }
    }
    AllExamined(r, values, lastError, single);
    var cut := IsUnterminated(r.think(raw));
    SelectedIncomplete(r, raw, cut, lastError, single);
    if cut {
      var recovered := RecoverCompleteFindings(r, raw);
      return ParseError(Truncated, recovered);
    }
    if single.Some? {
      return Found(single.value);
    }
    if lastError {
      return ParseError(Schema, []);
    }
    var shape := Classify(r, raw);
    return ParseError(shape, []);
  }

  lemma SelectedEmpty(r: Reader, raw: string)
    requires Trim(raw) == []
    ensures Selected(r, raw, ParseError(EmptyReply, []))
  {
    hide Trim;
  }

  lemma SelectedComplete(r: Reader, raw: string, v: Decoded, findings: seq<Finding>)
    requires Trim(raw) != [] && v in ValuesIn(r, raw) && Complete(r, v) && FirstComplete(r, ValuesIn(r, raw), findings)
    ensures Selected(r, raw, Found(findings))
  {
    hide Trim, ValuesIn, Complete, FirstComplete;
  }

  /** What is selected when no value is a whole payload. */
  lemma SelectedIncomplete(r: Reader, raw: string, cut: bool, lastError: bool, single: Option<seq<Finding>>)
    requires Trim(raw) != [] && (forall v :: v in ValuesIn(r, raw) ==> !Complete(r, v))
    requires cut <==> Sum(Weights(Either, OUT, r.think(raw))) > 0
    requires lastError <==> exists v :: v in ValuesIn(r, raw) && Refused(r, v)
    requires single.Some? <==> exists v :: v in ValuesIn(r, raw) && Single(r, v)
    requires single.Some? ==> FirstSingle(r, ValuesIn(r, raw), |ValuesIn(r, raw)|, single.value)
    ensures Selected(r, raw, if cut then ParseError(Truncated, Recovered(r, ValuesIn(r, raw)))
                             else if single.Some? then Found(single.value)
                             else ParseError(if lastError then Schema else FaultOf(r, raw), []))
  {
    hide Trim, ValuesIn, Complete, Single, Refused, Recovered, FaultOf, FirstSingle, Weights, Sum;
  }

  lemma ReadsAsNothing(r: Reader, v: Decoded)
    requires AsFindingsList(v).None?
    ensures !Complete(r, v) && !Single(r, v) && !Refused(r, v)
  {
  }

  lemma ReadsAs(r: Reader, v: Decoded, parsed: Option<seq<Finding>>)
    requires AsFindingsList(v).Some? && parsed == Validated(r, AsFindingsList(v).value)
    ensures Reading(r, v) == parsed && (Refused(r, v) <==> parsed.None?)
    ensures Complete(r, v) <==> parsed.Some? && IsContainer(v)
    ensures Single(r, v) <==> parsed.Some? && !IsContainer(v)
  {
  }

  lemma NothingExamined(r: Reader, values: seq<Decoded>)
    ensures Examined(r, values, 0, false, None)
  {
  }

  lemma CompleteAt(r: Reader, values: seq<Decoded>, i: nat, lastError: bool, single: Option<seq<Finding>>)
    requires i < |values| && Examined(r, values, i, lastError, single) && Complete(r, values[i])
    ensures values[i] in values && Complete(r, values[i]) && FirstComplete(r, values, Reading(r, values[i]).value)
  {
    hide Validated;
  }

  lemma AllExamined(r: Reader, values: seq<Decoded>, lastError: bool, single: Option<seq<Finding>>)
    requires Examined(r, values, |values|, lastError, single)
    ensures forall v :: v in values ==> !Complete(r, v)
    ensures lastError <==> exists v :: v in values && Refused(r, v)
    ensures single.Some? <==> exists v :: v in values && Single(r, v)
    ensures single.Some? ==> FirstSingle(r, values, |values|, single.value)
  {
    hide Validated;
    if single.Some? {
      var j :| 0 <= j < |values| && Single(r, values[j]);
      assert values[j] in values;
    }
    if lastError {
      var j :| 0 <= j < |values| && Refused(r, values[j]);
      assert values[j] in values;
    }
  }

  // ---------------------------------------------------------------------
  // What the selection finds, and what it can hide
  // ---------------------------------------------------------------------

  /** The payload is printed whole in the answer, after a prefix that leaves no string open. */
  ghost predicate Printed(r: Reader, raw: string, v: Json.Json) {
    exists before, after :: After(OUT, before) == OUT && Answer(r, raw) == before + Json.Print(v) + after
  }

  /** A complete payload printed in the reply is among the values, whatever prose and stray brackets surround it. */
  lemma PrintedIsTried(r: Reader, raw: string, v: Json.Json, d: Decoded)
    requires Json.Valid(v) && v.Box? && Printed(r, raw, v) && r.decode(Json.Print(v)) == Some(d)
    ensures d in ValuesIn(r, raw)
  {
    hide SpansBelow, TryAll, Json.Print, Json.Valid, After, Trim;
    var text := Answer(r, raw);
    var before, after :| After(OUT, before) == OUT && text == before + Json.Print(v) + after;
    Json.ContainerIsOneSpan(before, v, after);
    Json.PrintIsLong(v);
    assert text != [];
    TriedHold(r, Candidates(text));
    assert Json.Print(v) in Candidates(text);
  }

  /** So a reply that holds a complete payload is never reported as an error: some complete payload is the answer. */
  lemma SomePayloadIsTheAnswer(r: Reader, raw: string, v: Json.Json, d: Decoded, result: Parse)
    requires Json.Valid(v) && v.Box? && Printed(r, raw, v) && r.decode(Json.Print(v)) == Some(d) && Complete(r, d)
    requires Trim(raw) != [] && Selected(r, raw, result)
    ensures result.Found? && FirstComplete(r, ValuesIn(r, raw), result.findings)
  {
    hide ValuesIn, Printed, Trim, Validated, FirstComplete, Json.Print, Json.Valid;
    PrintedIsTried(r, raw, v, d);
  }

  /** The text decodes, as it stands or repaired, to a whole payload that passes the schema. */
  predicate Readable(r: Reader, s: string) { Yield(r, s).Some? && Complete(r, Yield(r, s).value) }

  /** The given payload is the answer when nothing that opens before it, nor the reply as a whole, reads as a payload. */
  lemma {:induction false} FirstPayloadIsTheAnswer(r: Reader, raw: string, before: string, v: Json.Json, after: string, d: Decoded, result: Parse)
    requires Json.Valid(v) && v.Box? && After(OUT, before) == OUT && Answer(r, raw) == before + Json.Print(v) + after
    requires r.decode(Json.Print(v)) == Some(d) && Complete(r, d)
    requires var text := Answer(r, raw);
             forall s :: s in [text] + SpansBelow(text, |before|) && s != Json.Print(v) ==> !Readable(r, s)
    requires Trim(raw) != [] && Selected(r, raw, result)
    ensures result == Found(Reading(r, d).value)
  {
    hide SpansBelow, TryAll, Json.Print, Json.Valid, After, Trim, Answer, Reading, SpanAt, Complete;
    var text, p := Answer(r, raw), |before|;
    Json.PrintIsLong(v);
    assert text != [];
    Json.ContainerIsOneSpan(before, v, after);
    SpansSplit(text, p);
    var front, back :| Candidates(text) == front + [Json.Print(v)] + back && front == [text] + SpansBelow(text, p);
    TriedFirst(r, front, Json.Print(v), back, d);
    PayloadAmong(r, raw, ValuesIn(r, raw), d, result);
  }

  lemma SpansSplit(text: string, p: nat)
    requires p < |text| && |SpanAt(text, p)| == 1
    ensures exists front, back ::
              Candidates(text) == front + [SpanAt(text, p)[0]] + back && front == [text] + SpansBelow(text, p)
  {
    hide SpansBelow, SpanAt;
    var back := SpansAfter(text, p + 1, |text|);
    assert SpansBelow(text, p + 1) == SpansBelow(text, p) + SpanAt(text, p) by {
      SpansNext(text, p);
    }
    assert SpanAt(text, p) == [SpanAt(text, p)[0]];
    assert Candidates(text) == [text] + (SpansBelow(text, p) + [SpanAt(text, p)[0]] + back);
    assert Candidates(text) == ([text] + SpansBelow(text, p)) + [SpanAt(text, p)[0]] + back;
  }

  lemma SpansNext(text: string, p: nat)
    requires p < |text|
    ensures SpansBelow(text, p + 1) == SpansBelow(text, p) + SpanAt(text, p)
  {
  }

  lemma {:induction false} SpansAfter(text: string, a: nat, b: nat) returns (back: seq<string>)
    requires a <= b <= |text|
    ensures SpansBelow(text, b) == SpansBelow(text, a) + back
    decreases b - a
  {
    hide SpanAt;
    if a == b {
      back := [];
    } else {
      back := SpansAfter(text, a, b - 1);
      Assoc(SpansBelow(text, a), back, SpanAt(text, b - 1));
      back := back + SpanAt(text, b - 1);
    }
  }

  /** The first complete value is this one, even if it comes more than once. */
  ghost predicate Leads(r: Reader, values: seq<Decoded>, d: Decoded) {
    exists j :: 0 <= j < |values| && values[j] == d && forall k :: 0 <= k < j && Complete(r, values[k]) ==> values[k] == d
  }

  lemma OnlyPayload(r: Reader, front: seq<string>, payload: string, v: Decoded)
    requires forall s :: s in front && s != payload ==> !Readable(r, s)
    requires v in TryAll(r, front).values && Complete(r, v)
    ensures Yield(r, payload) == Some(v)
  {
    hide Yield, TryAll, IsTried, Complete;
    TriedExactly(r, front, v);
    var i :| 0 <= i < |front| && IsTried(r, front, i) && Yield(r, front[i]) == Some(v);
    assert front[i] in front;
  }

  lemma {:induction false} TriedFirst(r: Reader, front: seq<string>, payload: string, back: seq<string>, d: Decoded)
    requires r.decode(payload) == Some(d) && Complete(r, d)
    requires forall s :: s in front && s != payload ==> !Readable(r, s)
    ensures Leads(r, TryAll(r, front + [payload] + back).values, d)
  {
    hide Commas.Strip, Complete;
    if back == [] {
      var all := front + [payload];
      assert all + [] == all && all[..|all| - 1] == front;
      TriedHold(r, front);
      var values := TryAll(r, front).values;
      forall v | v in values && Complete(r, v)
        ensures v == d
      {
        OnlyPayload(r, front, payload, v);
      }
      var j :| 0 <= j < |TryAll(r, all).values| && TryAll(r, all).values[j] == d;
    } else {
      var less := back[..|back| - 1];
      TriedFirst(r, front, payload, less, d);
      var all := front + [payload] + back;
      assert all[..|all| - 1] == front + [payload] + less;
      assert TryAll(r, front + [payload] + less).values <= TryAll(r, all).values;
    }
  }

  lemma PayloadAmong(r: Reader, raw: string, values: seq<Decoded>, d: Decoded, result: Parse)
    requires values == ValuesIn(r, raw) && Leads(r, values, d) && Complete(r, d)
    requires Trim(raw) != [] && Selected(r, raw, result)
    ensures result == Found(Reading(r, d).value)
  {
    hide ValuesIn, Trim, Reading, Recovered, FaultOf;
    assert d in values;
  }

  // ---------------------------------------------------------------------
  // A payload cut off
  // ---------------------------------------------------------------------

  /** What can be read out of a printed container cut after `k` characters: the text itself and what closed before the cut. */
  function CutTexts(v: Json.Json, k: nat): seq<string>
    requires k <= |Json.Print(v)|
  {
    [Json.Print(v)[..k]] + Truncation.Prints(Truncation.Closed(v, k))
  }

  /** Trimming a text that starts with no blank only takes its end off. */
  lemma TrimIsPrefix(text: string)
    requires text != [] && !IsBlank(text[0])
    ensures 0 < |Trim(text)| <= |text| && Trim(text) == text[..|Trim(text)|]
  {
    assert TrimLeft(text) == text;
    TrimRightIsPrefix(text);
  }

  lemma {:induction false} TrimRightIsPrefix(text: string)
    requires text != [] && !IsBlank(text[0])
    ensures 0 < |TrimRight(text)| <= |text| && TrimRight(text) == text[..|TrimRight(text)|]
  {
    if IsBlank(text[|text| - 1]) {
      TrimRightIsPrefix(text[..|text| - 1]);
    }
  }

  /** The candidates in a cut reply. */
  lemma CutCandidates(r: Reader, v: Json.Json, c: nat)
    requires Json.Valid(v) && v.Box? && 0 < c < |Json.Print(v)|
    requires r.think(Json.Print(v)[..c]) == Json.Print(v)[..c]
    ensures var raw := Json.Print(v)[..c];
            var k := |Trim(raw)|;
            && 0 < k <= c && Answer(r, raw) == Trim(raw) == Json.Print(v)[..k]
            && Candidates(Answer(r, raw)) == CutTexts(v, k) && Settled(CutTexts(v, k))
            && Json.Unterminated(raw)
  {
    hide Trim, Json.Print, Json.Valid, SpansBelow, Truncation.Closed, Truncation.Prints, Settled, Json.Unterminated;
    var raw := Json.Print(v)[..c];
    Json.PrintIsLong(v);
    assert raw[0] == Json.Print(v)[0];
    OpenIsNoBlank(v.curly);
    TrimIsPrefix(raw);
    var k := |Trim(raw)|;
    assert raw[..k] == Json.Print(v)[..k];
    Truncation.SpansOfCut(v, k);
    CutIsSettled(v, k);
    Json.TruncationIsExact(v, c);
  }

  lemma OpenIsNoBlank(curly: bool)
    ensures !IsBlank(Json.Open(curly)[0])
  {
  }

  /** The cut text stays cut when repaired, and printed containers are repaired in one go. */
  lemma CutIsSettled(v: Json.Json, k: nat)
    requires Json.Valid(v) && v.Box? && 0 < k < |Json.Print(v)|
    ensures Settled(CutTexts(v, k))
  {
    hide Json.Print, Json.Valid, Truncation.Closed, Commas.Strip, Json.Unterminated;
    var text, closed := Json.Print(v)[..k], Truncation.Closed(v, k);
    Json.TruncationIsExact(v, k);
    Commas.RepairKeepsCut(text);
    Truncation.ClosedAreValid(v, k);
    forall u | u in closed
      ensures !Json.Unterminated(Json.Print(u))
    {
      assert Json.Print(u)[..|Json.Print(u)|] == Json.Print(u);
      Json.TruncationIsExact(u, |Json.Print(u)|);
    }
    forall a, b | a in CutTexts(v, k) && b in CutTexts(v, k) && Commas.Strip(OUT, a) == b
      ensures Commas.Strip(OUT, b) == b
    {
      if a != text {
        var u :| u in closed && a == Json.Print(u);
        Commas.RepairIsStable(u);
      }
    }
  }

  /**
    A printed payload cut anywhere. It is reported as cut off if and only if
    nothing that closed before the cut, nor the cut text itself, reads as a whole
    payload; and then what is recovered is exactly the lone findings among them.
   */
  lemma CutIsReportedIff(r: Reader, v: Json.Json, c: nat, result: Parse)
    requires Json.Valid(v) && v.Box? && 0 < c < |Json.Print(v)|
    requires var raw := Json.Print(v)[..c]; r.think(raw) == raw && Selected(r, raw, result)
    ensures var k := |Trim(Json.Print(v)[..c])|;
            && 0 < k <= c
            && (result.ParseError? <==> forall s :: s in CutTexts(v, k) ==> !Readable(r, s))
            && (result.ParseError? ==> result.shape == Truncated
                                       && forall f :: f in result.recovered <==> FinishedIn(r, CutTexts(v, k), f))
  {
    hide Trim, Json.Print, Json.Valid, CutTexts, Settled, Json.Unterminated, Recovered, Complete, Candidates, Answer, TryAll, FirstComplete;
    var raw := Json.Print(v)[..c];
    CutCandidates(r, v, c);
    var texts, values := CutTexts(v, |Trim(raw)|), ValuesIn(r, raw);
    assert values == TryAll(r, texts).values;
    forall d ensures d in values <==> exists s :: s in texts && Yield(r, s) == Some(d) {
      SettledLosesNothing(r, texts, d);
    }
    forall f: Finding
      ensures f in Recovered(r, values) <==> FinishedIn(r, texts, f)
    {
      RecoveredAre(r, values, f);
    }
  }

  /** One of the texts reads as an object that is this finding. */
  ghost predicate FinishedIn(r: Reader, texts: seq<string>, f: Finding) {
    exists s, item :: s in texts && Yield(r, s) == Some(Lone(item)) && r.validate(item) == Some(f)
  }

  lemma {:induction false} RecoveredAre(r: Reader, values: seq<Decoded>, f: Finding)
    ensures f in Recovered(r, values) <==> exists item :: Lone(item) in values && r.validate(item) == Some(f)
  {
    if values != [] {
      var front, last := values[..|values| - 1], values[|values| - 1];
      assert values == front + [last];
      RecoveredAre(r, front, f);
    }
  }

  // ---------------------------------------------------------------------
  // A cut the selection does not see
  // ---------------------------------------------------------------------

  const EMPTY_LIST := Json.Box(false, Json.NoElems, Json.NoComma(""))

  /** `{"needs": [], "findings": []}`, for any two keys. */
  function NothingFound(needs: seq<Json.Item>, findings: seq<Json.Item>): Json.Json {
    Json.Box(true, Json.Elem("", Some(Json.Key(needs, "", " ")), EMPTY_LIST, "",
                             Json.Elem(" ", Some(Json.Key(findings, "", " ")), EMPTY_LIST, "", Json.NoElems)),
             Json.NoComma(""))
  }

  /** Its first characters up to the second bracket of its second list: `{"needs": [], "findings": [`. */
  function CutReply(needs: seq<Json.Item>, findings: seq<Json.Item>): string {
    "{" + Json.PrintString(needs) + ": " + "[]" + ", " + Json.PrintString(findings) + ": " + "["
  }

  lemma CutReplyIsCut(needs: seq<Json.Item>, findings: seq<Json.Item>)
    requires Json.ItemsOk(needs) && Json.ItemsOk(findings)
    ensures var v, raw := NothingFound(needs, findings), CutReply(needs, findings);
            && Json.Valid(v) && v.Box? && 0 < |raw| < |Json.Print(v)| && Json.Print(v)[..|raw|] == raw
            && Truncation.Closed(v, |raw|) == [EMPTY_LIST]
    ensures Json.Print(EMPTY_LIST) == "[]"
  {
    hide Json.PrintString, Json.Print, Truncation.Closed, Truncation.ClosedElems, Json.PrintElems;
    var v, raw := NothingFound(needs, findings), CutReply(needs, findings);
    var first, second := v.elems, v.elems.rest;
    EmptyListPrints(|raw| - 1 - |"" + Json.PrintKey(first.key)|);
    NothingFoundIsValid(needs, findings);
    ElemPrints("", needs, second);
    ElemPrints(" ", findings, Json.NoElems);
    BoxPrints(first);
    assert Json.Print(v) == raw + "]}";
    Truncation.ClosedIs(v, |raw|);
    Truncation.ClosedElemsIs(first, |raw| - 1);
    var left := |raw| - 1 - |"" + Json.PrintKey(first.key)| - 2 - |""| - 1;
    assert left == |" " + Json.PrintKey(second.key)| + 1;
    Truncation.ClosedElemsIs(second, left);
    EmptyListPrints(1);
    Truncation.NoElemsClosed(1 - 2 - |""| - 1);
  }

  lemma NothingFoundIsValid(needs: seq<Json.Item>, findings: seq<Json.Item>)
    requires Json.ItemsOk(needs) && Json.ItemsOk(findings)
    ensures Json.Valid(NothingFound(needs, findings))
  {
    hide Json.ItemsOk;
    var first := NothingFound(needs, findings).elems;
    assert Json.Valid(EMPTY_LIST);
    assert Json.ValidElems(true, Json.NoElems);
    assert Json.ValidElems(true, first.rest);
    assert Json.ValidElems(true, first);
  }

  /** One member whose value is an empty list, and what follows it. */
  lemma ElemPrints(lead: string, key: seq<Json.Item>, rest: Json.Elems)
    ensures var elems := Json.Elem(lead, Some(Json.Key(key, "", " ")), EMPTY_LIST, "", rest);
            && Json.PrintKey(elems.key) == Json.PrintString(key) + ": "
            && Json.PrintElems(elems) == lead + Json.PrintString(key) + ": " + "[]" + (if rest.NoElems? then [] else "," + Json.PrintElems(rest))
  {
    hide Json.PrintString;
    EmptyListPrints(0);
    var elems := Json.Elem(lead, Some(Json.Key(key, "", " ")), EMPTY_LIST, "", rest);
    assert Json.PrintKey(elems.key) == Json.PrintString(key) + "" + ":" + " ";
    hide Json.Print, Json.PrintKey;
  }

  lemma BoxPrints(elems: Json.Elems)
    ensures Json.Print(Json.Box(true, elems, Json.NoComma(""))) == "{" + Json.PrintElems(elems) + "}"
  {
    hide Json.PrintElems;
    assert Json.PrintElems(elems) + "" == Json.PrintElems(elems);
  }

  lemma EmptyListPrints(c: int)
    ensures Json.Valid(EMPTY_LIST) && Json.Print(EMPTY_LIST) == "[]"
    ensures Truncation.Closed(EMPTY_LIST, c) == if c >= 2 then [EMPTY_LIST] else []
  {
    assert Json.PrintElems(Json.NoElems) == [];
  }

  /**
    A payload cut off after an empty list inside it: nothing of its findings was
    read, the cut is there to see, and yet the parse is a clean answer without
    findings, because the empty list that closed before the cut reads as a payload.
   */
  lemma {:induction false} CutReadsAsClean(r: Reader, needs: seq<Json.Item>, findings: seq<Json.Item>, result: Parse)
    requires Json.ItemsOk(needs) && Json.ItemsOk(findings)
    requires var raw := CutReply(needs, findings);
             r.think(raw) == raw && r.decode(raw).None? && r.decode(Commas.Strip(OUT, raw)).None? && Selected(r, raw, result)
    requires r.decode("[]") == Some(Listed([], true))
    ensures Json.Unterminated(CutReply(needs, findings))
    ensures result == Found([])
  {
    hide CutReply, Trim, Candidates, Answer, TryAll, Json.Unterminated, NothingFound, Json.Print, Json.Valid, Truncation.Closed,
      Commas.Strip, Recovered, FaultOf, Settled;
    var raw, v := CutReply(needs, findings), NothingFound(needs, findings);
    CutReplyIsCut(needs, findings);
    CutCandidates(r, v, |raw|);
    RawIsTrim(needs, findings);
    CutTextsAre(v, |raw|, EMPTY_LIST);
    assert ValuesIn(r, raw) == TryAll(r, [raw, "[]"]).values;
    forall d
      ensures d in ValuesIn(r, raw) <==> d == Listed([], true)
    {
      SettledLosesNothing(r, [raw, "[]"], d);
      assert "[]" in [raw, "[]"];
    }
    EmptyListIsTheAnswer(r, ValuesIn(r, raw), result);
  }

  lemma CutTextsAre(v: Json.Json, k: nat, u: Json.Json)
    requires k <= |Json.Print(v)| && Truncation.Closed(v, k) == [u]
    ensures CutTexts(v, k) == [Json.Print(v)[..k], Json.Print(u)]
  {
    hide Json.Print, Truncation.Closed;
  }

  lemma EmptyListIsTheAnswer(r: Reader, values: seq<Decoded>, result: Parse)
    requires forall d :: d in values <==> d == Listed([], true)
    requires (exists v :: v in values && Complete(r, v)) ==> result.Found? && FirstComplete(r, values, result.findings)
    ensures result == Found([])
  {
    assert Complete(r, Listed([], true));
    var j :| 0 <= j < |values| && Complete(r, values[j]) && Reading(r, values[j]) == Some(result.findings);
    assert values[j] in values;
  }

  lemma NothingToTrim(text: string)
    requires text != [] && !IsBlank(text[0]) && !IsBlank(text[|text| - 1])
    ensures Trim(text) == text
  {
  }

  lemma RawIsTrim(needs: seq<Json.Item>, findings: seq<Json.Item>)
    ensures Trim(CutReply(needs, findings)) == CutReply(needs, findings)
  {
    hide Json.PrintString;
    var raw := CutReply(needs, findings);
    var mid := Json.PrintString(needs) + ": " + "[]" + ", " + Json.PrintString(findings) + ": ";
    assert raw == "{" + mid + "[";
    NothingToTrim(raw);
  }

  // ---------------------------------------------------------------------
  // A reading the memory of seen texts loses
  // ---------------------------------------------------------------------

  /** `[,,] [,]`: the repair of the first list is the second one, which would be repaired to an empty list. */
  const TWICE := "[,,] [,]"

  lemma RepairsOfLists()
    ensures Commas.Strip(OUT, "[,]") == "[]" && Commas.Strip(OUT, "[,,]") == "[,]"
  {
    hide Commas.Strip;
    TwoCommas("]");
    Commas.CopyOutside("]", "");
    NothingToStrip();
    assert "]" + "" == "]";
    assert Commas.Strip(OUT, "]") == "]";
    Commas.CopyOutside("[", [','] + "]");
    Commas.CopyOutside("[", [','] + ([','] + "]"));
    assert "[" + "]" == "[]" && "[" + ([','] + "]") == "[,]" && "[" + ([','] + ([','] + "]")) == "[,,]";
  }

  lemma NothingToStrip()
    ensures Commas.Strip(OUT, "") == ""
  {
  }

  lemma RepairOfTwice()
    ensures Commas.Strip(OUT, TWICE) == "[,] []"
  {
    RepairsOfLists();
    hide Commas.Strip;
    var rest := "] " + "[,]";
    TwoCommas(rest);
    Commas.CopyOutside("] ", "[,]");
    Commas.CopyOutside("[", [','] + ([','] + rest));
    TwiceIs();
  }

  lemma TwiceIs()
    ensures TWICE == "[" + ([','] + ([','] + ("] " + "[,]"))) && "[" + ([','] + ("] " + "[]")) == "[,] []"
  {
  }

  lemma OneComma(rest: string)
    requires rest != "" && rest[0] == ']'
    ensures Commas.Strip(OUT, [','] + rest) == Commas.Strip(OUT, rest)
  {
    NoBlank(rest);
    Commas.StripComma(rest);
  }

  lemma TwoCommas(rest: string)
    requires rest != "" && rest[0] == ']'
    ensures Commas.Strip(OUT, [','] + rest) == Commas.Strip(OUT, rest)
    ensures Commas.Strip(OUT, [','] + ([','] + rest)) == [','] + Commas.Strip(OUT, rest)
  {
    hide Commas.Strip;
    OneComma(rest);
    NoBlank([','] + rest);
    Commas.RepairsComma([','] + rest);
    assert "," + ([','] + rest) == [','] + ([','] + rest);
  }

  lemma NoBlank(text: string)
    requires text == "" || !IsBlank(text[0])
    ensures Commas.SkipBlanks(text) == text
  {
  }

  /** Without quotes every character stands outside strings. */
  lemma {:induction false} NoQuotes(k: Kind, text: string)
    requires '"' !in text
    ensures forall i :: 0 <= i < |text| ==> Outside(OUT, text)[i] && Weights(k, OUT, text)[i] == Weight(k, text[i])
  {
    forall i | 0 <= i < |text|
      ensures Outside(OUT, text)[i] && Weights(k, OUT, text)[i] == Weight(k, text[i])
    {
      Commas.AfterPlain(text[..i]);
      OutsideAt(OUT, text, i);
      WeightAt(k, OUT, text, i);
    }
  }

  lemma WeightsOfTwice()
    ensures forall i :: 0 <= i < 8 ==> Outside(OUT, TWICE)[i]
    ensures Weights(Square, OUT, TWICE) == Weights(Either, OUT, TWICE) == [1, 0, 0, -1, 0, 1, 0, -1]
  {
    hide Weights, Outside;
    NoQuotes(Square, TWICE);
    NoQuotes(Either, TWICE);
  }

  lemma SumsOfLists()
    ensures Sum([1]) == Sum([1, 0]) == Sum([1, 0, 0]) == 1 && Sum([1, 0, 0, -1]) == Sum([1, 0, -1]) == 0
  {
    Json.One(1);
    Json.One(0);
    Json.One(-1);
    hide Sum;
    assert [1, 0] == [1] + [0] && [1, 0, 0] == [1, 0] + [0] && [1, 0, 0, -1] == [1, 0, 0] + [-1] && [1, 0, -1] == [1, 0] + [-1];
    SumConcat([1], [0]);
    SumConcat([1, 0], [0]);
    SumConcat([1, 0, 0], [-1]);
    SumConcat([1, 0], [-1]);
  }

  lemma SumsOfTwice()
    ensures var ws := [1, 0, 0, -1, 0, 1, 0, -1];
            Sum(ws) == 0 && FirstReturn(ws, 0, 4) && FirstReturn(ws, 5, 8)
  {
    SumsOfLists();
    Json.One(0);
    hide Sum;
    var ws := [1, 0, 0, -1, 0, 1, 0, -1];
    assert ws[0..1] == [1] && ws[0..2] == [1, 0] && ws[0..3] == [1, 0, 0] && ws[0..4] == [1, 0, 0, -1];
    assert ws[5..6] == [1] && ws[5..7] == [1, 0] && ws[5..8] == [1, 0, -1];
    assert ws == [1, 0, 0, -1] + ([0] + [1, 0, -1]);
    SumConcat([0], [1, 0, -1]);
    SumConcat([1, 0, 0, -1], [0] + [1, 0, -1]);
  }

  lemma SpansOfTwice()
    ensures SpansBelow(TWICE, 8) == ["[,,]", "[,]"] && !Json.Unterminated(TWICE)
  {
    hide Weights, Outside, Sum, ScanOn, FirstReturn, SpansBelow, SpanAt;
    WeightsOfTwice();
    SumsOfTwice();
    var ws := Weights(Square, OUT, TWICE);
    FirstReturnIsScan(ws, 0, 4);
    FirstReturnIsScan(ws, 5, 8);
    assert TWICE[0..4] == "[,,]" && TWICE[5..8] == "[,]";
    SpanFound(TWICE, 0, 4);
    SpanFound(TWICE, 5, 8);
    NoSpansBetween(TWICE, 1, 5);
    NoSpansBetween(TWICE, 6, 8);
    SpansNext(TWICE, 0);
    SpansNext(TWICE, 5);
    NoSpansYet(TWICE);
  }

  lemma SpanFound(text: string, p: nat, e: nat)
    requires p < e <= |text| && Outside(OUT, text)[p] && text[p] == '['
    requires ScanOn(Weights(Square, OUT, text), p, 0) == Some(e)
    ensures SpanAt(text, p) == [text[p..e]]
  {
    hide Weights, Outside, ScanOn;
  }

  lemma NoSpansYet(text: string)
    ensures SpansBelow(text, 0) == []
  {
  }

  /**
    In the reply `[,,] [,]` the second list is passed over, because it was seen as
    the repair of the first: nothing is read out of the reply and it is an error,
    although the second list by itself reads as a clean answer without findings.
   */
  lemma MemoryLosesARepair(r: Reader, result: Parse)
    requires r.think(TWICE) == TWICE && Selected(r, TWICE, result)
    requires r.decode("[]") == Some(Listed([], true))
    requires r.decode(TWICE).None? && r.decode("[,] []").None? && r.decode("[,,]").None? && r.decode("[,]").None?
    ensures Candidates(Answer(r, TWICE)) == [TWICE, "[,,]", "[,]"] && Readable(r, "[,]")
    ensures ValuesIn(r, TWICE) == [] && result == ParseError(Prose, [])
  {
    hide Commas.Strip, SpansBelow, Trim, Json.Unterminated, TryAll;
    RepairsOfLists();
    SpansOfTwice();
    NothingToTrim(TWICE);
    assert Candidates(TWICE) == [TWICE] + ["[,,]", "[,]"] == [TWICE, "[,,]", "[,]"];
    NothingTried(r);
    NothingToSelect(r, TWICE, result);
  }

  lemma NothingTried(r: Reader)
    requires r.decode(TWICE).None? && r.decode("[,] []").None? && r.decode("[,,]").None? && r.decode("[,]").None?
    ensures TryAll(r, [TWICE, "[,,]", "[,]"]).values == []
  {
    RepairsOfLists();
    RepairOfTwice();
    FirstSeen(r);
    hide Commas.Strip, TryOne;
    var all := [TWICE, "[,,]", "[,]"];
    assert all[..2] == [TWICE, "[,,]"] && all[..2][..1] == [TWICE] && [TWICE][..0] == [];
    TriesNothing(r, TryAll(r, []), TWICE);
    TriesNothing(r, TryAll(r, [TWICE]), "[,,]");
    SeesBoth(r, TryAll(r, [TWICE]), "[,,]");
    TriesKnown(r, TryAll(r, [TWICE, "[,,]"]), "[,]");
  }

  lemma FirstSeen(r: Reader)
    requires Commas.Strip(OUT, TWICE) == "[,] []"
    ensures "[,,]" !in TryAll(r, [TWICE]).seen
  {
    hide Commas.Strip;
    assert [TWICE][..0] == [];
    assert TryAll(r, [TWICE]) == TryOne(r, TryAll(r, []), TWICE);
  }

  lemma TriesNothing(r: Reader, t: Tried, c: string)
    requires Yield(r, c).None?
    ensures TryOne(r, t, c).values == t.values
  {
    hide Commas.Strip;
  }

  lemma SeesBoth(r: Reader, t: Tried, c: string)
    requires c !in t.seen && r.decode(c).None?
    ensures Commas.Strip(OUT, c) in TryOne(r, t, c).seen
  {
    hide Commas.Strip;
  }

  lemma TriesKnown(r: Reader, t: Tried, c: string)
    requires c in t.seen
    ensures TryOne(r, t, c) == t
  {
  }

  lemma NothingToSelect(r: Reader, raw: string, result: Parse)
    requires Selected(r, raw, result) && ValuesIn(r, raw) == [] && Trim(raw) != [] && !Json.Unterminated(r.think(raw))
    ensures result == ParseError(FaultOf(r, raw), [])
  {
    hide ValuesIn, Trim, FaultOf, Json.Unterminated;
  }
}
