/** Which findings a reply is read as, item by item (`parse_findings` in `engine/parse.py`). */
module Readings {
  import opened Wrappers
  import opened Texts
  import opened Findings
  import opened Scan
  import opened ParseFindings
  import Json
  import Commas

  // ---------------------------------------------------------------------
  // One value
  // ---------------------------------------------------------------------

  /** The items pass the schema, each as the finding in its place. */
  predicate Pass(r: Reader, items: seq<string>, fs: seq<Finding>) {
    |fs| == |items| && forall i :: 0 <= i < |items| ==> r.validate(items[i]) == Some(fs[i])
  }

  lemma {:induction false} ValidatedIs(r: Reader, items: seq<string>, fs: seq<Finding>)
    ensures Validated(r, items) == Some(fs) <==> Pass(r, items, fs)
  {
    if items != [] && fs != [] {
      ValidatedIs(r, items[..|items| - 1], fs[..|fs| - 1]);
      var front := Validated(r, items[..|items| - 1]);
      assert fs == fs[..|fs| - 1] + [fs[|fs| - 1]];
      if front.Some? && r.validate(items[|items| - 1]).Some? {
        assert (front.value + [r.validate(items[|items| - 1]).value])[..|front.value|] == front.value;
      }
      if Pass(r, items, fs) {
        assert Pass(r, items[..|items| - 1], fs[..|fs| - 1]);
      }
    }
  }

  /** Some item fails the schema. */
  predicate SomeFails(r: Reader, items: seq<string>) {
    exists i :: 0 <= i < |items| && r.validate(items[i]).None?
  }

  lemma {:induction false} FailsOrPasses(r: Reader, items: seq<string>)
    ensures Validated(r, items).None? <==> SomeFails(r, items)
  {
    if Validated(r, items).Some? {
      ValidatedIs(r, items, Validated(r, items).value);
    } else if !SomeFails(r, items) {
      var fs := seq(|items|, i requires 0 <= i < |items| => r.validate(items[i]).value);
      ValidatedIs(r, items, fs);
    }
  }

  /** The value is a findings envelope or a list of objects, and its items are these findings. */
  predicate Pays(r: Reader, v: Decoded, fs: seq<Finding>) {
    match v
    case Envelope(items) => Pass(r, items, fs)
    case Listed(items, objects) => objects && Pass(r, items, fs)
    case Lone(_) => false
    case Scalar => false
  }

  /** The value is one object that is this finding. */
  predicate IsAlone(r: Reader, v: Decoded, f: Finding) {
    v.Lone? && r.validate(v.item) == Some(f)
  }

  /** The value has the form of findings, and one of its items is none. */
  predicate Misfits(r: Reader, v: Decoded) {
    match v
    case Envelope(items) => SomeFails(r, items)
    case Listed(items, objects) => objects && SomeFails(r, items)
    case Lone(item) => r.validate(item).None?
    case Scalar => false
  }

  ghost predicate HasPayload(r: Reader, v: Decoded) { exists fs :: Pays(r, v, fs) }

  /** The three ways to read a value, and what each yields. */
  lemma ReadingIs(r: Reader, v: Decoded)
    ensures Complete(r, v) <==> HasPayload(r, v)
    ensures forall fs :: Complete(r, v) && Reading(r, v) == Some(fs) <==> Pays(r, v, fs)
    ensures Single(r, v) <==> v.Lone? && r.validate(v.item).Some?
    ensures forall f :: Single(r, v) && Reading(r, v) == Some([f]) <==> IsAlone(r, v, f)
    ensures Single(r, v) ==> |Reading(r, v).value| == 1
    ensures Refused(r, v) <==> Misfits(r, v)
  {
    var items := AsFindingsList(v);
    if items.Some? {
      FailsOrPasses(r, items.value);
      forall fs
        ensures Validated(r, items.value) == Some(fs) <==> Pass(r, items.value, fs)
      {
        ValidatedIs(r, items.value, fs);
      }
    }
    if v.Lone? {
      LoneReads(r, v.item);
    }
    hide Validated;
    if Complete(r, v) {
      assert Pays(r, v, Reading(r, v).value);
    }
  }

  lemma LoneReads(r: Reader, item: string)
    ensures Validated(r, [item]) == if r.validate(item).Some? then Some([r.validate(item).value]) else None
    ensures SomeFails(r, [item]) <==> r.validate(item).None?
  {
    assert [item][0] == item;
    if r.validate(item).Some? {
      ValidatedIs(r, [item], [r.validate(item).value]);
    } else {
      FailsOrPasses(r, [item]);
    }
  }

  // ---------------------------------------------------------------------
  // The reply
  // ---------------------------------------------------------------------

  /** Of the values, the first that is a payload is read as these findings. */
  ghost predicate FirstPayload(r: Reader, values: seq<Decoded>, fs: seq<Finding>) {
    exists j :: 0 <= j < |values| && Pays(r, values[j], fs) && forall k :: 0 <= k < j ==> !HasPayload(r, values[k])
  }

  /** Of the values, the first that is a finding by itself is this one. */
  ghost predicate FirstAlone(r: Reader, values: seq<Decoded>, f: Finding) {
    exists j :: 0 <= j < |values| && IsAlone(r, values[j], f) && forall k, g :: 0 <= k < j ==> !IsAlone(r, values[k], g)
  }

  /** The findings are those of the lone objects that are one, all of them and in order. */
  ghost predicate Salvaged(r: Reader, values: seq<Decoded>, fs: seq<Finding>, from: seq<nat>) {
    && |from| == |fs|
    && (forall k, l :: 0 <= k < l < |from| ==> from[k] < from[l])
    && (forall k :: 0 <= k < |from| ==> from[k] < |values| && IsAlone(r, values[from[k]], fs[k]))
    && (forall i, f :: 0 <= i < |values| && IsAlone(r, values[i], f) ==> i in from)
  }

  lemma {:induction false} RecoveredIs(r: Reader, values: seq<Decoded>) returns (from: seq<nat>)
    ensures Salvaged(r, values, Recovered(r, values), from)
  {
    from := [];
    if values != [] {
      var front, last := values[..|values| - 1], values[|values| - 1];
      from := RecoveredIs(r, front);
      if last.Lone? && r.validate(last.item).Some? {
        from := from + [|front|];
      }
    }
  }

  /**
    What a reply is read as: the first payload; failing that, if the reply is cut
    off, a truncation with the findings it finished; failing that, the first finding
    by itself; failing that, a fault of the schema if some value had the form of
    findings, and otherwise of whatever the text shows.
   */
  ghost predicate ReadAs(r: Reader, raw: string, values: seq<Decoded>, result: Parse) {
    if exists v :: v in values && HasPayload(r, v) then
      result.Found? && FirstPayload(r, values, result.findings)
    else if Json.Unterminated(r.think(raw)) then
      result.ParseError? && result.shape == Truncated && exists from :: Salvaged(r, values, result.recovered, from)
    else if exists v, f :: v in values && IsAlone(r, v, f) then
      result.Found? && |result.findings| == 1 && FirstAlone(r, values, result.findings[0])
    else if exists v :: v in values && Misfits(r, v) then
      result == ParseError(Schema, [])
    else
      result == ParseError(FaultOf(r, raw), [])
  }

  lemma SelectedIsRead(r: Reader, raw: string, result: Parse)
    requires Selected(r, raw, result) && Trim(raw) != []
    ensures ReadAs(r, raw, ValuesIn(r, raw), result)
  {
    var values := ValuesIn(r, raw);
    forall v
      ensures Complete(r, v) <==> HasPayload(r, v)
      ensures Single(r, v) <==> v.Lone? && r.validate(v.item).Some?
      ensures Refused(r, v) <==> Misfits(r, v)
    {
      ReadingIs(r, v);
    }
    hide Trim, ValuesIn, Recovered, FaultOf, Complete, Refused, Reading, HasPayload, Misfits;
    if v :| v in values && Complete(r, v) {
      FirstIsRead(r, values, result.findings);
    } else if Json.Unterminated(r.think(raw)) {
      var from := RecoveredIs(r, values);
    } else if v :| v in values && Single(r, v) {
      assert IsAlone(r, v, r.validate(v.item).value);
      FirstAloneIsRead(r, values, result.findings);
    } else {
      assert forall v, f :: v in values ==> !IsAlone(r, v, f);
    }
  }

  lemma FirstIsRead(r: Reader, values: seq<Decoded>, fs: seq<Finding>)
    requires FirstComplete(r, values, fs)
    ensures FirstPayload(r, values, fs)
  {
    hide Complete, Reading, HasPayload;
    var j :| 0 <= j < |values| && Complete(r, values[j]) && Reading(r, values[j]) == Some(fs)
             && forall k :: 0 <= k < j ==> !Complete(r, values[k]);
    ReadingIs(r, values[j]);
    forall k | 0 <= k < j
      ensures !HasPayload(r, values[k])
    {
      ReadingIs(r, values[k]);
    }
  }

  lemma FirstAloneIsRead(r: Reader, values: seq<Decoded>, fs: seq<Finding>)
    requires FirstSingle(r, values, |values|, fs)
    ensures |fs| == 1 && FirstAlone(r, values, fs[0])
  {
    hide Single, Reading;
    var j :| 0 <= j < |values| && Single(r, values[j]) && Reading(r, values[j]) == Some(fs)
             && forall k :: 0 <= k < j ==> !Single(r, values[k]);
    ReadingIs(r, values[j]);
    assert fs == [fs[0]];
    forall k, g | 0 <= k < j
      ensures !IsAlone(r, values[k], g)
    {
      ReadingIs(r, values[k]);
    }
  }

  // ---------------------------------------------------------------------
  // The ordinary replies
  // ---------------------------------------------------------------------

  /** A reply that is, as a whole, an envelope or a list of objects whose items are all findings, is read as those. */
  lemma WholeReplyIsRead(r: Reader, raw: string, v: Decoded, fs: seq<Finding>, result: Parse)
    requires Selected(r, raw, result) && Trim(raw) != [] && Answer(r, raw) != []
    requires r.decode(Answer(r, raw)) == Some(v) && Pays(r, v, fs)
    ensures result == Found(fs)
  {
    WholeIsFirst(r, raw, v);
    SelectedIsRead(r, raw, result);
    ReadingIs(r, v);
    hide ValuesIn, Trim, Answer, Reading, Complete, FaultOf;
    var values := ValuesIn(r, raw);
    assert v in values && HasPayload(r, v);
    var j :| 0 <= j < |values| && Pays(r, values[j], result.findings) && forall k :: 0 <= k < j ==> !HasPayload(r, values[k]);
    assert j == 0;
  }

  lemma WholeIsFirst(r: Reader, raw: string, v: Decoded)
    requires Answer(r, raw) != [] && r.decode(Answer(r, raw)) == Some(v)
    ensures ValuesIn(r, raw) != [] && ValuesIn(r, raw)[0] == v
  {
    hide Answer, SpansBelow;
    var text := Answer(r, raw);
    TriedFrom(r, [text], SpansBelow(text, |text|));
    assert [text][..0] == [];
    assert TryAll(r, [text]).values == [v];
  }

  lemma {:induction false} TriedFrom(r: Reader, front: seq<string>, back: seq<string>)
    ensures TryAll(r, front).values <= TryAll(r, front + back).values
  {
    hide Commas.Strip;
    if back == [] {
      assert front + back == front;
    } else {
      TriedFrom(r, front, back[..|back| - 1]);
      assert (front + back)[..|front + back| - 1] == front + back[..|back| - 1];
    }
  }

  /** The candidate reads, as it stands or repaired, as this value. */
  predicate Holds(r: Reader, c: string, v: Decoded) { Yield(r, c) == Some(v) }

  /** So is a printed payload, whatever surrounds it, if neither the reply as a whole nor anything that opens before it is one. */
  lemma FirstPrintedIsRead(r: Reader, raw: string, before: string, v: Json.Json, after: string, d: Decoded, fs: seq<Finding>, result: Parse)
    requires Json.Valid(v) && v.Box? && After(OUT, before) == OUT && Answer(r, raw) == before + Json.Print(v) + after
    requires r.decode(Json.Print(v)) == Some(d) && Pays(r, d, fs)
    requires var text := Answer(r, raw);
             forall s, u :: s in [text] + SpansBelow(text, |before|) && s != Json.Print(v) && Holds(r, s, u) ==> !HasPayload(r, u)
    requires Trim(raw) != [] && Selected(r, raw, result)
    ensures result == Found(fs)
  {
    hide SpansBelow, Json.Print, Json.Valid, After, Trim, Answer, Reading, Complete, Selected, HasPayload;
    ReadingIs(r, d);
    var text := Answer(r, raw);
    forall s | s in [text] + SpansBelow(text, |before|) && s != Json.Print(v)
      ensures !Readable(r, s)
    {
      if Yield(r, s).Some? {
        assert Holds(r, s, Yield(r, s).value);
        ReadingIs(r, Yield(r, s).value);
      }
    }
    FirstPayloadIsTheAnswer(r, raw, before, v, after, d, result);
  }

  /**
    A reply that is not cut off and holds one finding as an object by itself, while
    no candidate is a payload and no other a finding, is read as that finding.
   */
  lemma LoneFindingIsRead(r: Reader, raw: string, c: string, x: string, f: Finding, result: Parse)
    requires Selected(r, raw, result) && Trim(raw) != [] && !Json.Unterminated(r.think(raw))
    requires c in Candidates(Answer(r, raw)) && r.decode(c) == Some(Lone(x)) && r.validate(x) == Some(f)
    requires forall c', v :: c' in Candidates(Answer(r, raw)) && Holds(r, c', v) ==> !HasPayload(r, v) && NoOther(r, v, f)
    ensures result == Found([f])
  {
    ValuesAreHeld(r, raw);
    SelectedIsRead(r, raw, result);
    hide ValuesIn, Trim, Answer, Candidates, FaultOf, Holds, HasPayload, NoOther, ReadAs, Json.Unterminated;
    OnlyFinding(r, raw, ValuesIn(r, raw), Lone(x), f, result);
  }

  /** If the value is a finding by itself, then this one. */
  ghost predicate NoOther(r: Reader, v: Decoded, f: Finding) { forall g :: IsAlone(r, v, g) ==> g == f }

  lemma OnlyFinding(r: Reader, raw: string, values: seq<Decoded>, v: Decoded, f: Finding, result: Parse)
    requires ReadAs(r, raw, values, result) && !Json.Unterminated(r.think(raw)) && v in values && IsAlone(r, v, f)
    requires forall u :: u in values ==> !HasPayload(r, u) && NoOther(r, u, f)
    ensures result == Found([f])
  {
    hide HasPayload, FaultOf, Json.Unterminated;
    var j :| 0 <= j < |values| && IsAlone(r, values[j], result.findings[0]);
    assert values[j] in values && NoOther(r, values[j], f);
  }

  /** Every value is one that some candidate holds, and every candidate that decodes as it stands has its value. */
  lemma ValuesAreHeld(r: Reader, raw: string)
    ensures forall v :: v in ValuesIn(r, raw) ==> exists c :: c in Candidates(Answer(r, raw)) && Holds(r, c, v)
    ensures forall c :: c in Candidates(Answer(r, raw)) && r.decode(c).Some? ==> r.decode(c).value in ValuesIn(r, raw)
  {
    hide Answer, Candidates, TryAll, Yield, IsTried;
    var candidates := Candidates(Answer(r, raw));
    TriedHold(r, candidates);
    forall v | v in ValuesIn(r, raw)
      ensures exists c :: c in candidates && Holds(r, c, v)
    {
      TriedExactly(r, candidates, v);
      var i :| 0 <= i < |candidates| && IsTried(r, candidates, i) && Yield(r, candidates[i]) == Some(v);
      assert candidates[i] in candidates && Holds(r, candidates[i], v);
    }
  }

  /**
    A reply is read as findings only if some candidate is one: an envelope or a list of
    objects with every item a finding, or an object that is one. A list holding
    anything but objects, or a payload with one item refused, is never read.
   */
  lemma NothingElseIsRead(r: Reader, raw: string, result: Parse)
    requires Selected(r, raw, result) && Trim(raw) != []
    requires forall c, v :: c in Candidates(Answer(r, raw)) && Holds(r, c, v) ==>
               NoFindings(r, v)
    ensures result.ParseError?
    ensures !Json.Unterminated(r.think(raw)) && (exists c :: c in Candidates(Answer(r, raw)) && r.decode(c).Some? && Misfits(r, r.decode(c).value)) ==>
              result == ParseError(Schema, [])
  {
    ValuesAreHeld(r, raw);
    SelectedIsRead(r, raw, result);
    hide ValuesIn, Trim, Answer, Candidates, FaultOf, Holds, ReadAs, Json.Unterminated, Misfits, NoFindings;
    NoneRead(r, raw, ValuesIn(r, raw), result);
  }

  /** A scalar, a list that holds anything but objects, or a value with an item refused. */
  predicate NoFindings(r: Reader, v: Decoded) { v.Scalar? || (v.Listed? && !v.objects) || Misfits(r, v) }

  lemma NoneRead(r: Reader, raw: string, values: seq<Decoded>, result: Parse)
    requires ReadAs(r, raw, values, result) && forall v :: v in values ==> NoFindings(r, v)
    ensures result.ParseError?
    ensures !Json.Unterminated(r.think(raw)) && (exists v :: v in values && Misfits(r, v)) ==> result == ParseError(Schema, [])
  {
    forall v | v in values
      ensures !HasPayload(r, v) && forall f :: !IsAlone(r, v, f)
    {
      ReadingIs(r, v);
    }
    hide HasPayload, IsAlone, Misfits, NoFindings, Json.Unterminated, FaultOf;
  }

  // ---------------------------------------------------------------------
  // The faults
  // ---------------------------------------------------------------------

  /** A reply of blanks and reasoning is empty. */
  lemma EmptyIff(r: Reader, raw: string)
    ensures FaultOf(r, raw) == EmptyReply <==> AllBlank(r.think(raw))
  {
    var before, after := TrimParts(r.think(raw));
    assert AllBlank(r.think(raw)) ==> Trim(r.think(raw) + [] + []) == [] by {
      if AllBlank(r.think(raw)) {
        TrimIs(r.think(raw), [], []);
      }
    }
    assert r.think(raw) + [] + [] == r.think(raw);
    hide Trim, SpansBelow;
  }

  /**
    Of a reply with something in it: if it decodes as a whole it is JSON, but no
    findings; failing that, without a quote in it it is prose.
   */
  lemma WholeOrProse(r: Reader, raw: string)
    requires !AllBlank(r.think(raw))
    ensures r.decode(Answer(r, raw)).Some? ==> FaultOf(r, raw) == NotFindings
    ensures r.decode(Answer(r, raw)).None? && '"' !in Answer(r, raw) ==> FaultOf(r, raw) == Prose
  {
    EmptyIff(r, raw);
    var text := Answer(r, raw);
    hide Trim, SpansBelow, Answer;
    forall s | s in SpansBelow(text, |text|)
      ensures forall c :: c in s ==> c in text
    {
      SpanWithin(text, |text|, s);
    }
  }

  lemma {:induction false} SpanWithin(text: string, n: nat, s: string)
    requires n <= |text| && s in SpansBelow(text, n)
    ensures forall c :: c in s ==> c in text
  {
    hide Weights, Outside, ScanOn;
    if s !in SpansBelow(text, n - 1) {
      assert s in SpanAt(text, n - 1);
    } else {
      SpanWithin(text, n - 1, s);
    }
  }

  /**
    A reply that does not decode, but holds a whole printed object or list with a quote
    in it: if that decodes once its trailing commas are gone the shape is at fault,
    and if no bracketed part of the reply does the syntax is.
   */
  lemma PrintedFault(r: Reader, raw: string, v: Json.Json)
    requires Json.Valid(v) && v.Box? && Printed(r, raw, v) && '"' in Json.Print(v) && r.decode(Answer(r, raw)).None?
    ensures r.decode(Commas.Strip(OUT, Json.Print(v))).Some? ==> FaultOf(r, raw) == NotFindings
    ensures (forall s :: s in SpansBelow(Answer(r, raw), |Answer(r, raw)|) ==> r.decode(Commas.Strip(OUT, s)).None?) ==>
              FaultOf(r, raw) == MalformedJson
  {
    hide SpansBelow, Json.Print, Json.Valid, After, Answer, Commas.Strip;
    var text := Answer(r, raw);
    var before, after :| After(OUT, before) == OUT && text == before + Json.Print(v) + after;
    Json.ContainerIsOneSpan(before, v, after);
    Json.PrintIsLong(v);
    assert text != [];
    assert Attempted(text, Json.Print(v));
  }
}
