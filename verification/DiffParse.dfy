/**
  Unified-diff parsing: the line-numbering walk (`core/diffparse.py`).

  A diff is a sequence of tagged lines. A tag records what the source's regular
  expressions see in the text of the line; it does not record what the line
  means there. A line of the text `--- a/x` carries the tag `OldName("x")`
  wherever it stands: before a hunk it names the old file, inside a hunk the
  walk reads it as the deletion of `-- a/x`.
 */
module DiffParse {
  import opened Wrappers

  datatype Header = Header(oldStart: nat, oldLen: nat, newStart: nat, newLen: nat, section: string)

  datatype Line =
    | FileHeader(fallback: Option<string>)  // `diff --git ...`, with the path after ` b/` if there is one
    | OldName(path: string)                 // `--- a/<path>`
    | NewName(path: string)                 // `+++ b/<path>`
    | HunkHead(header: Header)              // a line the hunk-header expression accepts
    | BadHead(raw: string)                  // starts with `@@` but is not a hunk header
    | Added(text: string)                   // any other line starting with `+`
    | Deleted(text: string)                 // any other line starting with `-`
    | Kept(text: string)                    // a line starting with a space
    | Empty                                 // the empty line
    | NoNewline                             // a line starting with a backslash
    | RenameTo(path: string)                // `rename to <path>`
    | Meta(raw: string)                     // anything else (`index ...`, `new file mode ...`)

  datatype Mark = Plus | Minus | Space | Backslash

  /** What the first character of the line makes of it inside a hunk. */
  function MarkOf(l: Line): Mark {
    match l
    case Added(_) => Plus
    case NewName(_) => Plus
    case Deleted(_) => Minus
    case OldName(_) => Minus
    case NoNewline => Backslash
    case _ => Space
  }

  /** The line without its first character. */
  function TextOf(l: Line): string {
    match l
    case Added(t) => t
    case Deleted(t) => t
    case Kept(t) => t
    case OldName(p) => "-- a/" + p
    case NewName(p) => "++ b/" + p
    case RenameTo(p) => "ename to " + p
    case BadHead(raw) => if raw == [] then [] else raw[1..]
    case Meta(raw) => if raw == [] then [] else raw[1..]
    case _ => []
  }

  /** How many old-file lines a hunk line occupies. */
  function OldCount(l: Line): nat {
    if MarkOf(l) == Plus || MarkOf(l) == Backslash then 0 else 1
  }

  /** How many new-file lines a hunk line occupies. */
  function NewCount(l: Line): nat {
    if MarkOf(l) == Minus || MarkOf(l) == Backslash then 0 else 1
  }

  function OldLen(body: seq<Line>): nat {
    if body == [] then 0 else OldCount(body[0]) + OldLen(body[1..])
  }

  function NewLen(body: seq<Line>): nat {
    if body == [] then 0 else NewCount(body[0]) + NewLen(body[1..])
  }

  lemma {:induction false} LenConcat(a: seq<Line>, b: seq<Line>)
    ensures OldLen(a + b) == OldLen(a) + OldLen(b)
    ensures NewLen(a + b) == NewLen(a) + NewLen(b)
  {
    if a == [] {
      assert a + b == b;
    } else {
      assert (a + b)[1..] == a[1..] + b;
      LenConcat(a[1..], b);
    }
  }

  // ---------------------------------------------------------------------
  // The walk
  // ---------------------------------------------------------------------

  /** One yielded line: its path, marker, its number on both sides and its text. */
  datatype Walked = Walked(path: string, mark: Mark, oldLine: nat, newLine: nat, text: string)

  /** The walk's variables: `current_file`, `old_line`, `new_line`, `in_hunk`. */
  datatype State = State(file: Option<string>, oldLine: nat, newLine: nat, inHunk: bool)

  const INIT := State(None, 0, 0, false)

  /** The line is read as content of an open hunk. */
  predicate IsContent(s: State, l: Line) {
    s.file.Some? && s.inHunk && !l.FileHeader? && !l.HunkHead?
  }

  function Step(s: State, l: Line): State {
    if l.FileHeader? then s.(file := l.fallback, inHunk := false)
    else if !s.inHunk && (l.OldName? || l.NewName?) then s.(file := Some(l.path))
    else if s.file.None? then s
    else if l.HunkHead? then s.(oldLine := l.header.oldStart, newLine := l.header.newStart, inHunk := true)
    else if !s.inHunk then s
    else s.(oldLine := s.oldLine + OldCount(l), newLine := s.newLine + NewCount(l))
  }

  function Emit(s: State, l: Line): seq<Walked> {
    if IsContent(s, l) && MarkOf(l) != Backslash
    then [Walked(s.file.value, MarkOf(l), s.oldLine, s.newLine, TextOf(l))]
    else []
  }

  function Run(s: State, lines: seq<Line>): State
    decreases |lines|
  {
    if lines == [] then s else Run(Step(s, lines[0]), lines[1..])
  }

  /** Everything the walk yields from state `s`. */
  function Walk(s: State, lines: seq<Line>): seq<Walked>
    decreases |lines|
  {
    if lines == [] then [] else Emit(s, lines[0]) + Walk(Step(s, lines[0]), lines[1..])
  }

  lemma {:induction false} WalkConcat(s: State, a: seq<Line>, b: seq<Line>)
    ensures Run(s, a + b) == Run(Run(s, a), b)
    ensures Walk(s, a + b) == Walk(s, a) + Walk(Run(s, a), b)
    decreases |a|
  {
    if a == [] {
      assert a + b == b;
    } else {
      assert (a + b)[1..] == a[1..] + b;
      WalkConcat(Step(s, a[0]), a[1..], b);
    }
  }

  lemma WalkSnoc(s: State, a: seq<Line>, l: Line)
    ensures Run(s, a + [l]) == Step(Run(s, a), l)
    ensures Walk(s, a + [l]) == Walk(s, a) + Emit(Run(s, a), l)
  {
    WalkConcat(s, a, [l]);
    assert Run(Run(s, a), [l]) == Run(Step(Run(s, a), l), []);
    assert Walk(Run(s, a), [l]) == Emit(Run(s, a), l) + Walk(Step(Run(s, a), l), []);
  }

  /** How a line inside a hunk reads: its mark and its text. */
  predicate ReadsAs(l: Line, mark: Mark, text: string) {
    match l
    case Added(t) => mark == Plus && text == t
    case NewName(p) => mark == Plus && text == "++ b/" + p
    case Deleted(t) => mark == Minus && text == t
    case OldName(p) => mark == Minus && text == "-- a/" + p
    case Kept(t) => mark == Space && text == t
    case Empty => mark == Space && text == ""
    case RenameTo(p) => mark == Space && text == "ename to " + p
    case BadHead(raw) => mark == Space && (raw == text == "" || (raw != "" && raw == [raw[0]] + text))
    case Meta(raw) => mark == Space && (raw == text == "" || (raw != "" && raw == [raw[0]] + text))
    case _ => false
  }

  /** The line is in the old file: not an addition, nor the remark that a file ends without a newline. */
  predicate InOld(l: Line) { !l.Added? && !l.NewName? && !l.NoNewline? }

  predicate InNew(l: Line) { !l.Deleted? && !l.OldName? && !l.NoNewline? }

  predicate HasText(l: Line) { !l.NoNewline? }

  /** The places among the first `n` lines whose line passes. */
  function PlacesOf(body: seq<Line>, passes: Line -> bool, n: nat): set<nat>
    requires n <= |body|
  {
    set j: nat | j < n && passes(body[j])
  }

  /** Lines that neither start a file nor a hunk. */
  predicate OnlyContent(body: seq<Line>) { forall l :: l in body ==> !l.FileHeader? && !l.HunkHead? }

  lemma OnePlaceMore(body: seq<Line>, passes: Line -> bool, n: nat)
    requires n < |body|
    ensures |PlacesOf(body, passes, n + 1)| == |PlacesOf(body, passes, n)| + if passes(body[n]) then 1 else 0
  {
    assert PlacesOf(body, passes, n + 1) == PlacesOf(body, passes, n) + if passes(body[n]) then {n} else {};
  }

  /** Where the walk stands after the first `n` lines of a hunk, and what it has yielded. */
  lemma {:induction false} NumberedTo(s: State, body: seq<Line>, n: nat)
    requires s.file.Some? && s.inHunk && OnlyContent(body) && n <= |body|
    ensures Run(s, body[..n]) == s.(oldLine := s.oldLine + |PlacesOf(body, InOld, n)|, newLine := s.newLine + |PlacesOf(body, InNew, n)|)
    ensures |Walk(s, body[..n])| == |PlacesOf(body, HasText, n)|
  {
    if n == 0 {
      assert PlacesOf(body, InOld, 0) == {} && PlacesOf(body, InNew, 0) == {} && PlacesOf(body, HasText, 0) == {};
    } else {
      var k := n - 1;
      NumberedTo(s, body, k);
      assert body[..n] == body[..k] + [body[k]];
      WalkSnoc(s, body[..k], body[k]);
      OnePlaceMore(body, InOld, k);
      OnePlaceMore(body, InNew, k);
      OnePlaceMore(body, HasText, k);
      assert body[k] in body;
    }
  }

  /**
    Line `i` of a hunk is read under the file's path, with the numbers its lines
    before it give it: as many old lines on as there are before it in the old
    file, and as many new ones as there are in the new.
   */
  lemma LineIsNumbered(s: State, body: seq<Line>, i: nat) returns (k: nat)
    requires s.file.Some? && s.inHunk && OnlyContent(body) && i < |body| && !body[i].NoNewline?
    ensures k == |PlacesOf(body, HasText, i)| < |Walk(s, body)|
    ensures var w := Walk(s, body)[k];
            && w.path == s.file.value && ReadsAs(body[i], w.mark, w.text)
            && w.oldLine == s.oldLine + |PlacesOf(body, InOld, i)|
            && w.newLine == s.newLine + |PlacesOf(body, InNew, i)|
  {
    NumberedTo(s, body, i);
    assert body == body[..i] + body[i..] && body[i] in body;
    WalkConcat(s, body[..i], body[i..]);
    k := |Walk(s, body[..i])|;
    var s' := Run(s, body[..i]);
    assert Walk(s', body[i..]) == Emit(s', body[i]) + Walk(Step(s', body[i]), body[i..][1..]);
    assert Walk(s, body)[k] == Walk(s', body[i..])[0] == Emit(s', body[i])[0];
  }

  /** Before a hunk the last name given is the file's, and its header line starts the numbers on both sides. */
  lemma {:induction false} HunkOpens(s: State, named: Line, between: seq<Line>, header: Header)
    requires !s.inHunk && (named.OldName? || named.NewName?)
    requires forall l :: l in between ==> !l.FileHeader? && !l.OldName? && !l.NewName? && !l.HunkHead?
    ensures Run(s, [named] + between + [HunkHead(header)]) == State(Some(named.path), header.oldStart, header.newStart, true)
    ensures Walk(s, [named] + between + [HunkHead(header)]) == []
  {
    var t := s.(file := Some(named.path));
    assert [named] + between + [HunkHead(header)] == [named] + (between + [HunkHead(header)]);
    WalkConcat(s, [named], between + [HunkHead(header)]);
    assert [named][1..] == [];
    assert Run(s, [named]) == Run(t, []) && Walk(s, [named]) == Emit(s, named) + Walk(t, []);
    Quiet(t, between);
    WalkSnoc(t, between, HunkHead(header));
  }

  lemma {:induction false} Quiet(s: State, between: seq<Line>)
    requires !s.inHunk && forall l :: l in between ==> !l.FileHeader? && !l.OldName? && !l.NewName? && !l.HunkHead?
    ensures Run(s, between) == s && Walk(s, between) == []
    decreases |between|
  {
    if between != [] {
      assert Step(s, between[0]) == s;
      Quiet(s, between[1..]);
    }
  }

  /** The walk as the source runs it: four variables updated line by line. */
  method WalkDiff(diff: seq<Line>) returns (out: seq<Walked>)
    ensures out == Walk(INIT, diff)
  {
    out := [];
    var currentFile: Option<string>, oldLine: nat, newLine: nat, inHunk := None, 0, 0, false;
    for i := 0 to |diff|
      invariant State(currentFile, oldLine, newLine, inHunk) == Run(INIT, diff[..i])
      invariant out == Walk(INIT, diff[..i])
    {
      var raw := diff[i];
      assert diff[..i + 1] == diff[..i] + [raw];
      WalkSnoc(INIT, diff[..i], raw);
      if raw.FileHeader? {
        currentFile, inHunk := raw.fallback, false;
        continue;
      }
      if !inHunk && (raw.OldName? || raw.NewName?) {
        currentFile := Some(raw.path);
        continue;
      }
      if currentFile.None? {
        continue;
      }
      if raw.HunkHead? {
        newLine, oldLine, inHunk := raw.header.newStart, raw.header.oldStart, true;
        continue;
      }
      if !inHunk || raw.NoNewline? {
        continue;
      }
      var text := TextOf(raw);
      if MarkOf(raw) == Minus {
        out := out + [Walked(currentFile.value, Minus, oldLine, newLine, text)];
        oldLine := oldLine + 1;
      } else if MarkOf(raw) == Plus {
        out := out + [Walked(currentFile.value, Plus, oldLine, newLine, text)];
        newLine := newLine + 1;
      } else {
        out := out + [Walked(currentFile.value, Space, oldLine, newLine, text)];
        newLine, oldLine := newLine + 1, oldLine + 1;
      }
    }
    assert diff[..|diff|] == diff;
  }

  // ---------------------------------------------------------------------
  // The meaning of a diff: its changed lines
  // ---------------------------------------------------------------------

  datatype Side = LEFT | RIGHT

  /** A changed line at the coordinates a review comment is anchored by. */
  datatype Change = Change(path: string, side: Side, line: nat, text: string)

  function ChangeOf(w: Walked): seq<Change> {
    match w.mark
    case Minus => [Change(w.path, LEFT, w.oldLine, w.text)]
    case Plus => [Change(w.path, RIGHT, w.newLine, w.text)]
    case _ => []
  }

  function ChangesOf(ws: seq<Walked>): seq<Change> {
    if ws == [] then [] else ChangeOf(ws[0]) + ChangesOf(ws[1..])
  }

  /** The changed lines the walk sees from state `s`, in order. */
  function Changed(s: State, lines: seq<Line>): seq<Change> {
    ChangesOf(Walk(s, lines))
  }

  /** The meaning of a diff. Two diffs with equal `Changes` have equal changed-line indexes. */
  function Changes(diff: seq<Line>): seq<Change> {
    Changed(INIT, diff)
  }

  lemma {:induction false} ChangesOfConcat(a: seq<Walked>, b: seq<Walked>)
    ensures ChangesOf(a + b) == ChangesOf(a) + ChangesOf(b)
  {
    if a == [] {
      assert a + b == b;
    } else {
      assert (a + b)[1..] == a[1..] + b;
      ChangesOfConcat(a[1..], b);
    }
  }

  lemma ChangedConcat(s: State, a: seq<Line>, b: seq<Line>)
    ensures Run(s, a + b) == Run(Run(s, a), b)
    ensures Changed(s, a + b) == Changed(s, a) + Changed(Run(s, a), b)
  {
    WalkConcat(s, a, b);
    ChangesOfConcat(Walk(s, a), Walk(Run(s, a), b));
  }

  /** The entries of one (path, side) key, in order. */
  function OnKey(cs: seq<Change>, path: string, side: Side): seq<(nat, string)> {
    if cs == [] then []
    else (if cs[0].path == path && cs[0].side == side then [(cs[0].line, cs[0].text)] else [])
         + OnKey(cs[1..], path, side)
  }

  lemma {:induction false} OnKeySnoc(cs: seq<Change>, c: Change, path: string, side: Side)
    ensures OnKey(cs + [c], path, side)
         == OnKey(cs, path, side) + (if c.path == path && c.side == side then [(c.line, c.text)] else [])
  {
    if cs == [] {
      assert [c][1..] == [];
    } else {
      assert (cs + [c])[1..] == cs[1..] + [c];
      OnKeySnoc(cs[1..], c, path, side);
    }
  }

  type Index = map<(string, Side), seq<(nat, string)>>

  /** The index holds exactly the keys with a change, each with its entries in order. */
  ghost predicate Indexes(index: Index, cs: seq<Change>) {
    forall path, side ::
      ((path, side) in index <==> OnKey(cs, path, side) != [])
      && ((path, side) in index ==> index[(path, side)] == OnKey(cs, path, side))
  }

  lemma IndexesSnoc(index: Index, cs: seq<Change>, c: Change, index': Index)
    requires Indexes(index, cs)
    requires var key := (c.path, c.side);
             index' == index[key := (if key in index then index[key] else []) + [(c.line, c.text)]]
    ensures Indexes(index', cs + [c])
  {
    forall path, side
      ensures ((path, side) in index' <==> OnKey(cs + [c], path, side) != [])
           && ((path, side) in index' ==> index'[(path, side)] == OnKey(cs + [c], path, side))
    {
      OnKeySnoc(cs, c, path, side);
    }
  }

  lemma ChangesOfSnoc(ws: seq<Walked>, w: Walked)
    ensures ChangesOf(ws + [w]) == ChangesOf(ws) + ChangeOf(w)
  {
    ChangesOfConcat(ws, [w]);
    assert ChangesOf([w]) == ChangeOf(w) + ChangesOf([]);
  }

  method ChangedLineIndex(diff: seq<Line>) returns (index: Index)
    ensures Indexes(index, Changes(diff))
  {
    var ws := WalkDiff(diff);
    index := map[];
    NothingIndexed(ws);
    hide Indexes, ChangesOf, Walk;
    for i := 0 to |ws|
      invariant Indexes(index, ChangesOf(ws[..i]))
    {
      var w := ws[i];
      assert ws[..i + 1] == ws[..i] + [w];
      ChangesOfSnoc(ws[..i], w);
      if w.mark == Minus {
        var key := (w.path, LEFT);
        var was := index;
        index := index[key := (if key in index then index[key] else []) + [(w.oldLine, w.text)]];
        IndexesSnoc(was, ChangesOf(ws[..i]), Change(w.path, LEFT, w.oldLine, w.text), index);
      } else if w.mark == Plus {
        var key := (w.path, RIGHT);
        var was := index;
        index := index[key := (if key in index then index[key] else []) + [(w.newLine, w.text)]];
        IndexesSnoc(was, ChangesOf(ws[..i]), Change(w.path, RIGHT, w.newLine, w.text), index);
      } else {
        assert ChangesOf(ws[..i]) + [] == ChangesOf(ws[..i]);
      }
    }
    assert ws[..|ws|] == ws;
  }

  lemma NothingIndexed(ws: seq<Walked>)
    ensures Indexes(map[], ChangesOf(ws[..0]))
  {
    assert ws[..0] == [];
  }

  /** Membership in the index is membership in the meaning. */
  lemma {:induction false} OnKeyMember(cs: seq<Change>, path: string, side: Side, line: nat, text: string)
    ensures (line, text) in OnKey(cs, path, side) <==> Change(path, side, line, text) in cs
  {
    if cs != [] {
      OnKeyMember(cs[1..], path, side, line, text);
      assert cs == [cs[0]] + cs[1..];
    }
  }
}
