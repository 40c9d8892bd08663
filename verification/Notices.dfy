/** What a review's summary discloses (`_build_notices` in `engine/engine.py`). */
module Notices {
  import opened Wrappers
  import opened Ladder

  datatype Notice =
    | FileCap | Oversized | TriageSkipped | BudgetReached | CallsFailed | Repaired | ReAsked | SchemaDropped
    | Split | SteppedDown | Escalated | Flooded | ReflectionSkipped | Suppressed | OffDiff | OpenThreads

  /** What the notices are built from. */
  datatype NoticeState = NoticeState(
    cappedFiles: bool,
    oversized: seq<string>,
    skippedByTriage: seq<string>,
    errors: seq<Reason>,
    splitBatches: set<nat>,
    steppedDown: set<string>,
    escalated: set<string>,
    repaired: set<string>,
    reAsked: set<string>,
    schemaDropped: bool,
    reflectionSkipped: bool,
    flooded: map<string, nat>,
    suppressed: nat,
    offDiff: nat,
    openThreads: nat)

  predicate Tells(s: NoticeState, n: Notice) {
    match n
    case FileCap => s.cappedFiles
    case Oversized => s.oversized != []
    case TriageSkipped => s.skippedByTriage != []
    case BudgetReached => exists e :: e in s.errors && e.what == BudgetSkip
    case CallsFailed => s.errors != []
    case Repaired => s.repaired != {}
    case ReAsked => s.reAsked != {}
    case SchemaDropped => s.errors != [] && s.schemaDropped
    case Split => s.splitBatches != {}
    case SteppedDown => s.steppedDown != {}
    case Escalated => s.escalated != {}
    case Flooded => s.flooded != map[]
    case ReflectionSkipped => s.reflectionSkipped
    case Suppressed => s.suppressed > 0
    case OffDiff => s.offDiff > 0
    case OpenThreads => s.openThreads > 0
  }

  /** After `k` of the notices: those among the first `k` whose condition holds, in order. */
  ghost predicate Told(s: NoticeState, notices: seq<Notice>, k: nat) {
    && (forall n :: n in notices <==> Rank(n) < k && Tells(s, n))
    && InOrder(notices)
  }

  ghost predicate InOrder(notices: seq<Notice>) {
    forall i, j :: 0 <= i < j < |notices| ==> Rank(notices[i]) < Rank(notices[j])
  }

  /** Where the summary puts a notice. */
  function Rank(n: Notice): nat {
    match n
    case FileCap => 0
    case Oversized => 1
    case TriageSkipped => 2
    case BudgetReached => 3
    case CallsFailed => 4
    case Repaired => 5
    case ReAsked => 6
    case SchemaDropped => 7
    case Split => 8
    case SteppedDown => 9
    case Escalated => 10
    case Flooded => 11
    case ReflectionSkipped => 12
    case Suppressed => 13
    case OffDiff => 14
    case OpenThreads => 15
  }

  method Note(s: NoticeState, notices: seq<Notice>, n: Notice, holds: bool) returns (r: seq<Notice>)
    requires holds <==> Tells(s, n)
    requires Told(s, notices, Rank(n))
    ensures Told(s, r, Rank(n) + 1)
  {
    hide Tells;
    assert forall m :: Rank(m) == Rank(n) ==> m == n;
    r := if holds then notices + [n] else notices;
  }

  method CoverageNotices(s: NoticeState) returns (notices: seq<Notice>)
    ensures Told(s, notices, 5)
  {
    hide Told;
    notices := [];
    ToldNothing(s);
    notices := Note(s, notices, FileCap, s.cappedFiles);
    notices := Note(s, notices, Oversized, s.oversized != []);
    notices := Note(s, notices, TriageSkipped, s.skippedByTriage != []);
    notices := Note(s, notices, BudgetReached, exists e :: e in s.errors && e.what == BudgetSkip);
    notices := Note(s, notices, CallsFailed, s.errors != []);
  }

  method RecoveryNotices(s: NoticeState, before: seq<Notice>) returns (notices: seq<Notice>)
    requires Told(s, before, 5)
    ensures Told(s, notices, 11)
  {
    hide Told;
    notices := Note(s, before, Repaired, s.repaired != {});
    notices := Note(s, notices, ReAsked, s.reAsked != {});
    notices := Note(s, notices, SchemaDropped, s.errors != [] && s.schemaDropped);
    notices := Note(s, notices, Split, s.splitBatches != {});
    notices := Note(s, notices, SteppedDown, s.steppedDown != {});
    notices := Note(s, notices, Escalated, s.escalated != {});
  }

  method FindingNotices(s: NoticeState, before: seq<Notice>) returns (notices: seq<Notice>)
    requires Told(s, before, 11)
    ensures Told(s, notices, 16)
  {
    hide Told;
    notices := Note(s, before, Flooded, s.flooded != map[]);
    notices := Note(s, notices, ReflectionSkipped, s.reflectionSkipped);
    notices := Note(s, notices, Suppressed, s.suppressed > 0);
    notices := Note(s, notices, OffDiff, s.offDiff > 0);
    notices := Note(s, notices, OpenThreads, s.openThreads > 0);
  }

  /** Every notice is given exactly when its condition holds, once, and in the summary's order. */
  method BuildNotices(s: NoticeState) returns (notices: seq<Notice>)
    ensures forall n :: n in notices <==> Tells(s, n)
    ensures InOrder(notices)
  {
    hide *;
    notices := CoverageNotices(s);
    notices := RecoveryNotices(s, notices);
    notices := FindingNotices(s, notices);
    ToldAll(s, notices);
  }

  lemma ToldNothing(s: NoticeState)
    ensures Told(s, [], 0)
  {
  }

  lemma ToldAll(s: NoticeState, notices: seq<Notice>)
    requires Told(s, notices, 16)
    ensures InOrder(notices) && forall n :: n in notices <==> Tells(s, n)
  {
    hide Tells;
  }
}
