/** Review findings, shared by the stages that produce and filter them (`core/models.py`). */
module Findings {
  import opened Wrappers
  import opened DiffParse

  datatype Severity = Info | Low | Medium | High | Critical {
    function Rank(): nat {
      match this
      case Info => 0
      case Low => 1
      case Medium => 2
      case High => 3
      case Critical => 4
    }
  }

  /** Severities rank in this order. */
  lemma SeveritiesRise(a: Severity, b: Severity)
    ensures a.Rank() < b.Rank() <==>
              || (a == Info && b != Info)
              || (a == Low && b in {Medium, High, Critical})
              || (a == Medium && b in {High, Critical})
              || (a == High && b == Critical)
    ensures a.Rank() == b.Rank() <==> a == b
  {
  }

  /** One inline comment the model wants to post. `anchor` is the text of the line it is about. */
  datatype Finding = Finding(
    path: string,
    line: nat,
    side: Side,
    severity: Severity,
    body: string,
    anchor: Option<string>,
    anchored: bool,
    broad: bool,
    confidence: Option<int>,
    category: string)
}
