/** The opportunity status state machine. */
module Lifecycle {
  import opened Wrappers

  datatype Status =
    | Discovered | Enriched | Qualified | Scored | Recommended
    | Archived | Expired | Rejected | Duplicate

  /** Where a row can leave the pipeline for, from anywhere but the archive. */
  const EXITS: set<Status> := {Archived, Expired, Rejected, Duplicate}

  /** The statuses of rows that no listing offers by default. */
  const INACTIVE: set<Status> := {Archived, Expired, Rejected, Duplicate}

  const TERMINAL: set<Status> := {Archived}

  /** Forward progress through enrichment. */
  function Pipeline(s: Status): set<Status> {
    match s
    case Discovered => {Enriched, Qualified, Scored, Recommended}
    case Enriched => {Qualified, Scored, Recommended}
    case Qualified => {Scored, Recommended}
    case Scored => {Recommended, Qualified}
    case Recommended => {Scored}
    case _ => {}
  }

  function AllowedTransitions(current: Status): set<Status> {
    if current in TERMINAL then {} else Pipeline(current) + (EXITS - {current})
  }

  predicate CanTransition(current: Status, target: Status) {
    target in AllowedTransitions(current)
  }

  datatype EventKind =
    | EvDiscovered | EvDeduplicated | EvEnriched | EvScored | EvRecommended
    | EvDismissed | EvRevalidated | EvExpired | EvStatusChanged

  /** The event a transition into a status records. */
  function EntryEvent(target: Status): EventKind {
    match target
    case Enriched => EvEnriched
    case Scored => EvScored
    case Recommended => EvRecommended
    case Expired => EvExpired
    case Duplicate => EvDeduplicated
    case Rejected => EvDismissed
    case _ => EvStatusChanged
  }

  /** A status change, as recorded in an event payload. */
  datatype Change = Change(from: Status, to: Status)

  datatype LifecycleEvent = LifecycleEvent(kind: EventKind, change: Change)

  /** `None` when the status is unchanged; an illegal move is an error. */
  function Transition(current: Status, target: Status): Result<Option<LifecycleEvent>, string> {
    if current == target then Ok(None)
    else if !CanTransition(current, target) then Err("cannot move an opportunity")
    else Ok(Some(LifecycleEvent(EntryEvent(target), Change(current, target))))
  }

  /** How far along the pipeline an active status is. */
  function Stage(s: Status): nat {
    match s
    case Discovered => 0
    case Enriched => 1
    case Qualified => 2
    case Scored => 3
    case Recommended => 4
    case _ => 0
  }

  /**
   Among active statuses, moves only go forward, any number of stages at a time, but for the two
   withdrawals: a row may be scored again after qualifying anew, and a recommendation may be taken back.
   Every status but ARCHIVED can fall into every other exit.
   */
  lemma MovesGoForward(current: Status, target: Status)
    ensures current !in INACTIVE && target !in INACTIVE ==>
      (CanTransition(current, target) <==>
        || Stage(current) < Stage(target)
        || (current == Scored && target == Qualified)
        || (current == Recommended && target == Scored))
    ensures target in INACTIVE ==> (CanTransition(current, target) <==> current != Archived && current != target)
  {}

  /** One or more legal moves. */
  predicate Reaches(path: seq<Status>) {
    forall i :: 0 <= i < |path| - 1 ==> CanTransition(path[i], path[i + 1])
  }

  /** No legal path leads from an inactive status back to an active one, and none leaves ARCHIVED. */
  lemma {:induction false} InactiveIsForGood(path: seq<Status>)
    requires path != [] && Reaches(path) && path[0] in INACTIVE
    ensures forall i :: 0 <= i < |path| ==> path[i] in INACTIVE
    ensures path[0] == Archived ==> |path| == 1
  {
    if |path| > 1 {
      assert CanTransition(path[0], path[1]);
      forall i | 0 <= i < |path[1..]| - 1
        ensures CanTransition(path[1..][i], path[1..][i + 1])
      {
        assert CanTransition(path[i + 1], path[i + 2]);
      }
      InactiveIsForGood(path[1..]);
      assert forall i :: 1 <= i < |path| ==> path[i] == path[1..][i - 1];
    }
  }

  /** Scoring can always place an active row: it is moved to SCORED or RECOMMENDED or is there already. */
  lemma ScoringNeverFails(current: Status, target: Status)
    requires current !in INACTIVE && target in {Scored, Recommended}
    ensures Transition(current, target).Ok?
    ensures current == target <==> Transition(current, target) == Ok(None)
  {}
}
