/** The model-version lifecycle (services/lifecycle.py): which stage may follow which. */
module Lifecycle {
  import opened Common

  datatype Stage = Draft | Validated | Approved | Staging | Production | Archived

  const ALLOWED_TRANSITIONS: map<Stage, set<Stage>> :=
    map[
      Draft := {Validated, Archived},
      Validated := {Approved, Archived},
      Approved := {Staging, Archived},
      Staging := {Production, Archived},
      Production := {Archived},
      Archived := {}
    ]

  const REQUIRES_APPROVAL: set<Stage> := {Approved, Staging, Production}

  /** The promotion order; Archived retires a version from any stage. */
  const ORDER: seq<Stage> := [Draft, Validated, Approved, Staging, Production]

  /** A stage's position in the promotion order. */
  function Rank(s: Stage): nat {
    match s
    case Draft => 0
    case Validated => 1
    case Approved => 2
    case Staging => 3
    case Production => 4
    case Archived => 5
  }

  /** One promotion at a time, or retirement; nothing leaves Archived. */
  predicate CanTransition(current: Stage, target: Stage)
    ensures CanTransition(current, target) <==>
            current != Archived && (target == Archived || Rank(target) == Rank(current) + 1)
  {
    assert current.Draft? || current.Validated? || current.Approved? || current.Staging? || current.Production? || current.Archived?;
    assert target.Draft? || target.Validated? || target.Approved? || target.Staging? || target.Production? || target.Archived?;
    target in (if current in ALLOWED_TRANSITIONS then ALLOWED_TRANSITIONS[current] else {})
  }

  /** None when the move is legal, otherwise the error raised. */
  function ValidateTransition(current: Stage, target: Stage, approved: bool): (r: Option<DomainError>)
    ensures r.None? <==>
            current != Archived &&
            (target == Archived || (Rank(target) == Rank(current) + 1 && (Rank(target) >= Rank(Approved) ==> approved)))
    ensures r.Some? ==> r.value == ApprovalRequired || r.value == InvalidStateTransition
    ensures r == Some(ApprovalRequired) <==> CanTransition(current, target) && target in REQUIRES_APPROVAL && !approved
  {
    if current == target then Some(InvalidStateTransition)
    else if !CanTransition(current, target) then Some(InvalidStateTransition)
    else if target in REQUIRES_APPROVAL && !approved then Some(ApprovalRequired)
    else None
  }
}
