/** Tasks, their statuses and the transition table (internal/a2a/engine.go:20-80). */
module Tasks {

  datatype Status =
    | Unspecified
    | Submitted
    | Working
    | InputRequired
    | Completed
    | Failed
    | Canceled
    | Rejected
  {
    predicate IsTerminal() {
      this in {Completed, Failed, Canceled, Rejected}
    }

    function String(): string {
      match this
      case Submitted => "SUBMITTED"
      case Working => "WORKING"
      case InputRequired => "INPUT_REQUIRED"
      case Completed => "COMPLETED"
      case Failed => "FAILED"
      case Canceled => "CANCELED"
      case Rejected => "REJECTED"
      case Unspecified => "UNSPECIFIED"
    }
  }

  const VALID_TRANSITIONS: map<Status, seq<Status>> :=
    map[
      Submitted := [Working, Rejected, Canceled],
      Working := [Completed, Failed, Canceled, InputRequired],
      InputRequired := [Working, Canceled]
    ]

  datatype Task = Task(
    id: string,
    contextId: string,
    status: Status,
    targetSkillId: string,
    originatorPeerId: string,
    createdAt: int,
    updatedAt: int)

  predicate Allowed(from: Status, to: Status) {
    from in VALID_TRANSITIONS && to in VALID_TRANSITIONS[from]
  }

  /** A nonempty walk along the transition table. */
  ghost predicate IsPath(statuses: seq<Status>) {
    && statuses != []
    && forall i | 0 < i < |statuses| :: Allowed(statuses[i - 1], statuses[i])
  }

  /** The moves a task can make, written out; everything else is refused, and so is every move of a terminal status. */
  lemma MovesExactly(from: Status, to: Status)
    ensures Allowed(from, to) <==>
              || (from == Submitted && (to == Working || to == Rejected || to == Canceled))
              || (from == Working && (to == Completed || to == Failed || to == Canceled || to == InputRequired))
              || (from == InputRequired && (to == Working || to == Canceled))
    ensures from.IsTerminal() <==> from != Unspecified && forall next :: !Allowed(from, next)
  {
    assert Allowed(Submitted, Working) && Allowed(Working, Completed) && Allowed(InputRequired, Working);
  }

  /** Every status but UNSPECIFIED ends some walk of a task from SUBMITTED. */
  lemma EveryStatusReached(status: Status) returns (walk: seq<Status>)
    requires status != Unspecified
    ensures IsPath(walk) && walk[0] == Submitted && walk[|walk| - 1] == status
  {
    MovesExactly(Submitted, status);
    MovesExactly(Submitted, Working);
    MovesExactly(Working, status);
    walk := if status == Submitted then [Submitted]
            else if Allowed(Submitted, status) then [Submitted, status]
            else [Submitted, Working, status];
    hide Allowed;
  }
}
