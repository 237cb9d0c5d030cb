/** Lifecycle status of a workflow execution (runtime/core/src/workflow.rs). */
module Workflow {
  datatype WorkflowStatus =
    | Pending
    | Running
    | Paused
    | Completed
    | Failed
    | Cancelled
    | LimitExceeded
  {
    predicate IsTerminal() {
      Completed? || Failed? || Cancelled? || LimitExceeded?
    }

    predicate IsActive() {
      Pending? || Running? || Paused?
    }

    /** `validate_transition`: the pairs the runtime calls valid. */
    predicate MayBecome(next: WorkflowStatus) {
      match (this, next)
      case (Pending, Running) => true
      case (Running, Paused) => true
      case (Running, Completed) => true
      case (Running, Failed) => true
      case (Running, Cancelled) => true
      case (Running, LimitExceeded) => true
      case (Paused, Running) => true
      case (Paused, Cancelled) => true
      case _ => false
    }
  }

  /** A sequence of statuses in which every step is a valid transition. */
  predicate ValidHistory(h: seq<WorkflowStatus>) {
    forall i | 0 < i < |h| :: h[i - 1].MayBecome(h[i])
  }

  /** Terminal statuses are exactly the ones no valid transition leaves, so a valid history
      holds a terminal status only as its last entry, and never returns to `Pending`. */
  lemma TerminalIsLast(h: seq<WorkflowStatus>, i: nat)
    requires ValidHistory(h) && i < |h|
    ensures h[i].IsTerminal() <==> forall next: WorkflowStatus :: !h[i].MayBecome(next)
    ensures h[i].IsTerminal() != h[i].IsActive()
    ensures h[i].IsTerminal() ==> i == |h| - 1
    ensures h[i].Pending? ==> i == 0
  {
    if i + 1 < |h| {
      var after := i + 1;
      assert h[after - 1].MayBecome(h[after]);
    }
    if i > 0 {
      assert h[i - 1].MayBecome(h[i]);
    }
    if !h[i].IsTerminal() {
      assert h[i].MayBecome(Running) || h[i].MayBecome(Completed);
    }
  }
}
