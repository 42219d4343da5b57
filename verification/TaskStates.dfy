/** Task life-cycle states and the two groups of states the control plane tests for. */
module TaskStates {

  datatype TaskStatus =
    | Pending | Queued | Scheduling | Assigned | Preparing | Pulling | Starting | Running
    | Preempting | Preempted | Stopping | Succeeded | Failed | Cancelled | TimedOut | Retrying
  {
    predicate IsFinal() {
      Succeeded? || Failed? || Cancelled? || TimedOut? || Preempted?
    }

    predicate IsActive() {
      Scheduling? || Assigned? || Preparing? || Pulling? || Starting? || Running? || Preempting? || Stopping?
    }

    /** States from which a task may still be given dependencies or be picked up. */
    predicate IsRunnable() {
      Pending? || Queued? || Retrying?
    }

    predicate FinallyFailed() {
      IsFinal() && !Succeeded?
    }
  }
}
