/** Task Attempts, the leases and locks they hold, and the cancellation requests made against them. */
module Attempts {
  import opened Core

  datatype AttemptStatus =
    Created | Leased | AttemptRunning | AttemptWaiting | Submitted | AttemptCompleted | AttemptFailed | AttemptCancelled

  /** Times are integers. */
  datatype Lease = Lease(epoch: int, token: string, expiresAt: int, resourceKeys: seq<string>, retiring: bool)

  datatype Attempt = Attempt(id: string, task: Ref, status: AttemptStatus, binding: ExecutorBinding, dispatchKey: string, lease: Lease)

  datatype Lock = Lock(resourceKey: string, attemptId: string, token: string, retiring: bool)

  datatype Cancellation = Cancellation(id: string, attemptId: string, epoch: int, token: string, acknowledged: bool)

  predicate InFlight(status: AttemptStatus) {
    status in {Created, Leased, AttemptRunning, AttemptWaiting, Submitted}
  }

  /** Still counted against capacity and still owning its paths (`attempt_occupies_slot`,
      `attempt_holds_resources`): the two source predicates are the same condition. */
  predicate Holds(a: Attempt) {
    a.lease.retiring || InFlight(a.status)
  }
}
