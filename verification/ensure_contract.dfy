/** What the scheduler relies on when it calls Ensure: the live count of a pool before and after a
    call for a target. EnsureRun proves it of the table, Scheduler.Pool.Ensure promises it. */
module EnsureContract {

  /** Whatever happens meanwhile, a pool goes no higher than its target, unless it was there. */
  predicate Bounded(before: nat, after: nat, target: nat) {
    after <= before || after <= target
  }

  /** With no live slot exiting meanwhile, it goes up to the target at most or down to it at most;
      and up to it if no start fails or is held back. */
  predicate Converges(before: nat, after: nat, target: nat, willing: bool) {
    && (before <= target ==> before <= after <= target)
    && (before >= target ==> target <= after <= before)
    && (willing ==> after >= target)
  }
}
