/** Run records as the lease and control protocols see them, and the store's compare-and-swap. */
module Runs {
  import opened Common
  import opened Lease

  datatype RunStatus = Pending | Running | Paused | Completed | Failed | Canceled {
    /** isActiveDeleteRunStatus */
    predicate IsActive() {
      Pending? || Running?
    }

    predicate IsTerminal() {
      Completed? || Failed? || Canceled?
    }
  }

  /** `afterWave`: the last checkpoint of the run was taken after a wave. */
  datatype RunRecord = RunRecord(
    revision: nat, status: RunStatus, pauseRequested: bool, cancelRequested: bool, deleting: bool, lease: LeaseField,
    afterWave: bool)

  /** How often a conflicting write is tried again. */
  const RETRY_LIMIT: nat := 8

  datatype SwapResult = Swapped | Conflict | Refused

  /** The stored record of one run. */
  class RunStore {
    var run: RunRecord

    constructor (run: RunRecord)
      ensures this.run == run
    {
      this.run := run;
    }

    /** CompareAndSwapRun: all or nothing, decided by the revision first and the lease rules second. */
    method CompareAndSwap(ctx: WriteContext, next: RunRecord) returns (result: SwapResult)
      modifies this
      ensures result.Conflict? <==> old(run).revision != next.revision
      ensures result.Swapped? <==> old(run).revision == next.revision && TransitionAccepted(ctx, old(run).lease, next.lease)
      ensures run == if result.Swapped? then next.(revision := next.revision + 1) else old(run)
    {
      if run.revision != next.revision {
        return Conflict;
      }
      if !TransitionAccepted(ctx, run.lease, next.lease) {
        return Refused;
      }
      run := next.(revision := next.revision + 1);
      return Swapped;
    }

    /** The run part of a runtime commit: same revision, same lease, and the guard of an active lease. */
    method Commit(guard: Option<Guard>, next: RunRecord) returns (result: SwapResult)
      modifies this
      ensures result.Conflict? <==> old(run).revision != next.revision
      ensures result.Swapped? <==> old(run).revision == next.revision && CommitAccepted(guard, old(run).lease, next.lease)
      ensures run == if result.Swapped? then next.(revision := next.revision + 1) else old(run)
    {
      if run.revision != next.revision {
        return Conflict;
      }
      if !CommitAccepted(guard, run.lease, next.lease) {
        return Refused;
      }
      run := next.(revision := next.revision + 1);
      return Swapped;
    }

    /** Other writers getting in between a read and the write that follows it: they leave some record
        with a later revision, or do nothing. */
    method Interfere(rival: Option<RunRecord>)
      modifies this
      ensures run == old(run) || run.revision > old(run).revision
      ensures rival.None? ==> run == old(run)
    {
      if rival.Some? && rival.value.revision > run.revision {
        run := rival.value;
      }
    }
  }
}
