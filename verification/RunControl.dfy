/** Pause and cancel requests racing with the end of a run. Every writer of a run record is a retry
    loop: load the record, decide on an update, commit it unless the record changed meanwhile. */
module RunControl {
  import opened Common
  import opened Lease
  import opened Runs

  /** The request flags a writer carries from its own copy of the run. */
  datatype Flags = Flags(pause: bool, cancel: bool)

  datatype Writer =
    | MergeFlags(local: Flags)                            // node and wave bookkeeping
    | SaveCheckpoint(local: Flags, wave: bool)            // the same with a checkpoint, after a wave or a node
    | RequestPause
    | RequestCancel
    | CompleteRun(local: Flags, checkpoint: bool)         // checkpoint: one is available to pause at
    | FailRun(local: Flags, checkpoint: bool)
    | PauseRun(local: Flags, wave: bool)
    | CancelRun(local: Flags)
    | AbortStartedRun(local: Flags)
    | ResumeRun(local: Flags, expected: RunStatus)
    | KeepControl                                         // heartbeats, child links and other fields
    | FinishEffectResolution
    | CancelPausedRun
    | MarkExecutionLost

  /** loadRunForUpdate and loadPauseRun: stored and local requests together; a cancel beats a pause. */
  function Merged(run: RunRecord, local: Flags): RunRecord {
    var cancel := run.cancelRequested || local.cancel;
    run.(cancelRequested := cancel, pauseRequested := !cancel && (run.pauseRequested || local.pause))
  }

  /** persistRunChecked: stored and local requests side by side. */
  function WithFlags(run: RunRecord, local: Flags): RunRecord {
    run.(pauseRequested := run.pauseRequested || local.pause, cancelRequested := run.cancelRequested || local.cancel)
  }

  function Finished(run: RunRecord, status: RunStatus): RunRecord {
    run.(status := status, pauseRequested := false, cancelRequested := false)
  }

  /** completeRun and persistRunFailureWithTransition: requests first, then the outcome. Completing stores a
      final checkpoint. */
  function End(run: RunRecord, local: Flags, outcome: RunStatus, checkpoint: bool): Option<RunRecord> {
    var latest := Merged(run, local);
    if run.deleting then None
    else if latest.cancelRequested then Some(Finished(latest, Canceled))
    else if latest.pauseRequested then (if checkpoint then Some(Finished(latest, Paused)) else None)
    else if !latest.status.IsActive() then None
    else Some(Finished(latest, outcome).(afterWave := latest.afterWave && !outcome.Completed?))
  }

  /** The update a writer commits over the record it loaded, or None when it commits nothing. */
  function Prepare(w: Writer, run: RunRecord): Option<RunRecord> {
    match w
    case MergeFlags(local) => Some(WithFlags(run, local))
    case SaveCheckpoint(local, wave) =>
      if wave || run.status.IsActive() then Some(WithFlags(run, local).(afterWave := wave)) else None
    case RequestPause => if run.status.IsActive() then Some(run.(pauseRequested := true)) else None
    case RequestCancel =>
      if run.status.IsActive() then Some(run.(pauseRequested := false, cancelRequested := true)) else None
    case CompleteRun(local, checkpoint) => End(run, local, Completed, checkpoint)
    case FailRun(local, checkpoint) => End(run, local, Failed, checkpoint)
    case PauseRun(local, wave) =>
      var latest := Merged(run, local);
      if run.deleting || !run.status.IsActive() then None
      else if latest.cancelRequested then Some(Finished(latest, Canceled))
      else Some(Finished(latest, Paused).(afterWave := wave))
    case CancelRun(local) =>
      if run.deleting || run.status.IsTerminal() then None else Some(Finished(run, Canceled))
    case AbortStartedRun(local) =>
      var latest := Merged(run, local);
      if run.deleting then None
      else if latest.cancelRequested then Some(Finished(latest, Canceled))
      else if latest.status.IsTerminal() then None
      else Some(Finished(latest, Failed))
    case ResumeRun(local, expected) =>
      var latest := Merged(run, local);
      if run.deleting then None
      else if latest.cancelRequested then Some(Finished(latest, Canceled))
      else if latest.status != expected && !latest.status.IsActive() then None
      else Some(latest.(status := Running, cancelRequested := false))
    case KeepControl => Some(run)
    case FinishEffectResolution => if run.status.Failed? && !run.deleting then Some(Finished(run, Paused).(afterWave := false)) else None
    case CancelPausedRun => if run.status.Paused? then Some(Finished(run, Canceled)) else None
    case MarkExecutionLost => if run.status.IsActive() then Some(Finished(run, Failed)) else None
  }

  // ----- one commit -----

  /** A committed request that the run has still to act on. */
  predicate CancelPending(run: RunRecord) {
    run.status.IsActive() && run.cancelRequested
  }

  predicate PausePending(run: RunRecord) {
    run.status.IsActive() && run.pauseRequested
  }

  /** Declaring a run lost after its lease ran out does not look at requests. */
  predicate IgnoresCancel(w: Writer) {
    w.MarkExecutionLost?
  }

  /** Nor does giving up on a run that could not be started look at pause requests. */
  predicate IgnoresPause(w: Writer) {
    w.MarkExecutionLost? || w.AbortStartedRun?
  }

  /** The status a writer ends a run with when nobody asked for anything. */
  function EndStatus(w: Writer): Option<RunStatus> {
    match w
    case CompleteRun(_, _) => Some(Completed)
    case FailRun(_, _) | AbortStartedRun(_) => Some(Failed)
    case PauseRun(_, _) => Some(Paused)
    case CancelRun(_) => Some(Canceled)
    case _ => None
  }

  /** What a writer ends stays as it was but for status, requests and checkpoint. */
  predicate EndsAs(run: RunRecord, next: Option<RunRecord>, status: RunStatus) {
    && next.Some? && next.value.status == status && !next.value.pauseRequested && !next.value.cancelRequested
    && next.value.revision == run.revision && next.value.lease == run.lease && next.value.deleting == run.deleting
  }

  /** Completing, failing, giving up, pausing and cancelling an active run: a cancel request comes first, then
      a pause request, then the outcome the writer stands for; and nothing happens to a run being deleted.
      Only giving up does not look at pause requests, and cancelling looks at none. */
  lemma ActiveRunEnds(w: Writer, run: RunRecord)
    requires EndStatus(w).Some? && run.status.IsActive()
    ensures var cancel, pause := run.cancelRequested || w.local.cancel, run.pauseRequested || w.local.pause;
            var next := Prepare(w, run);
            && (run.deleting ==> next.None?)
            && (!run.deleting && cancel ==> EndsAs(run, next, Canceled))
            && (!run.deleting && !cancel && pause && (w.CompleteRun? || w.FailRun?) ==>
                  if w.checkpoint then EndsAs(run, next, Paused) else next.None?)
            && (!run.deleting && !cancel && (!pause || w.PauseRun? || w.AbortStartedRun? || w.CancelRun?) ==>
                  EndsAs(run, next, EndStatus(w).value))
  {
  }

  /** Where the run can be resumed afterwards: a pause is at the checkpoint it names, a completed run at none,
      and everything else leaves the last checkpoint. */
  lemma CheckpointAfterEnd(w: Writer, run: RunRecord)
    requires Prepare(w, run).Some? && Prepare(w, run).value.status != run.status
    ensures var next := Prepare(w, run).value;
            next.afterWave == (if w.PauseRun? && next.status.Paused? then w.wave
                               else if w.FinishEffectResolution? || next.status.Completed? then false
                               else run.afterWave)
  {
  }

  /** A run that is not active any more is only touched by requests that came too late. */
  lemma EndedRunIsLeftAlone(w: Writer, run: RunRecord)
    requires EndStatus(w).Some? && !run.status.IsActive() && !run.cancelRequested && !run.pauseRequested
    requires !w.local.cancel && !w.local.pause
    ensures Prepare(w, run).None? || (run.status.Paused? && (w.AbortStartedRun? || w.CancelRun?))
  {
  }

  /** Requests are stored on active runs only; a cancel request takes the place of a pause request. */
  lemma RequestsAreStored(run: RunRecord)
    ensures var pause, cancel := Prepare(RequestPause, run), Prepare(RequestCancel, run);
            && (run.status.IsActive() ==> pause == Some(run.(pauseRequested := true)))
            && (run.status.IsActive() ==> cancel == Some(run.(pauseRequested := false, cancelRequested := true)))
            && (!run.status.IsActive() ==> pause.None? && cancel.None?)
  {
  }

  /** Bookkeeping adds the requests it knows of and changes nothing else but the checkpoint. */
  lemma BookkeepingAddsRequests(run: RunRecord, local: Flags, wave: bool)
    ensures var merged := Prepare(MergeFlags(local), run);
            && merged.Some? && merged.value == run.(pauseRequested := merged.value.pauseRequested, cancelRequested := merged.value.cancelRequested)
            && (merged.value.pauseRequested <==> run.pauseRequested || local.pause)
            && (merged.value.cancelRequested <==> run.cancelRequested || local.cancel)
            && (wave || run.status.IsActive() ==> Prepare(SaveCheckpoint(local, wave), run) == Some(merged.value.(afterWave := wave)))
            && (!wave && !run.status.IsActive() ==> Prepare(SaveCheckpoint(local, wave), run).None?)
            && Prepare(KeepControl, run) == Some(run)
  {
  }

  /** A resume sets the run running if it is as expected or active, unless a cancel request comes first. */
  lemma ResumeSetsRunning(run: RunRecord, local: Flags, expected: RunStatus)
    ensures var cancel, next := run.cancelRequested || local.cancel, Prepare(ResumeRun(local, expected), run);
            && (run.deleting ==> next.None?)
            && (!run.deleting && cancel ==> EndsAs(run, next, Canceled))
            && (!run.deleting && !cancel && (run.status == expected || run.status.IsActive()) ==>
                  next == Some(run.(status := Running, cancelRequested := false, pauseRequested := run.pauseRequested || local.pause)))
            && (!run.deleting && !cancel && run.status != expected && !run.status.IsActive() ==> next.None?)
  {
  }

  /** The writers that look at one status only. */
  lemma OneStatusWriters(run: RunRecord)
    ensures var cancel, lost, resolved := Prepare(CancelPausedRun, run), Prepare(MarkExecutionLost, run), Prepare(FinishEffectResolution, run);
            && (if run.status.Paused? then EndsAs(run, cancel, Canceled) else cancel.None?)
            && (if run.status.IsActive() then EndsAs(run, lost, Failed) else lost.None?)
            && (if run.status.Failed? && !run.deleting then EndsAs(run, resolved, Paused) else resolved.None?)
  {
  }

  /** Who can change a status to which. */
  predicate MayChangeTo(w: Writer, status: RunStatus) {
    match status
    case Pending => false
    case Running => w.ResumeRun?
    case Completed => w.CompleteRun?
    case Failed => w.FailRun? || w.AbortStartedRun? || w.MarkExecutionLost?
    case Paused => w.PauseRun? || w.CompleteRun? || w.FailRun? || w.FinishEffectResolution?
    case Canceled => EndStatus(w).Some? || w.ResumeRun? || w.CancelPausedRun?
  }

  lemma ChangesAre(w: Writer, run: RunRecord)
    requires Prepare(w, run).Some? && Prepare(w, run).value.status != run.status
    ensures MayChangeTo(w, Prepare(w, run).value.status)
  {
  }

  lemma CommitKeepsCancel(w: Writer, run: RunRecord)
    requires CancelPending(run) && !IgnoresCancel(w)
    ensures match Prepare(w, run)
            case None => true
            case Some(next) => CancelPending(next) || next.status.Canceled?
  {
  }

  lemma CommitKeepsPause(w: Writer, run: RunRecord)
    requires PausePending(run) && !IgnoresPause(w)
    ensures match Prepare(w, run)
            case None => true
            case Some(next) => PausePending(next) || CancelPending(next) || next.status.Paused? || next.status.Canceled?
  {
  }

  /** A completion or a failure that carries a pause request and no cancel request, or a resume asked
      for the canceled run itself. */
  predicate LeavesCanceled(w: Writer, run: RunRecord) {
    && !run.deleting
    && (|| ((w.CompleteRun? || w.FailRun?) && w.checkpoint
            && Merged(run, w.local).pauseRequested && !Merged(run, w.local).cancelRequested)
        || (w.ResumeRun? && w.expected.Canceled? && !Merged(run, w.local).cancelRequested))
  }

  /** Once canceled, exactly these writers would still move the run elsewhere. */
  lemma CanceledLeftExactly(w: Writer, run: RunRecord)
    requires run.status.Canceled?
    ensures (Prepare(w, run).Some? && !Prepare(w, run).value.status.Canceled?) <==> LeavesCanceled(w, run)
  {
  }

  // ----- interleaved writers -----

  /** The stored record and the writers that have loaded one and not committed yet. */
  datatype System = System(run: RunRecord, loaded: map<nat, (Writer, RunRecord)>)

  datatype Step = Load(p: nat, w: Writer) | Commit(p: nat) | GiveUp(p: nat)

  predicate Enabled(s: System, step: Step) {
    match step
    case Load(_, _) => true
    case Commit(p) =>
      && p in s.loaded
      && s.loaded[p].1.revision == s.run.revision
      && Prepare(s.loaded[p].0, s.loaded[p].1).Some?
    case GiveUp(p) => p in s.loaded
  }

  function Apply(s: System, step: Step): System
    requires Enabled(s, step)
  {
    match step
    case Load(p, w) => s.(loaded := s.loaded[p := (w, s.run)])
    case Commit(p) =>
      var next := Prepare(s.loaded[p].0, s.loaded[p].1).value;
      System(next.(revision := s.run.revision + 1), s.loaded - {p})
    case GiveUp(p) => s.(loaded := s.loaded - {p})
  }

  /** A loaded record with the current revision is the current record. */
  ghost predicate Inv(s: System) {
    forall p :: p in s.loaded ==>
      && s.loaded[p].1.revision <= s.run.revision
      && (s.loaded[p].1.revision == s.run.revision ==> s.loaded[p].1 == s.run)
  }

  lemma StepKeepsInv(s: System, step: Step)
    requires Inv(s) && Enabled(s, step)
    ensures Inv(Apply(s, step))
  {
    hide Prepare;
  }

  /** The writer of a step is not one of those a theorem leaves aside. */
  ghost predicate Excludes(steps: seq<Step>, bad: Writer -> bool) {
    forall i :: 0 <= i < |steps| && steps[i].Load? ==> !bad(steps[i].w)
  }

  ghost predicate NoneLoaded(s: System, bad: Writer -> bool) {
    forall p :: p in s.loaded ==> !bad(s.loaded[p].0)
  }

  ghost predicate IsExecution(states: seq<System>, steps: seq<Step>) {
    && |states| == |steps| + 1
    && states[0].loaded == map[]
    && forall i, j :: 0 <= i && j == i + 1 && j < |states| ==>
         Enabled(states[i], steps[i]) && states[j] == Apply(states[i], steps[i])
  }

  lemma {:induction false} ExecutionKeepsInv(states: seq<System>, steps: seq<Step>, bad: Writer -> bool, k: nat)
    requires IsExecution(states, steps) && Excludes(steps, bad) && k < |states|
    ensures Inv(states[k]) && NoneLoaded(states[k], bad)
  {
    hide Prepare;
    if k > 0 {
      ExecutionKeepsInv(states, steps, bad, k - 1);
      var last, current := states[k - 1], states[k];
      assert Enabled(last, steps[k - 1]) && current == Apply(last, steps[k - 1]);
      StepKeepsInv(last, steps[k - 1]);
    }
  }

  /** Over every execution a change of status is the commit of a writer that may make it: so a run is stored
      as completed only by the completion of its execution, and as failed only by a failure. */
  lemma StatusChangesAre(states: seq<System>, steps: seq<Step>, k: nat)
    requires IsExecution(states, steps) && k < |steps| && states[k + 1].run.status != states[k].run.status
    ensures steps[k].Commit? && steps[k].p in states[k].loaded
    ensures MayChangeTo(states[k].loaded[steps[k].p].0, states[k + 1].run.status)
  {
    hide Prepare, MayChangeTo;
    var before, after, step := states[k], states[k + 1], steps[k];
    ExecutionKeepsInv(states, steps, w => false, k);
    assert Enabled(before, step) && after == Apply(before, step);
    ChangesAre(before.loaded[step.p].0, before.run);
  }

  /** Up to the moment it ends the run, the request stays stored; and it ends it as Canceled. */
  ghost predicate EndsOnlyCanceled(states: seq<System>, k: nat, m: nat)
    requires k <= m < |states|
  {
    || (forall i :: k <= i <= m ==> CancelPending(states[i].run))
    || (exists j :: k < j <= m && states[j].run.status.Canceled? && forall i :: k <= i < j ==> CancelPending(states[i].run))
  }

  /** A cancel request committed on an active run is never lost: however the writers interleave, the
      first change of status after it is to Canceled. */
  lemma {:induction false} CancelIsNeverLost(states: seq<System>, steps: seq<Step>, k: nat, m: nat)
    requires IsExecution(states, steps) && Excludes(steps, IgnoresCancel)
    requires k <= m < |states| && CancelPending(states[k].run)
    ensures EndsOnlyCanceled(states, k, m)
  {
    hide Prepare;
    if k < m {
      CancelIsNeverLost(states, steps, k, m - 1);
      if forall i :: k <= i <= m - 1 ==> CancelPending(states[i].run) {
        ExecutionKeepsInv(states, steps, IgnoresCancel, m - 1);
        var last, current := states[m - 1], states[m];
        var step := steps[m - 1];
        assert Enabled(last, step) && current == Apply(last, step);
        if step.Commit? {
          CommitKeepsCancel(last.loaded[step.p].0, last.run);
        }
      }
    }
  }

  ghost predicate EndsOnlyPausedOrCanceled(states: seq<System>, k: nat, m: nat)
    requires k <= m < |states|
  {
    || (forall i :: k <= i <= m ==> PausePending(states[i].run) || CancelPending(states[i].run))
    || (exists j :: k < j <= m && (states[j].run.status.Paused? || states[j].run.status.Canceled?)
          && forall i :: k <= i < j ==> PausePending(states[i].run) || CancelPending(states[i].run))
  }

  /** A pause request committed on an active run is never overtaken by the run completing or failing. */
  lemma {:induction false} PauseIsNeverOvertaken(states: seq<System>, steps: seq<Step>, k: nat, m: nat)
    requires IsExecution(states, steps) && Excludes(steps, IgnoresPause)
    requires k <= m < |states| && PausePending(states[k].run)
    ensures EndsOnlyPausedOrCanceled(states, k, m)
  {
    hide Prepare;
    if k < m {
      PauseIsNeverOvertaken(states, steps, k, m - 1);
      if forall i :: k <= i <= m - 1 ==> PausePending(states[i].run) || CancelPending(states[i].run) {
        ExecutionKeepsInv(states, steps, IgnoresPause, m - 1);
        var last, current := states[m - 1], states[m];
        var step := steps[m - 1];
        assert Enabled(last, step) && current == Apply(last, step);
        if step.Commit? {
          if CancelPending(last.run) {
            CommitKeepsCancel(last.loaded[step.p].0, last.run);
          } else {
            CommitKeepsPause(last.loaded[step.p].0, last.run);
          }
        }
      }
    }
  }

  lemma SameButRevision(a: RunRecord, b: RunRecord)
    requires b == a.(revision := b.revision)
    ensures CancelPending(a) ==> CancelPending(b)
  {
  }

  // ----- canceled runs that move on -----

  function Loaded(run: RunRecord): System {
    System(run, map[])
  }

  /** Any canceled run without open requests can be resumed: loading it for a resume that was asked for
      while it was canceled, as happens at an after-wave checkpoint, and committing sets it running. */
  lemma CanceledRunIsResumed(run: RunRecord)
    requires run.status.Canceled? && !run.deleting && !run.cancelRequested
    ensures var resume := ResumeRun(Flags(false, false), Canceled);
            var s := Loaded(run);
            && Enabled(s, Load(0, resume)) && Enabled(Apply(s, Load(0, resume)), Commit(0))
            && Apply(Apply(s, Load(0, resume)), Commit(0)).run.status.Running?
  {
    var resume := ResumeRun(Flags(false, false), Canceled);
    assert Apply(Loaded(run), Load(0, resume)).loaded[0] == (resume, run);
  }

  /** A run resumed from a terminal status holds no lease, so two resumptions of it are not kept apart:
      one cancels the run, and the other, which carries a pause request, completes it as paused. Neither
      presents a guard, and the store accepts both commits. */
  lemma CanceledRunIsPaused(run: RunRecord)
    requires CancelPending(run) && !run.deleting && (run.lease.None? || run.lease.value.status.Released?)
    ensures var cancel, complete := CancelRun(Flags(false, true)), CompleteRun(Flags(true, false), true);
            var canceled := Apply(Apply(Loaded(run), Load(0, cancel)), Commit(0));
            && canceled.run.status.Canceled?
            && CommitAccepted(None, run.lease, canceled.run.lease)
            && CommitAccepted(None, canceled.run.lease, Apply(Apply(canceled, Load(1, complete)), Commit(1)).run.lease)
            && Enabled(Apply(canceled, Load(1, complete)), Commit(1))
            && Apply(Apply(canceled, Load(1, complete)), Commit(1)).run.status.Paused?
  {
    var cancel, complete := CancelRun(Flags(false, true)), CompleteRun(Flags(true, false), true);
    assert Apply(Loaded(run), Load(0, cancel)).loaded[0] == (cancel, run);
    var canceled := Apply(Apply(Loaded(run), Load(0, cancel)), Commit(0));
    assert Apply(canceled, Load(1, complete)).loaded[1] == (complete, canceled.run);
  }

  // ----- the retry loop -----

  datatype UpdateResult = Committed | NothingToCommit | LeaseChanged | GuardRejected | RetriesExceeded

  /** executionLeaseIdentitiesEqual */
  predicate SameIdentity(a: LeaseField, b: LeaseField) {
    match (a, b)
    case (None, None) => true
    case (Some(x), Some(y)) => x.owner == y.owner && x.token == y.token && x.epoch == y.epoch && x.status == y.status
    case _ => false
  }

  /** The same lease, or none on both sides; only its times may have moved. */
  predicate SameLease(a: LeaseField, b: LeaseField) {
    && (a.Some? <==> b.Some?)
    && (a.Some? ==> b.value == a.value.(acquiredAt := b.value.acquiredAt, heartbeatAt := b.value.heartbeatAt, expiresAt := b.value.expiresAt))
  }

  /** The guard that fits the lease: its token and epoch while it is active, and none otherwise. */
  predicate MayPresent(guard: Option<Guard>, lease: LeaseField) {
    if lease.Some? && lease.value.status.Active?
    then guard == Some(Guard(lease.value.token, lease.value.epoch)) && StorageId(lease.value.token) && lease.value.epoch != 0
    else guard.None?
  }

  /** commitRunUpdateWithRetry: what it commits is the writer's update of the record it replaces, never
      of an older one; a conflicting write in between makes it load and decide again. */
  method CommitRunUpdateWithRetry(
    store: RunStore, w: Writer, lease: LeaseField, guard: Option<Guard>, rival: nat -> Option<RunRecord>)
    returns (result: UpdateResult, ghost replaced: RunRecord)
    modifies store
    ensures result.Committed? ==>
              && Prepare(w, replaced).Some?
              && store.run == Prepare(w, replaced).value.(revision := replaced.revision + 1)
              && SameIdentity(lease, replaced.lease)
    ensures result.NothingToCommit? ==> store.run == replaced && Prepare(w, replaced).None?
    ensures result.Committed? || result.NothingToCommit? ==> SameLease(lease, replaced.lease)
    ensures result.LeaseChanged? ==> store.run == replaced && !SameLease(lease, replaced.lease)
    ensures rival(0).None? && SameLease(lease, old(store.run.lease)) && MayPresent(guard, old(store.run.lease)) ==>
              replaced == old(store.run) && (if Prepare(w, replaced).Some? then result.Committed? else result.NothingToCommit?)
  {
    hide Prepare, StorageId;
    for retry := 0 to RETRY_LIMIT
      invariant retry == 0 ==> store.run == old(store.run)
      invariant retry > 0 ==> !(rival(0).None? && SameLease(lease, old(store.run.lease)) && MayPresent(guard, old(store.run.lease)))
    {
      var latest := store.run;
      replaced := latest;
      if !SameIdentity(lease, latest.lease) {
        result := LeaseChanged;
        return;
      }
      var prepared := Prepare(w, latest);
      if prepared.None? {
        result := NothingToCommit;
        return;
      }
      PrepareKeepsRevision(w, latest);
      store.Interfere(rival(retry));
      var swapped := store.Commit(guard, prepared.value);
      if swapped.Swapped? {
        result := Committed;
        return;
      }
      if swapped.Refused? {
        result := GuardRejected;
        return;
      }
    }
    result, replaced := RetriesExceeded, store.run;
  }

  lemma PrepareKeepsRevision(w: Writer, run: RunRecord)
    ensures Prepare(w, run).Some? ==> Prepare(w, run).value.revision == run.revision && Prepare(w, run).value.lease == run.lease
  {
  }
}
