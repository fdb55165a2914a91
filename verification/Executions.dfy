/** Who ends a run: the executions that hold its lease, one after the other. Each finishes the run once;
    what may follow is a failure that first looks whether the run is still active. */
module Executions {
  import opened Common
  import opened Lease
  import opened Runs
  import opened RunControl

  /** Holding the lease; about to go on with the run as it was read under the lease; running; over; or
      failing after all, with the requests seen on the second look. */
  datatype Phase = Fresh | Held(status: RunStatus, read: Flags, afterWave: bool) | Live | Over | Rechecking(flags: Flags)

  /** The main goroutine of one execution, with the record it has loaded for its current writer. */
  datatype Exec = Exec(guard: Guard, phase: Phase, loaded: Option<(Writer, RunRecord)>)

  /** Writers outside the main goroutine: bookkeeping and requests carry the guard of an execution, the
      others carry none. */
  datatype Side = Side(w: Writer, guard: Option<Guard>)

  datatype System = System(run: RunRecord, execs: map<nat, Exec>, sides: map<nat, (Side, RunRecord)>)

  datatype Step =
    | AcquireLease(e: nat, lease: ExecutionLease)
    | WriteLease(lease: ExecutionLease)
    | ReadRun(e: nat)
    | MainLoad(e: nat, w: Writer)
    | MainCommit(e: nat)
    | MainEnd(e: nat)
    | LookAgain(e: nat)
    | SideLoad(p: nat, side: Side)
    | SideCommit(p: nat)
    | SideEnd(p: nat)

  predicate EndsExecution(w: Writer) {
    w.CompleteRun? || w.FailRun? || w.PauseRun? || w.CancelRun? || w.AbortStartedRun?
  }

  /** While it runs, an execution stores checkpoints after its waves, and ends once. */
  predicate GoesOn(w: Writer) {
    EndsExecution(w) || w.SaveCheckpoint?
  }

  /** What an execution may load. A resume expects the status and carries the requests it read; a terminal
      run is resumed only at an after-wave checkpoint, at any other its continuation is a new run. An active
      run may go on without a resume. After the end only failAsyncExecution is left, with the flags it saw. */
  predicate MayLoad(phase: Phase, w: Writer) {
    match phase
    case Fresh => false
    case Held(status, read, afterWave) =>
      (w == ResumeRun(read, status) && (status.IsTerminal() ==> afterWave)) || (status.IsActive() && GoesOn(w))
    case Live => GoesOn(w)
    case Over => false
    case Rechecking(flags) => w.FailRun? && w.local == flags
  }

  /** Node goroutines store checkpoints too, never one after a wave. */
  predicate MaySide(side: Side) {
    match side.guard
    case Some(_) => side.w.MergeFlags? || (side.w.SaveCheckpoint? && !side.w.wave) || side.w.RequestPause? || side.w.RequestCancel?
    case None => side.w.KeepControl? || side.w.FinishEffectResolution? || side.w.CancelPausedRun?
  }

  predicate LeaseActive(run: RunRecord) {
    run.lease.Some? && run.lease.value.status.Active?
  }

  /** validateCommitExecutionLease: over an active lease a commit needs its guard. Cancelling a paused run
      takes the guard from the record it replaces, so it is not held up by a lease. */
  predicate SideAllowed(run: RunRecord, side: Side) {
    match side.guard
    case Some(g) => GuardMatches(run.lease, g)
    case None => side.w.KeepControl? || side.w.CancelPausedRun? || !LeaseActive(run)
  }

  predicate Enabled(s: System, step: Step) {
    match step
    case AcquireLease(e, l) =>
      && e !in s.execs && !s.run.status.IsTerminal() && !s.run.deleting
      && Epoch(s.run.lease) < l.epoch && GuardMatches(Some(l), Guard(l.token, l.epoch))
    case WriteLease(l) =>
      && s.run.lease.Some? && l.token == s.run.lease.value.token && l.epoch == s.run.lease.value.epoch
      && (l.status == s.run.lease.value.status || l.status.Released?)
    case ReadRun(e) => e in s.execs && s.execs[e].phase.Fresh? && GuardMatches(s.run.lease, s.execs[e].guard)
    case MainLoad(e, w) =>
      e in s.execs && MayLoad(s.execs[e].phase, w) && GuardMatches(s.run.lease, s.execs[e].guard) && !s.run.deleting
    case MainCommit(e) =>
      && e in s.execs && s.execs[e].loaded.Some? && s.execs[e].loaded.value.1.revision == s.run.revision
      && GuardMatches(s.run.lease, s.execs[e].guard)
      && Prepare(s.execs[e].loaded.value.0, s.execs[e].loaded.value.1).Some?
    case MainEnd(e) => e in s.execs
    case LookAgain(e) => e in s.execs && s.execs[e].phase.Over? && s.run.status.IsActive()
    case SideLoad(p, side) => MaySide(side)
    case SideCommit(p) =>
      && p in s.sides && s.sides[p].1.revision == s.run.revision && SideAllowed(s.run, s.sides[p].0)
      && Prepare(s.sides[p].0.w, s.sides[p].1).Some?
    case SideEnd(p) => p in s.sides
  }

  function Reading(run: RunRecord): Phase {
    Held(run.status, Flags(run.pauseRequested, run.cancelRequested), run.afterWave)
  }

  function Stored(run: RunRecord, next: RunRecord): RunRecord {
    next.(revision := run.revision + 1)
  }

  function Apply(s: System, step: Step): System
    requires Enabled(s, step)
  {
    match step
    case AcquireLease(e, l) =>
      s.(run := Stored(s.run, s.run.(lease := Some(l))), execs := s.execs[e := Exec(Guard(l.token, l.epoch), Fresh, None)])
    case WriteLease(l) => s.(run := Stored(s.run, s.run.(lease := Some(l))))
    case ReadRun(e) =>
      s.(execs := s.execs[e := s.execs[e].(phase := Reading(s.run))])
    case MainLoad(e, w) => s.(execs := s.execs[e := s.execs[e].(loaded := Some((w, s.run)))])
    case MainCommit(e) =>
      var (w, seen) := s.execs[e].loaded.value;
      var next := Prepare(w, seen).value;
      var phase := if w.SaveCheckpoint? || (w.ResumeRun? && next.status.Running?) then Live else Over;
      s.(run := Stored(s.run, next), execs := s.execs[e := Exec(s.execs[e].guard, phase, None)])
    case MainEnd(e) => s.(execs := s.execs[e := Exec(s.execs[e].guard, Over, None)])
    case LookAgain(e) =>
      s.(execs := s.execs[e := s.execs[e].(phase := Rechecking(Flags(s.run.pauseRequested, s.run.cancelRequested)))])
    case SideLoad(p, side) => s.(sides := s.sides[p := (side, s.run)])
    case SideCommit(p) =>
      var (side, seen) := s.sides[p];
      s.(run := Stored(s.run, Prepare(side.w, seen).value), sides := s.sides - {p})
    case SideEnd(p) => s.(sides := s.sides - {p})
  }

  // ----- the invariant -----

  /** A record loaded at the current revision is the current record. */
  predicate Faithful(run: RunRecord, seen: RunRecord) {
    seen.revision <= run.revision && (seen.revision == run.revision ==> seen == run)
  }

  predicate ExecInv(run: RunRecord, x: Exec) {
    && x.guard.epoch <= Epoch(run.lease)
    && (x.loaded.Some? ==> MayLoad(x.phase, x.loaded.value.0) && Faithful(run, x.loaded.value.1))
    && (GuardMatches(run.lease, x.guard) ==>
          && (x.phase.Live? || x.phase.Rechecking? ==> run.status.IsActive())
          && (x.phase.Held? && x.phase.status.IsActive() ==> run.status.IsActive()))
  }

  ghost predicate Inv(s: System) {
    && (forall e :: e in s.execs ==> ExecInv(s.run, s.execs[e]))
    && (forall e, f :: e in s.execs && f in s.execs && e != f ==> s.execs[e].guard.epoch != s.execs[f].guard.epoch)
    && (forall p :: p in s.sides ==> MaySide(s.sides[p].0) && Faithful(s.run, s.sides[p].1))
  }

  /** What a commit does to the other executions: the record is newer, and unless their guards do not
      match an active run stays active. */
  ghost predicate Bystander(before: RunRecord, after: RunRecord, x: Exec) {
    && after.revision == before.revision + 1
    && Epoch(before.lease) <= Epoch(after.lease)
    && (GuardMatches(after.lease, x.guard) ==>
          GuardMatches(before.lease, x.guard) && (before.status.IsActive() ==> after.status.IsActive()))
  }

  lemma BystanderKeepsInv(before: RunRecord, after: RunRecord, x: Exec)
    requires ExecInv(before, x) && Bystander(before, after, x)
    ensures ExecInv(after, x)
  {
    hide GuardMatches, MayLoad;
  }

  /** Checkpoints are stored by executions that run, and leave the status alone. */
  lemma CheckpointWhileActive(run: RunRecord, x: Exec)
    requires ExecInv(run, x) && GuardMatches(run.lease, x.guard) && x.loaded.Some? && x.loaded.value.0.SaveCheckpoint?
    ensures run.status.IsActive()
    ensures Prepare(x.loaded.value.0, run).Some? && Prepare(x.loaded.value.0, run).value.status == run.status
  {
    hide GuardMatches;
  }

  lemma MainCommitKeepsInv(s: System, e: nat)
    requires Inv(s) && Enabled(s, MainCommit(e))
    ensures Inv(Apply(s, MainCommit(e)))
  {
    hide Prepare, MayLoad, MaySide, StorageId;
    var t := Apply(s, MainCommit(e));
    var (w, seen) := s.execs[e].loaded.value;
    assert ExecInv(s.run, s.execs[e]);
    PrepareKeepsRevision(w, seen);
    if w.SaveCheckpoint? {
      CheckpointWhileActive(s.run, s.execs[e]);
    }
    forall f | f in t.execs ensures ExecInv(t.run, t.execs[f]) {
      if f != e {
        assert ExecInv(s.run, s.execs[f]);
        BystanderKeepsInv(s.run, t.run, s.execs[f]);
      }
    }
  }

  /** Commits from outside leave an active run active. */
  lemma SideCommitIsMild(run: RunRecord, side: Side)
    requires MaySide(side) && SideAllowed(run, side) && Prepare(side.w, run).Some?
    ensures var next := Prepare(side.w, run).value;
            next.lease == run.lease && (run.status.IsActive() ==> next.status.IsActive())
  {
  }

  lemma SideCommitKeepsInv(s: System, p: nat)
    requires Inv(s) && Enabled(s, SideCommit(p))
    ensures Inv(Apply(s, SideCommit(p)))
  {
    hide Prepare, MayLoad, MaySide, StorageId, SideAllowed;
    var t := Apply(s, SideCommit(p));
    SideCommitIsMild(s.run, s.sides[p].0);
    forall f | f in t.execs ensures ExecInv(t.run, t.execs[f]) {
      assert ExecInv(s.run, s.execs[f]);
      BystanderKeepsInv(s.run, t.run, s.execs[f]);
    }
  }

  lemma LeaseStepKeepsInv(s: System, step: Step)
    requires Inv(s) && Enabled(s, step) && (step.AcquireLease? || step.WriteLease?)
    ensures Inv(Apply(s, step))
  {
    hide MayLoad, MaySide, StorageId;
    var t := Apply(s, step);
    forall f | f in t.execs ensures ExecInv(t.run, t.execs[f]) {
      if f in s.execs {
        assert ExecInv(s.run, s.execs[f]);
        BystanderKeepsInv(s.run, t.run, s.execs[f]);
      }
    }
  }

  lemma QuietStepKeepsInv(s: System, step: Step)
    requires Inv(s) && Enabled(s, step)
    requires !step.AcquireLease? && !step.WriteLease? && !step.MainCommit? && !step.SideCommit?
    ensures Inv(Apply(s, step))
  {
    hide Prepare, GuardMatches, MaySide;
    var t := Apply(s, step);
    assert t.run == s.run;
    forall f | f in t.execs ensures ExecInv(t.run, t.execs[f]) {
      assert ExecInv(s.run, s.execs[f]);
    }
  }

  lemma StepKeepsInv(s: System, step: Step)
    requires Inv(s) && Enabled(s, step)
    ensures Inv(Apply(s, step))
  {
    hide Inv, Enabled, Apply;
    match step
    case MainCommit(e) => MainCommitKeepsInv(s, e);
    case SideCommit(p) => SideCommitKeepsInv(s, p);
    case AcquireLease(_, _) => LeaseStepKeepsInv(s, step);
    case WriteLease(_) => LeaseStepKeepsInv(s, step);
    case _ => QuietStepKeepsInv(s, step);
  }

  // ----- whole executions -----

  /** A stored run nobody works on, or a started one with the execution that holds its lease. */
  ghost predicate Initial(s: System) {
    && s.sides == map[]
    && (|| s.execs == map[]
        || (s.run.status.IsActive()
            && exists e, g :: s.execs == map[e := Exec(g, Live, None)] && GuardMatches(s.run.lease, g)))
  }

  ghost predicate IsExecution(states: seq<System>, steps: seq<Step>) {
    && |states| == |steps| + 1
    && Initial(states[0])
    && forall i, j :: 0 <= i && j == i + 1 && j < |states| ==> Enabled(states[i], steps[i]) && states[j] == Apply(states[i], steps[i])
  }

  lemma InitialInv(s: System)
    requires Initial(s)
    ensures Inv(s)
  {
    hide StorageId;
  }

  lemma {:induction false} ExecutionKeepsInv(states: seq<System>, steps: seq<Step>, k: nat)
    requires IsExecution(states, steps) && k < |states|
    ensures Inv(states[k])
  {
    hide Initial, Inv, Enabled, Apply;
    if k == 0 {
      InitialInv(states[0]);
    } else {
      ExecutionKeepsInv(states, steps, k - 1);
      var last, current := states[k - 1], states[k];
      StepKeepsInv(last, steps[k - 1]);
    }
  }

  // ----- canceled runs -----

  /** The one way for a run canceled under a lease to go on: its last checkpoint was taken after a wave, its
      holder has still to read it or has read it as canceled, and no cancel request is left on it. */
  predicate IsWayOut(run: RunRecord, x: Exec) {
    && GuardMatches(run.lease, x.guard) && !run.deleting && !run.cancelRequested
    && (|| (x.phase.Fresh? && run.afterWave)
        || (x.phase.Held? && x.phase.status.Canceled? && x.phase.afterWave && !x.phase.read.cancel))
  }

  ghost predicate WayOut(s: System) {
    exists e :: e in s.execs && IsWayOut(s.run, s.execs[e])
  }

  /** A holder moves a canceled run elsewhere exactly if it read the run as canceled, at an after-wave
      checkpoint, and there is no cancel request; all else it may still write leaves the run canceled. */
  lemma HolderLeavesCanceledExactly(s: System, e: nat)
    requires Inv(s) && Enabled(s, MainCommit(e)) && s.run.status.Canceled?
    ensures s.execs[e].phase.Held?
    ensures !Apply(s, MainCommit(e)).run.status.Canceled?
            <==> && s.execs[e].phase.status.Canceled? && s.execs[e].phase.afterWave
                 && !s.execs[e].phase.read.cancel && !s.run.cancelRequested
  {
    hide GuardMatches;
    assert ExecInv(s.run, s.execs[e]);
  }

  /** And nobody else moves it. */
  lemma OnlyHoldersLeaveCanceled(s: System, step: Step)
    requires Inv(s) && Enabled(s, step) && s.run.status.Canceled? && !step.MainCommit?
    ensures Apply(s, step).run.status.Canceled?
  {
    hide GuardMatches, MayLoad;
  }

  lemma NoWayOutAppears(s: System, step: Step)
    requires Inv(s) && Enabled(s, step) && s.run.status.Canceled? && !WayOut(s) && !step.MainCommit?
    ensures !WayOut(Apply(s, step))
  {
    hide Prepare, MayLoad, MaySide, StorageId;
    var t := Apply(s, step);
    assert step.SideCommit? ==> t.run.lease == s.run.lease && t.run.deleting == s.run.deleting
                                && t.run.afterWave == s.run.afterWave && (s.run.cancelRequested ==> t.run.cancelRequested) by {
      if step.SideCommit? {
        SideCommitOverCanceled(s.run, s.sides[step.p].0);
      }
    }
    assert forall f :: f in t.execs && IsWayOut(t.run, t.execs[f]) ==> f in s.execs && IsWayOut(s.run, s.execs[f]);
  }

  lemma SideCommitOverCanceled(run: RunRecord, side: Side)
    requires MaySide(side) && Prepare(side.w, run).Some? && run.status.Canceled?
    ensures var next := Prepare(side.w, run).value;
            && next.lease == run.lease && next.deleting == run.deleting && next.afterWave == run.afterWave
            && (run.cancelRequested ==> next.cancelRequested)
  {
  }

  /** After the holder's last commit nobody who matches is left to read the run. */
  lemma HolderIsDone(s: System, e: nat)
    requires Inv(s) && Enabled(s, MainCommit(e)) && !Apply(s, MainCommit(e)).run.status.Running?
    ensures !WayOut(Apply(s, MainCommit(e)))
  {
    hide Prepare, MayLoad, MaySide, StorageId;
    var t := Apply(s, MainCommit(e));
    PrepareKeepsRevision(s.execs[e].loaded.value.0, s.execs[e].loaded.value.1);
    assert ExecInv(s.run, s.execs[e]);
    assert t.run.lease == s.run.lease && (t.execs[e].phase.Live? || t.execs[e].phase.Over?);
    forall f | f in t.execs ensures !IsWayOut(t.run, t.execs[f]) {
      assert f != e ==> s.execs[f].guard.epoch != s.execs[e].guard.epoch;
    }
  }

  lemma NoWayOutStays(s: System, step: Step)
    requires Inv(s) && Enabled(s, step) && s.run.status.Canceled? && !WayOut(s)
    ensures Apply(s, step).run.status.Canceled? && !WayOut(Apply(s, step))
  {
    hide Inv, WayOut, GuardMatches;
    if step.MainCommit? {
      HolderLeavesCanceledExactly(s, step.e);
      StillNoWayOut(s, step.e);
      HolderIsDone(s, step.e);
    } else {
      OnlyHoldersLeaveCanceled(s, step);
      NoWayOutAppears(s, step);
    }
  }

  lemma StillNoWayOut(s: System, e: nat)
    requires Inv(s) && Enabled(s, MainCommit(e)) && s.run.status.Canceled? && !WayOut(s)
    ensures Apply(s, MainCommit(e)).run.status.Canceled?
  {
    HolderLeavesCanceledExactly(s, e);
    hide GuardMatches;
    assert ExecInv(s.run, s.execs[e]);
    assert !IsWayOut(s.run, s.execs[e]);
  }

  ghost predicate Possible(s: System, steps: seq<Step>)
    decreases |steps|
  {
    steps == [] || (Enabled(s, steps[0]) && Possible(Apply(s, steps[0]), steps[1..]))
  }

  ghost function After(s: System, steps: seq<Step>): System
    requires Possible(s, steps)
    decreases |steps|
  {
    if steps == [] then s else After(Apply(s, steps[0]), steps[1..])
  }

  lemma {:induction false} NoWayOutForGood(s: System, steps: seq<Step>)
    requires Inv(s) && s.run.status.Canceled? && !WayOut(s) && Possible(s, steps)
    ensures After(s, steps).run.status.Canceled?
    decreases |steps|
  {
    hide Inv, WayOut, Enabled, Apply;
    if steps != [] {
      NoWayOutStays(s, steps[0]);
      StepKeepsInv(s, steps[0]);
      NoWayOutForGood(Apply(s, steps[0]), steps[1..]);
    }
  }

  /** A holder that has read the run as canceled can set it running. */
  lemma TakeWayOut(s: System, e: nat)
    requires e in s.execs && IsWayOut(s.run, s.execs[e]) && s.execs[e].phase.Held? && s.run.status.Canceled?
    ensures var steps := [MainLoad(e, ResumeRun(s.execs[e].phase.read, Canceled)), MainCommit(e)];
            Possible(s, steps) && After(s, steps).run.status.Running?
  {
    hide GuardMatches;
    var load, commit := MainLoad(e, ResumeRun(s.execs[e].phase.read, Canceled)), MainCommit(e);
    var t := Apply(s, load);
    assert t.execs[e].loaded == Some((load.w, s.run));
    var steps := [load, commit];
    assert steps[1..] == [commit] && [commit][1..] == [];
    assert Possible(t, [commit]);
    assert After(t, [commit]) == Apply(t, commit);
  }

  lemma ReadThenTake(s: System, e: nat)
    requires e in s.execs && IsWayOut(s.run, s.execs[e]) && s.run.status.Canceled?
    ensures exists steps :: Possible(s, steps) && After(s, steps).run.status.Running?
  {
    hide GuardMatches, Prepare;
    if s.execs[e].phase.Held? {
      TakeWayOut(s, e);
    } else {
      var t := Apply(s, ReadRun(e));
      TakeWayOut(t, e);
      var rest := [MainLoad(e, ResumeRun(t.execs[e].phase.read, Canceled)), MainCommit(e)];
      var steps := [ReadRun(e)] + rest;
      assert steps[1..] == rest;
      assert Possible(s, steps) && After(s, steps) == After(t, rest);
    }
  }

  /** A run canceled under a lease can go on, by whatever steps, exactly if the holder of the lease has not
      read it yet or has read it as canceled, its last checkpoint was then taken after a wave, and no cancel
      request is left on it. */
  lemma CanceledForGood(s: System)
    requires Inv(s) && s.run.status.Canceled?
    ensures (exists steps :: Possible(s, steps) && !After(s, steps).run.status.Canceled?) <==> WayOut(s)
  {
    hide Inv, Possible, After, IsWayOut;
    if WayOut(s) {
      var e :| e in s.execs && IsWayOut(s.run, s.execs[e]);
      ReadThenTake(s, e);
    } else {
      forall steps | Possible(s, steps) ensures After(s, steps).run.status.Canceled? {
        NoWayOutForGood(s, steps);
      }
    }
  }

  /** It happens: a paused run is taken over and canceled over the lease. The holder, which finds it canceled
      and expects it so, can then resume it exactly if it was paused after a wave. */
  lemma CanceledOverLease(run: RunRecord, lease: ExecutionLease)
    requires run.status.Paused? && !run.deleting && Epoch(run.lease) < lease.epoch
    requires GuardMatches(Some(lease), Guard(lease.token, lease.epoch))
    ensures var s := System.System(run, map[], map[]);
            var steps := [AcquireLease(0, lease), SideLoad(0, Side(CancelPausedRun, None)), SideCommit(0)];
            && Initial(s) && Possible(s, steps)
            && After(s, steps).run.status.Canceled? && (WayOut(After(s, steps)) <==> run.afterWave)
  {
    hide GuardMatches;
    var acquire, load, commit := AcquireLease(0, lease), SideLoad(0, Side(CancelPausedRun, None)), SideCommit(0);
    var s := System.System(run, map[], map[]);
    var t := Apply(s, acquire);
    var u := Apply(t, load);
    assert u.sides[0] == (Side(CancelPausedRun, None), t.run);
    var v := Apply(u, commit);
    assert v.execs[0] == Exec(Guard(lease.token, lease.epoch), Fresh, None);
    assert IsWayOut(v.run, v.execs[0]) <==> run.afterWave;
    var steps := [acquire, load, commit];
    assert steps[1..] == [load, commit] && [load, commit][1..] == [commit] && [commit][1..] == [];
    assert Possible(u, [commit]) && After(u, [commit]) == v;
    assert Possible(t, [load, commit]) && After(t, [load, commit]) == v;
  }

  // ----- cancel requests -----

  ghost predicate CancelHolds(s: System) {
    CancelPending(s.run) || (s.run.status.Canceled? && !WayOut(s))
  }

  lemma MainCommitHolds(s: System, e: nat)
    requires Inv(s) && Enabled(s, MainCommit(e)) && CancelPending(s.run)
    ensures CancelHolds(Apply(s, MainCommit(e)))
  {
    assert ExecInv(s.run, s.execs[e]);
    hide Prepare, GuardMatches, WayOut;
    var (w, seen) := s.execs[e].loaded.value;
    CommitKeepsCancel(w, seen);
    var t := Apply(s, MainCommit(e));
    SameButRevision(Prepare(w, seen).value, t.run);
    if t.run.status.Canceled? {
      HolderIsDone(s, e);
    }
  }

  lemma SideCommitHolds(s: System, p: nat)
    requires Inv(s) && Enabled(s, SideCommit(p)) && CancelPending(s.run)
    ensures CancelPending(Apply(s, SideCommit(p)).run)
  {
    hide GuardMatches;
  }

  lemma StepHolds(s: System, step: Step)
    requires Inv(s) && Enabled(s, step) && CancelHolds(s)
    ensures CancelHolds(Apply(s, step))
  {
    hide Inv, Enabled, Apply, WayOut;
    if s.run.status.Canceled? {
      NoWayOutStays(s, step);
    } else {
      match step
      case MainCommit(e) => MainCommitHolds(s, e);
      case SideCommit(p) => SideCommitHolds(s, p);
      case _ => StatusKept(s, step);
    }
  }

  /** Cancel requests win: from the moment a cancel request is stored on an active run, that run is only
      ever waiting to be canceled or canceled for good, whatever requests, finished executions, takeovers
      of the lease, cancelled pauses and second looks at a failed execution race with it. */
  lemma {:induction false} CancelWins(states: seq<System>, steps: seq<Step>, k: nat, m: nat)
    requires IsExecution(states, steps) && k <= m < |states| && CancelPending(states[k].run)
    ensures CancelPending(states[m].run) || (states[m].run.status.Canceled? && !WayOut(states[m]))
  {
    hide Initial, Inv, Enabled, Apply, WayOut;
    if k < m {
      CancelWins(states, steps, k, m - 1);
      ExecutionKeepsInv(states, steps, m - 1);
      var last, current := states[m - 1], states[m];
      StepHolds(last, steps[m - 1]);
    }
  }

  lemma StatusKept(s: System, step: Step)
    requires Enabled(s, step) && !step.MainCommit? && !step.SideCommit?
    ensures var r := Apply(s, step).run;
            r.status == s.run.status && r.pauseRequested == s.run.pauseRequested && r.cancelRequested == s.run.cancelRequested
  {
    hide Prepare, GuardMatches, MayLoad;
  }
}
