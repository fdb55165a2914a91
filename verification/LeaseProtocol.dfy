/** Runners acquiring, renewing and releasing the lease of one run through read and
    compare-and-swap, with any number of them interleaved and a clock that does not run backwards. */
module LeaseProtocol {
  import opened Common
  import opened Text
  import opened Lease

  /** What a runner read, and when. */
  datatype Snapshot = Snapshot(revision: nat, lease: LeaseField, readAt: Time)

  /** The time during which one epoch's holder could consider the lease valid. */
  datatype Window = Window(epoch: nat, from: Time, until: Time)

  /** The stored run with its revision, the clock, the reads in flight and, for the statement of the
      theorem only, the windows of the epochs that are over. */
  datatype System = System(
    revision: nat, lease: LeaseField, clock: Time, views: map<nat, Snapshot>, past: seq<Window>)

  /** newExecutionLease */
  function NewLease(previous: LeaseField, owner: string, token: string, now: Time, ttl: Time): ExecutionLease {
    var epoch := match previous case None => 1 case Some(p) => NextEpoch(p.epoch);
    ExecutionLease(owner, token, epoch, Active, now, now, now + ttl)
  }

  function WindowOf(l: ExecutionLease): Window {
    Window(l.epoch, l.acquiredAt, l.expiresAt)
  }

  /** The store accepts a write of what was read as `seen` when nothing was written since. */
  predicate Swaps(s: System, seen: Snapshot, next: LeaseField, kind: MutationKind, now: Time) {
    && seen.revision == s.revision
    && TransitionAccepted(Mutating(kind, now), s.lease, next)
  }

  datatype Step =
    | Tick(to: Time)
    | Read(p: nat)
    | AcquireStep(p: nat, owner: string, token: string, now: Time, ttl: Time)
    | HeartbeatStep(p: nat, guard: Guard, now: Time, ttl: Time)
    | ReleaseStep(p: nat, guard: Guard, now: Time)
    | ReleaseExpired(p: nat, now: Time)
    | OtherWrite

  /** A runner reads the clock after it read the run. */
  predicate ClockRead(s: System, p: nat, now: Time) {
    p in s.views && s.views[p].readAt <= now <= s.clock
  }

  predicate Enabled(s: System, step: Step) {
    match step
    case Tick(to) => s.clock <= to
    case Read(p) => true
    case AcquireStep(p, owner, token, now, ttl) =>
      && ClockRead(s, p, now)
      && !HeldAt(s.views[p].lease, now)
      && Swaps(s, s.views[p], Some(NewLease(s.views[p].lease, owner, token, now, ttl)), Acquire, now)
    case HeartbeatStep(p, guard, now, ttl) =>
      && ClockRead(s, p, now)
      && GuardMatches(s.views[p].lease, guard)
      && Swaps(s, s.views[p], Some(s.views[p].lease.value.(heartbeatAt := now, expiresAt := now + ttl)), Heartbeat, now)
    case ReleaseStep(p, guard, now) =>
      && ClockRead(s, p, now)
      && GuardMatches(s.views[p].lease, guard)
      && Swaps(s, s.views[p], Some(s.views[p].lease.value.(status := Released, heartbeatAt := now, expiresAt := now)), Release, now)
    case ReleaseExpired(p, now) =>
      && ClockRead(s, p, now)
      && s.views[p].lease.Some? && s.views[p].lease.value.status.Active? && !HeldAt(s.views[p].lease, now)
      && Swaps(s, s.views[p], Some(s.views[p].lease.value.(status := Released, heartbeatAt := now, expiresAt := now)), Release, now)
    case OtherWrite => true
  }

  function Stored(s: System, next: LeaseField): System {
    s.(revision := s.revision + 1, lease := next)
  }

  function Apply(s: System, step: Step): System
    requires Enabled(s, step)
  {
    match step
    case Tick(to) => s.(clock := to)
    case Read(p) => s.(views := s.views[p := Snapshot(s.revision, s.lease, s.clock)])
    case AcquireStep(p, owner, token, now, ttl) =>
      var next := Some(NewLease(s.views[p].lease, owner, token, now, ttl));
      Stored(s, next).(past := match s.lease case None => s.past case Some(l) => s.past + [WindowOf(l)])
    case HeartbeatStep(p, guard, now, ttl) =>
      Stored(s, Some(s.views[p].lease.value.(heartbeatAt := now, expiresAt := now + ttl)))
    case ReleaseStep(p, guard, now) =>
      Stored(s, Some(s.views[p].lease.value.(status := Released, heartbeatAt := now, expiresAt := now)))
    case ReleaseExpired(p, now) =>
      Stored(s, Some(s.views[p].lease.value.(status := Released, heartbeatAt := now, expiresAt := now)))
    case OtherWrite => Stored(s, s.lease)
  }

  // ----- the invariant -----

  /** A released lease ended no later than the moment it was seen. */
  predicate EndedBy(lease: LeaseField, t: Time) {
    lease.Some? && lease.value.status.Released? ==> lease.value.expiresAt <= t
  }

  /** A read is as old as its revision says. */
  predicate FaithfulRead(s: System, seen: Snapshot) {
    && seen.readAt <= s.clock && seen.revision <= s.revision
    && (seen.revision == s.revision ==> seen.lease == s.lease && EndedBy(s.lease, seen.readAt))
  }

  /** Windows in order, each over before the next begins. */
  ghost predicate Disjoint(windows: seq<Window>) {
    forall i, j :: 0 <= i < j < |windows| ==> windows[i].epoch < windows[j].epoch && windows[i].until <= windows[j].from
  }

  /** All windows so far, the current one last. */
  function Windows(s: System): seq<Window> {
    match s.lease
    case None => s.past
    case Some(l) => s.past + [WindowOf(l)]
  }

  ghost predicate Inv(s: System) {
    && ValidLease(s.lease)
    && EndedBy(s.lease, s.clock)
    && (forall p :: p in s.views ==> FaithfulRead(s, s.views[p]))
    && (s.lease.None? ==> s.past == [])
    && Disjoint(Windows(s))
    && (forall i :: 0 <= i < |Windows(s)| ==> Windows(s)[i].from <= Windows(s)[i].until)
  }

  lemma ReplaceLast(past: seq<Window>, w: Window, v: Window)
    requires Disjoint(past + [w]) && w.epoch == v.epoch && w.from == v.from
    ensures Disjoint(past + [v])
  {
    var before, after := past + [w], past + [v];
    forall i, j | 0 <= i < j < |after| ensures after[i].epoch < after[j].epoch && after[i].until <= after[j].from {
      assert before[i].epoch < before[j].epoch && before[i].until <= before[j].from;
    }
  }

  lemma AppendWindow(windows: seq<Window>, w: Window)
    requires Disjoint(windows)
    requires forall i :: 0 <= i < |windows| ==> windows[i].from <= windows[i].until
    requires windows != [] ==> windows[|windows| - 1].epoch < w.epoch && windows[|windows| - 1].until <= w.from
    ensures Disjoint(windows + [w])
  {
    var all := windows + [w];
    forall i, j | 0 <= i < j < |all| ensures all[i].epoch < all[j].epoch && all[i].until <= all[j].from {
      if j == |windows| && i < |windows| - 1 {
        assert windows[i].until <= windows[|windows| - 1].from;
      }
    }
  }

  lemma StoredKeepsReads(s: System, next: LeaseField)
    requires forall p :: p in s.views ==> FaithfulRead(s, s.views[p])
    ensures forall p :: p in s.views ==> FaithfulRead(Stored(s, next), s.views[p])
  {
  }

  /** What the store and the runner checked before a lease is taken over. */
  lemma AcquireFacts(s: System, step: Step)
    requires Inv(s) && step.AcquireStep? && Enabled(s, step)
    ensures step.p in s.views && s.views[step.p].lease == s.lease
    ensures var next := NewLease(s.lease, step.owner, step.token, step.now, step.ttl);
            && ValidLease(Some(next)) && next.status.Active? && next.acquiredAt <= next.expiresAt
            && (s.lease.Some? ==> s.lease.value.epoch < next.epoch && s.lease.value.expiresAt <= next.acquiredAt)
  {
    hide StorageId, TrimSpace, Disjoint, Windows;
    assert FaithfulRead(s, s.views[step.p]);
  }

  /** Taking over opens a new window after all the others. */
  lemma AcquireKeepsInv(s: System, step: Step)
    requires Inv(s) && step.AcquireStep? && Enabled(s, step)
    ensures Inv(Apply(s, step))
  {
    hide Enabled, ValidLease, FaithfulRead, Disjoint, NewLease;
    AcquireFacts(s, step);
    var next := NewLease(s.lease, step.owner, step.token, step.now, step.ttl);
    var windows := Windows(s);
    StoredKeepsReads(s, Some(next));
    AppendWindow(windows, WindowOf(next));
    assert Windows(Apply(s, step)) == windows + [WindowOf(next)];
    StoredReadsSurvive(s, Apply(s, step), Some(next));
  }

  /** The windows that are over do not matter to a read. */
  lemma StoredReadsSurvive(s: System, t: System, next: LeaseField)
    requires forall p :: p in s.views ==> FaithfulRead(Stored(s, next), s.views[p])
    requires t == Stored(s, next).(past := t.past)
    ensures forall p :: p in t.views ==> FaithfulRead(t, t.views[p])
  {
  }

  /** Renewing and releasing move only the end of the current window. */
  lemma SameEpochKeepsInv(s: System, next: ExecutionLease)
    requires Inv(s) && s.lease.Some? && SameHolder(s.lease.value, next)
    requires ValidLease(Some(next)) && EndedBy(Some(next), s.clock) && next.acquiredAt <= next.expiresAt
    ensures Inv(Stored(s, Some(next)))
  {
    hide StorageId, Disjoint;
    StoredKeepsReads(s, Some(next));
    ReplaceLast(s.past, WindowOf(s.lease.value), WindowOf(next));
    var before, after := Windows(s), Windows(Stored(s, Some(next)));
    forall i | 0 <= i < |after| ensures after[i].from <= after[i].until {
      if i < |s.past| { assert after[i] == before[i]; }
    }
  }

  lemma HeartbeatFacts(s: System, step: Step)
    requires Inv(s) && step.HeartbeatStep? && Enabled(s, step)
    ensures step.p in s.views && s.views[step.p].lease == s.lease && s.lease.Some?
    ensures var next := s.lease.value.(heartbeatAt := step.now, expiresAt := step.now + step.ttl);
            ValidLease(Some(next)) && SameHolder(s.lease.value, next) && next.status.Active? && next.acquiredAt <= next.expiresAt
  {
    hide StorageId, TrimSpace, Disjoint, Windows;
    assert FaithfulRead(s, s.views[step.p]);
  }

  lemma HeartbeatKeepsInv(s: System, step: Step)
    requires Inv(s) && step.HeartbeatStep? && Enabled(s, step)
    ensures Inv(Apply(s, step))
  {
    hide Enabled, ValidLease, FaithfulRead, Disjoint, SameHolder;
    HeartbeatFacts(s, step);
    SameEpochKeepsInv(s, s.lease.value.(heartbeatAt := step.now, expiresAt := step.now + step.ttl));
  }

  lemma ReleaseFacts(s: System, step: Step)
    requires Inv(s) && (step.ReleaseStep? || step.ReleaseExpired?) && Enabled(s, step)
    ensures step.p in s.views && s.views[step.p].lease == s.lease && s.lease.Some?
    ensures var next := s.lease.value.(status := Released, heartbeatAt := step.now, expiresAt := step.now);
            ValidLease(Some(next)) && SameHolder(s.lease.value, next) && EndedBy(Some(next), s.clock) && next.acquiredAt <= next.expiresAt
  {
    hide StorageId, TrimSpace, Disjoint, Windows;
    assert FaithfulRead(s, s.views[step.p]);
  }

  lemma ReleaseKeepsInv(s: System, step: Step)
    requires Inv(s) && (step.ReleaseStep? || step.ReleaseExpired?) && Enabled(s, step)
    ensures Inv(Apply(s, step))
  {
    hide Enabled, ValidLease, FaithfulRead, Disjoint, SameHolder, EndedBy;
    ReleaseFacts(s, step);
    SameEpochKeepsInv(s, s.lease.value.(status := Released, heartbeatAt := step.now, expiresAt := step.now));
  }

  lemma QuietKeepsInv(s: System, step: Step)
    requires Inv(s) && (step.Tick? || step.Read? || step.OtherWrite?) && Enabled(s, step)
    ensures Inv(Apply(s, step))
  {
    hide StorageId, Disjoint, ValidLease;
    StoredKeepsReads(s, s.lease);
    assert Windows(Apply(s, step)) == Windows(s);
  }

  lemma StepKeepsInv(s: System, step: Step)
    requires Inv(s) && Enabled(s, step)
    ensures Inv(Apply(s, step))
  {
    hide Inv, Enabled, Apply;
    match step
    case AcquireStep(_, _, _, _, _) => AcquireKeepsInv(s, step);
    case HeartbeatStep(_, _, _, _) => HeartbeatKeepsInv(s, step);
    case ReleaseStep(_, _, _) => ReleaseKeepsInv(s, step);
    case ReleaseExpired(_, _) => ReleaseKeepsInv(s, step);
    case _ => QuietKeepsInv(s, step);
  }

  // ----- whole executions -----

  /** A run that was just stored, with or without a first lease, and nobody reading yet. */
  ghost predicate Initial(s: System) {
    && s.views == map[] && s.past == []
    && ValidLease(s.lease)
    && (s.lease.Some? ==> s.lease.value.status.Active?)
  }

  ghost predicate IsExecution(states: seq<System>, steps: seq<Step>) {
    && |states| == |steps| + 1
    && Initial(states[0])
    && forall i, j :: 0 <= i && j == i + 1 && j < |states| ==>
         Enabled(states[i], steps[i]) && states[j] == Apply(states[i], steps[i])
  }

  lemma InitialInv(s: System)
    requires Initial(s)
    ensures Inv(s)
  {
    hide StorageId, TrimSpace;
    assert Windows(s) == match s.lease case None => [] case Some(l) => [WindowOf(l)];
  }

  lemma {:induction false} ExecutionKeepsInv(states: seq<System>, steps: seq<Step>, k: nat)
    requires IsExecution(states, steps) && k < |states|
    ensures Inv(states[k])
  {
    hide Initial, Inv, Enabled, Apply;
    if k == 0 {
      InitialInv(states[0]);
    } else {
      ExecutionKeepsInv(states, steps, k - 1);
      var last, current := states[k - 1], states[k];
      assert Enabled(last, steps[k - 1]) && current == Apply(last, steps[k - 1]);
      StepKeepsInv(last, steps[k - 1]);
    }
  }

  /** Over every execution a lease that is active changes only by its own holder, who presents its token and
      epoch, or after it has run out. */
  lemma ActiveLeaseChangesBy(states: seq<System>, steps: seq<Step>, k: nat)
    requires IsExecution(states, steps) && k < |steps|
    requires states[k].lease.Some? && states[k].lease.value.status.Active? && states[k + 1].lease != states[k].lease
    ensures var step, lease := steps[k], states[k].lease.value;
            || ((step.HeartbeatStep? || step.ReleaseStep?) && step.guard == Guard(lease.token, lease.epoch))
            || ((step.AcquireStep? || step.ReleaseExpired?) && lease.expiresAt <= step.now)
  {
    hide StorageId, TrimSpace, ValidLease, Disjoint, Windows;
    var before, after, step := states[k], states[k + 1], steps[k];
    ExecutionKeepsInv(states, steps, k);
    assert Enabled(before, step) && after == Apply(before, step);
    if !step.Tick? && !step.Read? && !step.OtherWrite? {
      assert FaithfulRead(before, before.views[step.p]);
    }
  }

  /** However the runners interleave, the validity windows of different epochs do not overlap. */
  lemma WindowsDoNotOverlap(states: seq<System>, steps: seq<Step>, k: nat, i: nat, j: nat)
    requires IsExecution(states, steps) && k < |states|
    requires i < j < |Windows(states[k])|
    ensures var w, v := Windows(states[k])[i], Windows(states[k])[j];
            w.epoch < v.epoch && w.until <= v.from
  {
    ExecutionKeepsInv(states, steps, k);
  }
}

/** The retry loops of the runner around that protocol. */
module LeaseLoops {
  import opened Common
  import opened Text
  import opened Lease
  import opened LeaseProtocol
  import opened Runs

  datatype LeaseResult =
    | Done(guard: Guard)
    | AlreadyTerminal
    | LeaseHeld
    | LeaseLost
    | ReservedForDeletion
    | RetriesExceeded
    | RefusedByStore

  /** The lease is free and the runner's names and clock are in order: nothing stands in the way of taking it. */
  predicate MayTake(run: RunRecord, owner: string, token: string, now: Time, ttl: Time) {
    && !run.deleting && (run.status.Pending? || run.status.Running? || run.status.Paused?)
    && ValidLease(run.lease)
    && (run.lease.Some? ==> run.lease.value.token != token && run.lease.value.epoch + 1 < EPOCHS
                            && (run.lease.value.status.Released? || run.lease.value.expiresAt <= now))
    && StorageId(TrimSpace(owner)) && StorageId(TrimSpace(token)) && now != ZERO_TIME && now + ttl != ZERO_TIME && ttl > 0
  }

  /** The caller holds the lease and its clock moved on. */
  predicate MayRenew(run: RunRecord, guard: Guard, now: Time, ttl: Time) {
    && !run.deleting && ValidLease(run.lease) && GuardMatches(run.lease, guard)
    && run.lease.value.heartbeatAt <= now && run.lease.value.expiresAt <= now + ttl
    && now != ZERO_TIME && now + ttl != ZERO_TIME && ttl > 0
  }

  predicate MayEnd(run: RunRecord, guard: Guard, now: Time) {
    && !run.deleting && ValidLease(run.lease) && GuardMatches(run.lease, guard)
    && run.lease.value.acquiredAt <= now && now != ZERO_TIME
  }

  /** acquireExecutionLease. Whatever other writers do between a read and its swap, success means that
      the record it replaced was neither terminal nor held, and that only its lease and revision changed. */
  method AcquireExecutionLease(
    store: RunStore, owner: string, token: nat -> string, clock: nat -> Time, ttl: Time, rival: nat -> Option<RunRecord>)
    returns (result: LeaseResult, ghost replaced: RunRecord, ghost now: Time)
    modifies store
    ensures result.Done? ==>
              && !replaced.status.IsTerminal() && !replaced.deleting && !HeldAt(replaced.lease, now)
              && store.run.lease.Some? && store.run.lease.value.status.Active?
              && store.run.lease.value.owner == owner && store.run.lease.value.acquiredAt == store.run.lease.value.heartbeatAt == now
              && store.run.lease.value.expiresAt == now + ttl
              && result.guard == Guard(store.run.lease.value.token, store.run.lease.value.epoch)
              && Epoch(store.run.lease) == NextEpoch(Epoch(replaced.lease))
              && store.run == replaced.(revision := replaced.revision + 1, lease := store.run.lease)
    ensures result.LeaseHeld? ==> HeldAt(store.run.lease, now) && store.run == replaced
    ensures result.AlreadyTerminal? ==> store.run.status.IsTerminal() && store.run == replaced
    ensures result.ReservedForDeletion? ==> store.run.deleting && store.run == replaced
    ensures rival(0).None? && MayTake(old(store.run), owner, token(0), clock(0), ttl) ==> result.Done? && replaced == old(store.run)
  {
    hide StorageId, TrimSpace;
    for attempt := 0 to RETRY_LIMIT
      invariant attempt == 0 ==> store.run == old(store.run)
      invariant attempt > 0 ==> !(rival(0).None? && MayTake(old(store.run), owner, token(0), clock(0), ttl))
    {
      var run := store.run;
      replaced, now := run, clock(attempt);
      if run.deleting {
        result := ReservedForDeletion;
        return;
      }
      if run.status.IsTerminal() {
        result := AlreadyTerminal;
        return;
      }
      var at := clock(attempt);
      if HeldAt(run.lease, at) {
        result := LeaseHeld;
        return;
      }
      var lease := NewLease(run.lease, owner, token(attempt), at, ttl);
      store.Interfere(rival(attempt));
      var swapped := store.CompareAndSwap(Mutating(Acquire, at), run.(lease := Some(lease)));
      if swapped.Swapped? {
        result := Done(Guard(lease.token, lease.epoch));
        return;
      }
      if swapped.Refused? {
        result := RefusedByStore;
        return;
      }
    }
    result, replaced, now := RetriesExceeded, store.run, ZERO_TIME;
  }

  /** heartbeatExecutionLease: success extends the holder's own lease and nothing else. */
  method HeartbeatExecutionLease(
    store: RunStore, guard: Guard, clock: nat -> Time, ttl: Time, rival: nat -> Option<RunRecord>)
    returns (result: LeaseResult, ghost replaced: RunRecord, ghost now: Time)
    modifies store
    ensures result.Done? ==>
              && result.guard == guard && !replaced.deleting
              && GuardMatches(replaced.lease, guard) && GuardMatches(store.run.lease, guard)
              && replaced.lease.value.expiresAt <= store.run.lease.value.expiresAt == now + ttl
              && store.run.lease.value == replaced.lease.value.(heartbeatAt := now, expiresAt := now + ttl)
              && store.run == replaced.(revision := replaced.revision + 1, lease := store.run.lease)
    ensures result.LeaseLost? ==> !GuardMatches(store.run.lease, guard)
    ensures rival(0).None? && MayRenew(old(store.run), guard, clock(0), ttl) ==> result.Done? && replaced == old(store.run)
  {
    hide StorageId, TrimSpace;
    for attempt := 0 to RETRY_LIMIT
      invariant attempt == 0 ==> store.run == old(store.run)
      invariant attempt > 0 ==> !(rival(0).None? && MayRenew(old(store.run), guard, clock(0), ttl))
    {
      var run := store.run;
      replaced, now := run, clock(attempt);
      if run.deleting {
        result := ReservedForDeletion;
        return;
      }
      if !GuardMatches(run.lease, guard) {
        result := LeaseLost;
        return;
      }
      var at := clock(attempt);
      var lease := run.lease.value.(heartbeatAt := at, expiresAt := at + ttl);
      store.Interfere(rival(attempt));
      var swapped := store.CompareAndSwap(Mutating(Heartbeat, at), run.(lease := Some(lease)));
      if swapped.Swapped? {
        result := Done(guard);
        return;
      }
      if swapped.Refused? {
        result := RefusedByStore;
        return;
      }
    }
    result, replaced, now := RetriesExceeded, store.run, ZERO_TIME;
  }

  /** releaseExecutionLease: success leaves the holder's epoch released, also when it already was. */
  method ReleaseExecutionLease(store: RunStore, guard: Guard, clock: nat -> Time, rival: nat -> Option<RunRecord>)
    returns (result: LeaseResult, ghost replaced: RunRecord, ghost now: Time)
    modifies store
    ensures result.Done? ==>
              && (store.run == replaced || (replaced.lease.Some? && store.run == ReleasedAt(replaced, now)))
              && store.run.lease.Some? && store.run.lease.value.status.Released?
              && store.run.lease.value.token == guard.token && store.run.lease.value.epoch == guard.epoch
              && !GuardMatches(store.run.lease, guard)
    ensures result.LeaseLost? ==> !GuardMatches(store.run.lease, guard)
    ensures rival(0).None? && MayEnd(old(store.run), guard, clock(0)) ==> result.Done? && replaced == old(store.run)
  {
    hide StorageId, TrimSpace;
    for attempt := 0 to RETRY_LIMIT
      invariant attempt == 0 ==> store.run == old(store.run)
      invariant attempt > 0 ==> !(rival(0).None? && MayEnd(old(store.run), guard, clock(0)))
    {
      var run := store.run;
      replaced, now := run, clock(attempt);
      if run.deleting {
        result := ReservedForDeletion;
        return;
      }
      if run.lease.Some? && run.lease.value.status.Released?
         && run.lease.value.token == guard.token && run.lease.value.epoch == guard.epoch
      {
        result := Done(guard);
        return;
      }
      if !GuardMatches(run.lease, guard) {
        result := LeaseLost;
        return;
      }
      var at := clock(attempt);
      var lease := run.lease.value.(status := Released, heartbeatAt := at, expiresAt := at);
      store.Interfere(rival(attempt));
      var swapped := store.CompareAndSwap(Mutating(Release, at), run.(lease := Some(lease)));
      if swapped.Swapped? {
        result := Done(guard);
        return;
      }
      if swapped.Refused? {
        result := RefusedByStore;
        return;
      }
    }
    result, replaced, now := RetriesExceeded, store.run, ZERO_TIME;
  }

  /** Only the lease ends, at this moment. */
  ghost function ReleasedAt(run: RunRecord, now: Time): RunRecord
    requires run.lease.Some?
  {
    run.(revision := run.revision + 1, lease := Some(run.lease.value.(status := Released, heartbeatAt := now, expiresAt := now)))
  }
}
