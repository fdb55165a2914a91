/** Execution leases: the validators every write of a run's lease has to pass, and what follows
    for any history of accepted writes. */
module Lease {
  import opened Common
  import opened Text

  type Time = int

  /** The zero time, which a stored lease must not carry. */
  const ZERO_TIME: Time := 0

  /** Epochs are unsigned 64-bit counters. */
  const EPOCHS: nat := 0x1_0000_0000_0000_0000

  /** Incrementing wraps around to zero. */
  function NextEpoch(e: nat): nat {
    if e + 1 == EPOCHS then 0 else e + 1
  }

  datatype LeaseStatus = Active | Released

  datatype ExecutionLease = ExecutionLease(
    owner: string, token: string, epoch: nat, status: LeaseStatus, acquiredAt: Time, heartbeatAt: Time, expiresAt: Time)

  /** The lease field of one run. */
  type LeaseField = Option<ExecutionLease>

  /** What a holder presents with its writes. The run id is left out: everything here is about one run. */
  datatype Guard = Guard(token: string, epoch: nat)

  /** A portable record id. */
  predicate StorageId(s: string) {
    && s != "" && s != "." && s != ".." && |s| <= 200
    && forall i | 0 <= i < |s| ::
         || 'a' <= s[i] <= 'z' || 'A' <= s[i] <= 'Z' || '0' <= s[i] <= '9'
         || s[i] == '-' || s[i] == '_' || s[i] == '.'
  }

  /** An id has one to two hundred letters, digits, dashes, underscores and dots, and is not a dot or two. */
  lemma StorageIdIs(s: string)
    ensures |s| > 200 || s == "" || s == "." || s == ".." ==> !StorageId(s)
    ensures 0 < |s| <= 200 && (forall i :: 0 <= i < |s| ==> IsWordChar(s[i])) ==> StorageId(s)
    ensures forall i :: 0 <= i < |s| && !IsWordChar(s[i]) && s[i] != '.' ==> !StorageId(s)
  {
    assert "."[0] == '.' && ".."[0] == '.';
  }

  predicate IsWordChar(c: char) {
    'a' <= c <= 'z' || 'A' <= c <= 'Z' || '0' <= c <= '9' || c == '-' || c == '_'
  }

  /** validateExecutionLease */
  predicate ValidLease(field: LeaseField) {
    match field
    case None => true
    case Some(l) =>
      && StorageId(TrimSpace(l.owner)) && StorageId(TrimSpace(l.token))
      && 0 < l.epoch < EPOCHS
      && l.acquiredAt != ZERO_TIME && l.heartbeatAt != ZERO_TIME && l.expiresAt != ZERO_TIME
      && l.acquiredAt <= l.heartbeatAt
      && (l.status.Active? ==> l.heartbeatAt < l.expiresAt)
  }

  /** validateExecutionLeaseGuard */
  predicate GuardMatches(field: LeaseField, guard: Guard) {
    && StorageId(guard.token) && guard.epoch != 0
    && field.Some? && field.value.status.Active?
    && field.value.token == guard.token && field.value.epoch == guard.epoch
  }

  predicate HeldAt(field: LeaseField, now: Time) {
    field.Some? && field.value.status.Active? && field.value.expiresAt > now
  }

  datatype MutationKind = Acquire | Heartbeat | Release

  /** How a write of the run record announces itself. */
  datatype WriteContext =
    | Ordinary(guard: Option<Guard>)
    | Deleting
    | Mutating(kind: MutationKind, now: Time)

  predicate SameHolder(a: ExecutionLease, b: ExecutionLease) {
    a.owner == b.owner && a.token == b.token && a.epoch == b.epoch && a.acquiredAt == b.acquiredAt
  }

  /** validateExecutionLeaseMutation */
  predicate MutationAccepted(previous: LeaseField, next: LeaseField, kind: MutationKind, now: Time) {
    match kind
    case Acquire =>
      && next.Some? && next.value.status.Active?
      && (match previous
          case None => next.value.epoch == 1
          case Some(p) =>
            && !HeldAt(previous, now)
            && next.value.epoch == NextEpoch(p.epoch)
            && next.value.token != p.token)
    case Heartbeat =>
      && previous.Some? && next.Some? && previous.value.status.Active? && next.value.status.Active?
      && SameHolder(previous.value, next.value)
      && previous.value.heartbeatAt <= next.value.heartbeatAt && previous.value.expiresAt <= next.value.expiresAt
    case Release =>
      && previous.Some? && next.Some? && previous.value.status.Active? && next.value.status.Released?
      && SameHolder(previous.value, next.value)
  }

  /** validateRunExecutionLeaseTransition, the check behind every compare-and-swap of a run. */
  predicate TransitionAccepted(ctx: WriteContext, previous: LeaseField, next: LeaseField) {
    && ValidLease(previous) && ValidLease(next)
    && match ctx
       case Deleting => previous == next
       case Mutating(kind, now) => MutationAccepted(previous, next, kind, now)
       case Ordinary(guard) =>
         && previous == next
         && (previous.Some? && previous.value.status.Active? ==> guard.Some? && GuardMatches(previous, guard.value))
  }

  /** validateCommitExecutionLease: a runtime commit keeps the lease and, while it is active, has to
      present it. */
  predicate CommitAccepted(guard: Option<Guard>, previous: LeaseField, next: LeaseField) {
    && previous == next
    && match guard
       case Some(g) => GuardMatches(previous, g)
       case None => !(previous.Some? && previous.value.status.Active?)
  }

  // ----- what is accepted and what is refused -----

  /** A record that names no owner or token, no epoch or no times, or has its times the wrong way round, is
      not written, however the write announces itself. */
  lemma BadLeaseIsRefused(ctx: WriteContext, previous: LeaseField, l: ExecutionLease)
    requires || !StorageId(TrimSpace(l.owner)) || !StorageId(TrimSpace(l.token)) || l.epoch == 0 || l.epoch >= EPOCHS
             || l.acquiredAt == ZERO_TIME || l.heartbeatAt == ZERO_TIME || l.expiresAt == ZERO_TIME
             || l.heartbeatAt < l.acquiredAt || (l.status.Active? && l.expiresAt <= l.heartbeatAt)
    ensures !TransitionAccepted(ctx, previous, Some(l)) && !TransitionAccepted(ctx, Some(l), previous)
  {
    hide StorageId, TrimSpace;
  }

  /** Taking a lease: the next epoch and another token, over a lease that is released or has run out. */
  lemma AcquireExactly(previous: LeaseField, next: ExecutionLease, now: Time)
    requires ValidLease(previous) && ValidLease(Some(next))
    ensures TransitionAccepted(Mutating(Acquire, now), previous, Some(next))
            <==> && next.status.Active? && next.epoch == (if previous.None? then 1 else previous.value.epoch + 1)
                 && (previous.Some? ==> next.token != previous.value.token && (previous.value.status.Released? || previous.value.expiresAt <= now))
  {
    hide StorageId, TrimSpace;
  }

  /** Renewing a lease moves its times forward and changes nothing else. */
  lemma HeartbeatExactly(previous: ExecutionLease, next: ExecutionLease, now: Time)
    requires ValidLease(Some(previous)) && ValidLease(Some(next))
    ensures TransitionAccepted(Mutating(Heartbeat, now), Some(previous), Some(next))
            <==> && previous.status.Active? && next == previous.(heartbeatAt := next.heartbeatAt, expiresAt := next.expiresAt)
                 && previous.heartbeatAt <= next.heartbeatAt && previous.expiresAt <= next.expiresAt
  {
    hide StorageId, TrimSpace;
  }

  /** Releasing a lease ends it and keeps whose it was. */
  lemma ReleaseExactly(previous: ExecutionLease, next: ExecutionLease, now: Time)
    requires ValidLease(Some(previous)) && ValidLease(Some(next))
    ensures TransitionAccepted(Mutating(Release, now), Some(previous), Some(next))
            <==> && previous.status.Active?
                 && next == previous.(status := Released, heartbeatAt := next.heartbeatAt, expiresAt := next.expiresAt)
  {
    hide StorageId, TrimSpace;
  }

  /** A lease can only be renewed or released if there is one, and never taken away. */
  lemma NoLeaseNoMutation(field: LeaseField, kind: MutationKind, now: Time)
    ensures !TransitionAccepted(Mutating(kind, now), field, None)
    ensures !kind.Acquire? ==> !TransitionAccepted(Mutating(kind, now), None, field)
  {
    hide StorageId, TrimSpace;
  }

  /** Every other write leaves the lease alone, and presents its token and epoch while it is active. */
  lemma OtherWritesExactly(guard: Option<Guard>, previous: LeaseField, next: LeaseField)
    requires ValidLease(previous) && ValidLease(next)
    ensures TransitionAccepted(Deleting, previous, next) <==> next == previous
    ensures TransitionAccepted(Ordinary(guard), previous, next)
            <==> && next == previous
                 && (previous.Some? && previous.value.status.Active? ==>
                       && guard == Some(Guard(previous.value.token, previous.value.epoch)) && StorageId(previous.value.token))
    ensures CommitAccepted(guard, previous, next)
            <==> && next == previous
                 && (if previous.Some? && previous.value.status.Active?
                     then guard == Some(Guard(previous.value.token, previous.value.epoch)) && StorageId(previous.value.token)
                     else guard.None?)
  {
    hide StorageId, TrimSpace;
  }

  // ----- histories -----

  datatype Entry = RunWrite(ctx: WriteContext) | RuntimeCommit(guard: Option<Guard>)

  predicate Accepted(e: Entry, previous: LeaseField, next: LeaseField) {
    match e
    case RunWrite(ctx) => TransitionAccepted(ctx, previous, next)
    case RuntimeCommit(guard) => CommitAccepted(guard, previous, next)
  }

  /** The lease field after each accepted write, oldest first. */
  ghost predicate IsHistory(fields: seq<LeaseField>, entries: seq<Entry>) {
    && |fields| == |entries| + 1
    && ValidLease(fields[0])
    && forall i, j :: 0 <= i && j == i + 1 && j < |fields| ==> Accepted(entries[i], fields[i], fields[j])
  }

  function Epoch(field: LeaseField): nat {
    match field
    case None => 0
    case Some(l) => l.epoch
  }

  /** How one accepted write can move the lease: to a later epoch, or within an epoch from active to
      released, never back. The counter cannot wrap, because epoch zero is not a valid lease. */
  ghost predicate MovesForward(a: LeaseField, b: LeaseField) {
    || Epoch(a) < Epoch(b)
    || (a.None? && b.None?)
    || (a.Some? && b.Some? && a.value.epoch == b.value.epoch && a.value.token == b.value.token
        && (a.value.status.Released? ==> b.value.status.Released?))
  }

  lemma StepMovesForward(e: Entry, a: LeaseField, b: LeaseField)
    requires ValidLease(a) && Accepted(e, a, b)
    ensures ValidLease(b) && MovesForward(a, b)
  {
    hide StorageId, TrimSpace;
  }

  lemma {:induction false} HistoryMovesForward(fields: seq<LeaseField>, entries: seq<Entry>, i: nat, j: nat)
    requires IsHistory(fields, entries) && i <= j < |fields|
    ensures ValidLease(fields[j]) && MovesForward(fields[i], fields[j])
    decreases j
  {
    hide StorageId, Accepted, ValidLease;
    if j == 0 {
    } else if i == j {
      HistoryMovesForward(fields, entries, j - 1, j - 1);
      StepMovesForward(entries[j - 1], fields[j - 1], fields[j]);
    } else {
      HistoryMovesForward(fields, entries, i, j - 1);
      StepMovesForward(entries[j - 1], fields[j - 1], fields[j]);
    }
  }

  /** The epoch never decreases. */
  lemma EpochNeverDecreases(fields: seq<LeaseField>, entries: seq<Entry>, i: nat, j: nat)
    requires IsHistory(fields, entries) && i <= j < |fields|
    ensures Epoch(fields[i]) <= Epoch(fields[j])
  {
    HistoryMovesForward(fields, entries, i, j);
  }

  /** A guard that has matched and stopped matching never matches again. */
  lemma GuardNeverReturns(fields: seq<LeaseField>, entries: seq<Entry>, i: nat, j: nat, k: nat, guard: Guard)
    requires IsHistory(fields, entries) && i <= j <= k < |fields|
    requires GuardMatches(fields[i], guard) && !GuardMatches(fields[j], guard)
    ensures !GuardMatches(fields[k], guard)
  {
    hide StorageId, IsHistory, ValidLease;
    HistoryMovesForward(fields, entries, i, j);
    HistoryMovesForward(fields, entries, j, k);
  }

  /** The guard of a guarded write: a commit, or an ordinary write of a run whose lease is active. */
  function GuardOf(e: Entry): Option<Guard> {
    match e
    case RuntimeCommit(g) => g
    case RunWrite(Ordinary(g)) => g
    case RunWrite(_) => None
  }

  /** Guarded commits of different holders never interleave: a later commit has a later epoch, or
      the same epoch and then the very same guard. */
  lemma GuardedCommitsInEpochOrder(fields: seq<LeaseField>, entries: seq<Entry>, i: nat, j: nat)
    requires IsHistory(fields, entries) && i <= j < |entries|
    requires entries[i].RuntimeCommit? && entries[i].guard.Some?
    requires entries[j].RuntimeCommit? && entries[j].guard.Some?
    ensures var a, b := entries[i].guard.value, entries[j].guard.value;
            a.epoch < b.epoch || a == b
  {
    HistoryMovesForward(fields, entries, i, j);
    assert Accepted(entries[i], fields[i], fields[i + 1]);
    assert Accepted(entries[j], fields[j], fields[j + 1]);
  }

  /** While a lease is active only its holder writes: an accepted write that is not a lease mutation
      or a deletion carries the stored token and epoch. */
  lemma ActiveLeaseFencesWrites(fields: seq<LeaseField>, entries: seq<Entry>, i: nat)
    requires IsHistory(fields, entries) && i < |entries|
    requires fields[i].Some? && fields[i].value.status.Active?
    requires entries[i].RunWrite? ==> entries[i].ctx.Ordinary?
    ensures GuardOf(entries[i]) == Some(Guard(fields[i].value.token, fields[i].value.epoch))
    ensures fields[i + 1] == fields[i]
  {
    assert Accepted(entries[i], fields[i], fields[i + 1]);
  }
}
