/** Child runs: a parent reserves a child, the child is created under the reservation, and the
    reservation becomes a link. Any of it may be repeated, race or stop half-way. */
module ChildRuns {
  import opened Common
  import opened Text
  import opened Lease
  import opened Runs

  /** What identifies the work of a child besides its request key. */
  datatype Identity = Identity(
    stepId: string, taskId: string, graphId: string, graphVersion: string, graphHash: string,
    snapshotHash: string, sessionId: string, namespace: string, inputHash: string)

  /** PendingChildRun */
  datatype Reservation = Reservation(key: string, childId: string, parentId: string, graphRef: string, identity: Identity)

  datatype Parent = Parent(
    runId: string, status: RunStatus, deleting: bool, children: seq<string>, pending: seq<Reservation>)

  /** The stored run of a child. */
  datatype ChildRecord = ChildRecord(runId: string, key: string, parentId: string, identity: Identity)

  function ChildRunId(key: string): string {
    "child-" + key
  }

  predicate Blank(s: string) {
    TrimSpace(s) == ""
  }

  /** validatePendingChildRun */
  predicate ValidReservation(r: Reservation) {
    && r.key != "" && TrimSpace(r.key) == r.key
    && StorageId(r.childId) && r.childId == ChildRunId(r.key)
    && !Blank(r.parentId) && !Blank(r.graphRef)
    && !Blank(r.identity.stepId) && !Blank(r.identity.taskId) && !Blank(r.identity.graphId)
    && !Blank(r.identity.graphVersion) && !Blank(r.identity.namespace) && !Blank(r.identity.inputHash)
  }

  /** validateMatchingPendingChildRun: the step may differ, since a retried task runs in a new step. */
  predicate SameRequest(existing: Reservation, proposed: Reservation) {
    && existing.childId == proposed.childId && existing.parentId == proposed.parentId
    && existing.graphRef == proposed.graphRef
    && existing.identity == proposed.identity.(stepId := existing.identity.stepId)
    && ValidReservation(existing)
  }

  /** validateReservedChildRun */
  predicate RecordMatches(record: ChildRecord, r: Reservation) {
    && record.runId == ChildRunId(record.key)
    && record == ChildRecord(r.childId, r.key, r.parentId, r.identity)
  }

  predicate DistinctKeys(pending: seq<Reservation>) {
    forall i, j :: 0 <= i < j < |pending| ==> pending[i].key != pending[j].key
  }

  predicate Reserved(pending: seq<Reservation>, id: string) {
    exists i :: 0 <= i < |pending| && pending[i].childId == id
  }

  /** validateRunChildState, which every stored parent passes. */
  predicate ChildState(parent: Parent) {
    && Distinct(parent.children)
    && (forall i :: 0 <= i < |parent.children| ==> StorageId(parent.children[i]))
    && DistinctKeys(parent.pending)
    && (forall i :: 0 <= i < |parent.pending| ==>
          && ValidReservation(parent.pending[i])
          && parent.pending[i].parentId == parent.runId
          && parent.pending[i].childId !in parent.children)
  }

  // ----- reserving -----

  function WithKey(pending: seq<Reservation>, key: string): seq<Reservation> {
    if pending == [] then []
    else
      var last := pending[|pending| - 1];
      WithKey(pending[..|pending| - 1], key) + if last.key == key then [last] else []
  }

  function WithoutKey(pending: seq<Reservation>, key: string): seq<Reservation> {
    if pending == [] then []
    else
      var last := pending[|pending| - 1];
      WithoutKey(pending[..|pending| - 1], key) + if last.key == key then [] else [last]
  }

  lemma {:induction false} WithKeyIs(pending: seq<Reservation>, key: string)
    ensures forall r :: r in WithKey(pending, key) <==> r in pending && r.key == key
  {
    if pending != [] {
      WithKeyIs(pending[..|pending| - 1], key);
      assert pending == pending[..|pending| - 1] + [pending[|pending| - 1]];
    }
  }

  lemma {:induction false} WithoutKeyIs(pending: seq<Reservation>, key: string)
    ensures forall r :: r in WithoutKey(pending, key) <==> r in pending && r.key != key
  {
    if pending != [] {
      WithoutKeyIs(pending[..|pending| - 1], key);
      assert pending == pending[..|pending| - 1] + [pending[|pending| - 1]];
    }
  }

  lemma {:induction false} WithoutKeyKeepsDistinct(pending: seq<Reservation>, key: string)
    requires DistinctKeys(pending)
    ensures DistinctKeys(WithoutKey(pending, key))
  {
    if pending != [] {
      var front, last := pending[..|pending| - 1], pending[|pending| - 1];
      WithoutKeyKeepsDistinct(front, key);
      WithoutKeyIs(front, key);
      forall r | r in WithoutKey(front, key) ensures r.key != last.key {
        assert r in front;
      }
    }
  }

  /** Without an outcome the call failed and the parent stays as it was. */
  datatype ReserveOutcome = ReserveOutcome(parent: Parent, reservation: Reservation, changed: bool)

  predicate MayReserve(parent: Parent, proposed: Reservation) {
    && ValidReservation(proposed)
    && parent.runId == proposed.parentId
    && (parent.status.IsActive() || parent.status.Paused?)
    && !parent.deleting
    && Distinct(parent.children)
  }

  function Reserve(parent: Parent, proposed: Reservation): Option<ReserveOutcome> {
    var found := WithKey(parent.pending, proposed.key);
    var linked := proposed.childId in parent.children;
    if !MayReserve(parent, proposed) || |found| > 1 then None
    else if |found| == 1 then
      if !SameRequest(found[0], proposed) || linked then None
      else Some(ReserveOutcome(parent, found[0], false))
    else if linked then Some(ReserveOutcome(parent, proposed, false))
    else Some(ReserveOutcome(parent.(pending := parent.pending + [proposed]), proposed, true))
  }

  method CheckDistinct(ids: seq<string>) returns (ok: bool, seen: set<string>)
    ensures ok <==> Distinct(ids)
    ensures ok ==> forall id :: id in seen <==> id in ids
  {
    seen := {};
    for i := 0 to |ids|
      invariant Distinct(ids[..i])
      invariant forall id :: id in seen <==> id in ids[..i]
    {
      assert ids[..i + 1] == ids[..i] + [ids[i]];
      if ids[i] in seen {
        return false, seen;
      }
      seen := seen + {ids[i]};
    }
    assert ids[..|ids|] == ids;
    ok := true;
  }

  method PendingChildRunByKey(pending: seq<Reservation>, key: string) returns (matched: Option<Reservation>, count: nat)
    ensures count == |WithKey(pending, key)|
    ensures matched == if count == 0 then None else Some(WithKey(pending, key)[count - 1])
  {
    matched, count := None, 0;
    for i := 0 to |pending|
      invariant count == |WithKey(pending[..i], key)|
      invariant matched == if count == 0 then None else Some(WithKey(pending[..i], key)[count - 1])
    {
      assert pending[..i + 1][..i] == pending[..i];
      if pending[i].key == key {
        matched, count := Some(pending[i]), count + 1;
      }
    }
    assert pending[..|pending|] == pending;
  }

  method ReservePendingChildRun(parent: Parent, proposed: Reservation) returns (outcome: Option<ReserveOutcome>)
    ensures outcome == Reserve(parent, proposed)
  {
    hide ValidReservation, SameRequest, StorageId, TrimSpace, WithKey, Distinct;
    if !ValidReservation(proposed) || parent.runId != proposed.parentId
       || (!parent.status.IsActive() && !parent.status.Paused?) || parent.deleting {
      return None;
    }
    var ok, seen := CheckDistinct(parent.children);
    if !ok {
      return None;
    }
    var matched, count := PendingChildRunByKey(parent.pending, proposed.key);
    if count > 1 {
      return None;
    }
    if matched.Some? {
      if !SameRequest(matched.value, proposed) || proposed.childId in seen {
        return None;
      }
      return Some(ReserveOutcome(parent, matched.value, false));
    }
    if proposed.childId in seen {
      return Some(ReserveOutcome(parent, proposed, false));
    }
    return Some(ReserveOutcome(parent.(pending := parent.pending + [proposed]), proposed, true));
  }

  // ----- linking -----

  datatype LinkOutcome = LinkOutcome(parent: Parent, changed: bool)

  function Finalize(parent: Parent, requestKey: string, childRunId: string): Option<LinkOutcome> {
    var key, id := TrimSpace(requestKey), TrimSpace(childRunId);
    var found := WithKey(parent.pending, key);
    if key == "" || !StorageId(id) || !DistinctKeys(parent.pending) || !Distinct(parent.children) then None
    else if found == [] then
      if id in parent.children then Some(LinkOutcome(parent, false)) else None
    else if found[0].childId != id || !ValidReservation(found[0]) || found[0].parentId != parent.runId then None
    else Some(LinkOutcome(
                parent.(pending := WithoutKey(parent.pending, key),
                        children := if id in parent.children then parent.children else parent.children + [id]), true))
  }

  /** The keys of the first `i` reservations. */
  ghost predicate KeysUpTo(pending: seq<Reservation>, i: nat, keys: set<string>)
    requires i <= |pending|
  {
    forall k :: k in keys <==> exists j :: 0 <= j < i && pending[j].key == k
  }

  lemma OneMoreKey(pending: seq<Reservation>, i: nat, keys: set<string>)
    requires i < |pending| && KeysUpTo(pending, i, keys)
    ensures KeysUpTo(pending, i + 1, keys + {pending[i].key})
    ensures DistinctKeys(pending[..i]) && pending[i].key !in keys ==> DistinctKeys(pending[..i + 1])
    ensures pending[i].key in keys ==> !DistinctKeys(pending)
  {
  }

  lemma {:induction false} AbsentKeyNoMatch(pending: seq<Reservation>, key: string)
    requires forall j :: 0 <= j < |pending| ==> pending[j].key != key
    ensures WithKey(pending, key) == []
  {
    if pending != [] {
      AbsentKeyNoMatch(pending[..|pending| - 1], key);
    }
  }

  lemma OneMoreReservation(pending: seq<Reservation>, i: nat, key: string)
    requires i < |pending|
    ensures var last := if pending[i].key == key then [pending[i]] else [];
            WithKey(pending[..i + 1], key) == WithKey(pending[..i], key) + last
    ensures var last := if pending[i].key == key then [] else [pending[i]];
            WithoutKey(pending[..i + 1], key) == WithoutKey(pending[..i], key) + last
  {
    assert pending[..i + 1][..i] == pending[..i];
  }

  /** The first loop of the finalizer: take the reservation out, refuse repeated keys. */
  method TakeReservation(pending: seq<Reservation>, key: string)
    returns (ok: bool, matched: Option<Reservation>, rest: seq<Reservation>)
    ensures ok <==> DistinctKeys(pending)
    ensures ok ==> rest == WithoutKey(pending, key)
    ensures ok ==> WithKey(pending, key) == if matched.Some? then [matched.value] else []
  {
    var keys: set<string> := {};
    matched, rest := None, [];
    assert KeysUpTo(pending, 0, keys) && DistinctKeys(pending[..0]);
    assert rest == WithoutKey(pending[..0], key) && WithKey(pending[..0], key) == [];
    hide DistinctKeys, WithKey, WithoutKey;
    for i := 0 to |pending|
      invariant DistinctKeys(pending[..i]) && KeysUpTo(pending, i, keys)
      invariant rest == WithoutKey(pending[..i], key)
      invariant WithKey(pending[..i], key) == if matched.Some? then [matched.value] else []
    {
      OneMoreKey(pending, i, keys);
      OneMoreReservation(pending, i, key);
      if pending[i].key in keys {
        return false, matched, rest;
      }
      if pending[i].key == key {
        AbsentKeyNoMatch(pending[..i], key);
        matched := Some(pending[i]);
      } else {
        rest := rest + [pending[i]];
      }
      keys := keys + {pending[i].key};
    }
    assert pending[..|pending|] == pending;
    ok := true;
  }

  method FinalizePendingChildRun(parent: Parent, requestKey: string, childRunId: string) returns (outcome: Option<LinkOutcome>)
    ensures outcome == Finalize(parent, requestKey, childRunId)
  {
    hide ValidReservation, StorageId, TrimSpace, WithKey, WithoutKey, Distinct, DistinctKeys;
    var key, id := TrimSpace(requestKey), TrimSpace(childRunId);
    if key == "" || !StorageId(id) {
      return None;
    }
    var distinct, matched, rest := TakeReservation(parent.pending, key);
    if !distinct {
      return None;
    }
    if matched.Some? && (matched.value.childId != id || !ValidReservation(matched.value) || matched.value.parentId != parent.runId) {
      return None;
    }
    var ok, seen := CheckDistinct(parent.children);
    if !ok {
      return None;
    }
    if matched.None? {
      return if id in seen then Some(LinkOutcome(parent, false)) else None;
    }
    return Some(LinkOutcome(
                  parent.(pending := rest, children := if id in seen then parent.children else parent.children + [id]), true));
  }

  // ----- what the two operations keep -----

  lemma NoMatchNoKey(pending: seq<Reservation>, key: string)
    requires WithKey(pending, key) == []
    ensures forall i :: 0 <= i < |pending| ==> pending[i].key != key
  {
    WithKeyIs(pending, key);
    forall i | 0 <= i < |pending| ensures pending[i].key != key {
      var r := pending[i];
      assert r !in WithKey(pending, key);
    }
  }

  lemma ReserveKeepsChildState(parent: Parent, proposed: Reservation)
    requires ChildState(parent) && Reserve(parent, proposed).Some?
    ensures ChildState(Reserve(parent, proposed).value.parent)
  {
    hide SameRequest, StorageId, WithKey, Blank, TrimSpace;
    if WithKey(parent.pending, proposed.key) == [] {
      NoMatchNoKey(parent.pending, proposed.key);
    }
  }

  lemma OtherKeyOtherChild(a: string, b: string)
    requires a != b
    ensures ChildRunId(a) != ChildRunId(b)
  {
    assert ChildRunId(a)[6..] == a && ChildRunId(b)[6..] == b;
  }

  lemma FinalizeKeepsChildState(parent: Parent, key: string, id: string)
    requires ChildState(parent) && Finalize(parent, key, id).Some?
    ensures ChildState(Finalize(parent, key, id).value.parent)
    ensures TrimSpace(id) in Finalize(parent, key, id).value.parent.children
  {
    hide StorageId, WithKey, WithoutKey, Blank, TrimSpace, DistinctKeys;
    var k, after := TrimSpace(key), Finalize(parent, key, id).value.parent;
    WithKeyIs(parent.pending, k);
    WithoutKeyIs(parent.pending, k);
    WithoutKeyKeepsDistinct(parent.pending, k);
    var found := WithKey(parent.pending, k);
    if found != [] {
      assert found[0] in found;
      forall i | 0 <= i < |after.pending|
        ensures ValidReservation(after.pending[i]) && after.pending[i].parentId == parent.runId
        ensures after.pending[i].childId !in after.children
      {
        var r := after.pending[i];
        assert r in after.pending;
        OtherKeyOtherChild(r.key, k);
      }
    }
  }

  lemma {:induction false} WithoutAbsentKey(pending: seq<Reservation>, key: string)
    requires forall i :: 0 <= i < |pending| ==> pending[i].key != key
    ensures WithoutKey(pending, key) == pending
  {
    if pending != [] {
      var front := pending[..|pending| - 1];
      WithoutAbsentKey(front, key);
      assert pending == front + [pending[|pending| - 1]];
    }
  }

  /** Linking what was just reserved succeeds, whatever else is pending, and undoes the reservation. */
  lemma ReserveThenFinalize(parent: Parent, proposed: Reservation)
    requires ChildState(parent) && Reserve(parent, proposed).Some? && Reserve(parent, proposed).value.changed
    ensures var reserved := Reserve(parent, proposed).value.parent;
            Finalize(reserved, proposed.key, proposed.childId)
            == Some(LinkOutcome(parent.(children := parent.children + [proposed.childId]), true))
  {
    hide StorageId, WithKey, WithoutKey, Blank, TrimSpace, SameRequest;
    var reserved := Reserve(parent, proposed).value.parent;
    ReserveKeepsChildState(parent, proposed);
    OneMoreReservation(reserved.pending, |parent.pending|, proposed.key);
    assert reserved.pending[..|parent.pending|] == parent.pending;
    assert reserved.pending[..|parent.pending| + 1] == reserved.pending;
    NoMatchNoKey(parent.pending, proposed.key);
    WithoutAbsentKey(parent.pending, proposed.key);
    assert WithKey(reserved.pending, proposed.key) == [proposed];
    assert WithoutKey(reserved.pending, proposed.key) == parent.pending;
    assert Finalize(reserved, proposed.key, proposed.childId).Some?;
    StorageIdIsTrimmed(proposed.childId);
  }

  /** The same work: everything that identifies the child but the step, field by field. */
  predicate SameWork(a: Identity, b: Identity) {
    && a.taskId == b.taskId && a.graphId == b.graphId && a.graphVersion == b.graphVersion
    && a.graphHash == b.graphHash && a.snapshotHash == b.snapshotHash
    && a.sessionId == b.sessionId && a.namespace == b.namespace && a.inputHash == b.inputHash
  }

  predicate HasText(s: string) {
    exists i :: 0 <= i < |s| && !IsSpace(s[i])
  }

  lemma BlankHasNoText(s: string)
    ensures Blank(s) <==> !HasText(s)
  {
    hide IsSpace, TrimSpace;
    TrimSpaceTrims(s);
    var r := TrimSpace(s);
    var i: nat, j: nat :| TrimAt(r, s, i, j);
    if r != "" {
      TrimBounds(r, s, i, j);
      assert r[0] == s[i];
    }
  }

  /** A reservation that names everything it has to. */
  predicate IsComplete(r: Reservation) {
    && r.key != "" && Trimmed(r.key) && StorageId(r.childId) && r.childId == "child-" + r.key
    && HasText(r.parentId) && HasText(r.graphRef)
    && HasText(r.identity.stepId) && HasText(r.identity.taskId) && HasText(r.identity.graphId)
    && HasText(r.identity.graphVersion) && HasText(r.identity.namespace) && HasText(r.identity.inputHash)
  }

  lemma ValidIsComplete(r: Reservation)
    ensures ValidReservation(r) <==> IsComplete(r)
  {
    hide HasText, Blank, TrimSpace, StorageId;
    BlankHasNoText(r.parentId);
    BlankHasNoText(r.graphRef);
    BlankHasNoText(r.identity.stepId);
    BlankHasNoText(r.identity.taskId);
    BlankHasNoText(r.identity.graphId);
    BlankHasNoText(r.identity.graphVersion);
    BlankHasNoText(r.identity.namespace);
    BlankHasNoText(r.identity.inputHash);
  }

  /** The parent takes reservations, and this one is for it. */
  predicate TakesReservation(parent: Parent, r: Reservation) {
    && IsComplete(r) && r.parentId == parent.runId && !parent.deleting && Distinct(parent.children)
    && (parent.status.Pending? || parent.status.Running? || parent.status.Paused?)
  }

  /** The reservation at `i` is the only one under its key. */
  predicate OnlyAt(pending: seq<Reservation>, key: string, i: nat) {
    i < |pending| && pending[i].key == key && forall j :: 0 <= j < |pending| && j != i ==> pending[j].key != key
  }

  lemma {:induction false} OnlyMatch(pending: seq<Reservation>, key: string, i: nat)
    requires OnlyAt(pending, key, i)
    ensures WithKey(pending, key) == [pending[i]]
  {
    var init := pending[..|pending| - 1];
    if i == |init| {
      AbsentKeyNoMatch(init, key);
    } else {
      OnlyMatch(init, key, i);
    }
  }

  lemma {:induction false} TwoMatches(pending: seq<Reservation>, key: string, i: nat, j: nat)
    requires i < j < |pending| && pending[i].key == key && pending[j].key == key
    ensures |WithKey(pending, key)| > 1
  {
    var init := pending[..|pending| - 1];
    if j == |init| {
      WithKeyIs(init, key);
      assert init[i] in WithKey(init, key);
    } else {
      TwoMatches(init, key, i, j);
    }
  }

  /** Asking under a key nobody uses reserves the child, or finds it linked. */
  lemma ReserveUnderNewKey(parent: Parent, proposed: Reservation)
    requires forall i :: 0 <= i < |parent.pending| ==> parent.pending[i].key != proposed.key
    ensures Reserve(parent, proposed)
            == if !TakesReservation(parent, proposed) then None
               else if proposed.childId in parent.children then Some(ReserveOutcome(parent, proposed, false))
               else Some(ReserveOutcome(parent.(pending := parent.pending + [proposed]), proposed, true))
  {
    hide ValidReservation, IsComplete, WithKey, Distinct, SameRequest;
    ValidIsComplete(proposed);
    AbsentKeyNoMatch(parent.pending, proposed.key);
  }

  /** Asking under the key of a reservation hands out that one, step included, if it is for the very same
      work: if the task, the graph by reference, id, version or hash, the session, the namespace or the
      input differs, the call is refused. */
  lemma ReserveUnderUsedKey(parent: Parent, proposed: Reservation, i: nat)
    requires OnlyAt(parent.pending, proposed.key, i)
    ensures var r := parent.pending[i];
            Reserve(parent, proposed)
            == if && TakesReservation(parent, proposed) && proposed.childId !in parent.children && IsComplete(r)
                  && r.parentId == proposed.parentId && r.graphRef == proposed.graphRef && SameWork(r.identity, proposed.identity)
               then Some(ReserveOutcome(parent, r, false)) else None
  {
    hide ValidReservation, IsComplete, WithKey, Distinct;
    var r := parent.pending[i];
    ValidIsComplete(proposed);
    ValidIsComplete(r);
    OnlyMatch(parent.pending, proposed.key, i);
    SameRequestIs(r, proposed);
    CompleteNamesChild(r);
    CompleteNamesChild(proposed);
  }

  lemma CompleteNamesChild(r: Reservation)
    ensures IsComplete(r) ==> r.childId == "child-" + r.key
  {
  }

  lemma SameRequestIs(r: Reservation, proposed: Reservation)
    ensures SameRequest(r, proposed)
            <==> && ValidReservation(r) && r.childId == proposed.childId && r.parentId == proposed.parentId
                 && r.graphRef == proposed.graphRef && SameWork(r.identity, proposed.identity)
  {
    hide ValidReservation;
  }

  /** Two reservations under one key, which no stored parent has, are refused. */
  lemma ReserveUnderRepeatedKey(parent: Parent, proposed: Reservation, i: nat, j: nat)
    requires i < j < |parent.pending| && parent.pending[i].key == parent.pending[j].key == proposed.key
    ensures Reserve(parent, proposed) == None
  {
    TwoMatches(parent.pending, proposed.key, i, j);
  }

  /** So asking again after a reservation gives that reservation for the same work, and is refused otherwise. */
  lemma RepeatedReserve(parent: Parent, first: Reservation, again: Reservation)
    requires ChildState(parent) && Reserve(parent, first).Some? && Reserve(parent, first).value.changed
    requires again.key == first.key
    ensures var reserved := Reserve(parent, first).value.parent;
            Reserve(reserved, again)
            == if TakesReservation(reserved, again) && again.graphRef == first.graphRef && SameWork(first.identity, again.identity)
               then Some(ReserveOutcome(reserved, first, false)) else None
  {
    hide StorageId, WithKey, Blank, TrimSpace, SameRequest, IsComplete, ValidReservation;
    var reserved := Reserve(parent, first).value.parent;
    NoMatchNoKey(parent.pending, first.key);
    assert OnlyAt(reserved.pending, again.key, |parent.pending|);
    ReserveUnderUsedKey(reserved, again, |parent.pending|);
    ValidIsComplete(first);
    CompleteNamesChild(first);
    CompleteNamesChild(again);
  }

  lemma StorageIdIsTrimmed(id: string)
    requires StorageId(id)
    ensures TrimSpace(id) == id
  {
  }

  // ----- the protocol -----

  /** Where a call of RunChild stands. `next` is the parent it wants to write over revision `rev`. */
  datatype Call =
    | Looking(proposed: Reservation)
    | Reserving(proposed: Reservation)
    | ReserveRead(proposed: Reservation, next: Parent, rev: nat)
    | Creating(proposed: Reservation, reservation: Reservation)
    | Linking(proposed: Reservation)
    | LinkRead(proposed: Reservation, next: Parent, rev: nat)
    | Linked(proposed: Reservation)

  /** One parent, the stored child runs and the calls in flight, in any number of processes.
      `created` lists every child run ever created. */
  datatype System = System(
    parent: Parent, revision: nat, records: map<string, ChildRecord>, calls: map<nat, Call>, created: seq<string>)

  datatype Step =
    | Begin(c: nat, proposed: Reservation)
    | Look(c: nat)
    | ReadToReserve(c: nat)
    | CommitReserve(c: nat, acknowledged: bool)
    | Create(c: nat)
    | Adopt(c: nat)
    | ReadToLink(c: nat)
    | CommitLink(c: nat, acknowledged: bool)
    | Retry(c: nat)
    | Stop(c: nat)
    | OtherParentWrite(status: RunStatus, deleting: bool)

  function RecordOf(r: Reservation): ChildRecord {
    ChildRecord(r.childId, r.key, r.parentId, r.identity)
  }

  /** validateNewRunParent and the store's refusal to create an id twice. */
  predicate MayCreate(s: System, record: ChildRecord) {
    && record.runId !in s.records
    && !s.parent.deleting && s.parent.runId == record.parentId
    && exists i :: 0 <= i < |s.parent.pending| && s.parent.pending[i].childId == record.runId
                   && RecordMatches(record, s.parent.pending[i])
  }

  /** An existing child found under the request's id must be the same work, started in any step. */
  predicate MayResume(record: ChildRecord, proposed: Reservation) {
    && record.key == proposed.key && record.parentId == proposed.parentId
    && !Blank(record.identity.stepId)
    && RecordMatches(record, proposed.(identity := proposed.identity.(stepId := record.identity.stepId)))
  }

  predicate Enabled(s: System, step: Step) {
    match step
    case Begin(c, proposed) => c !in s.calls && proposed.childId == ChildRunId(proposed.key)
    case Look(c) =>
      && c in s.calls && s.calls[c].Looking?
      && var p := s.calls[c].proposed;
         p.childId in s.records ==> MayResume(s.records[p.childId], p)
    case ReadToReserve(c) => c in s.calls && s.calls[c].Reserving? && Reserve(s.parent, s.calls[c].proposed).Some?
    case CommitReserve(c, _) => c in s.calls && s.calls[c].ReserveRead? && s.calls[c].rev == s.revision
    case Create(c) => c in s.calls && s.calls[c].Creating? && MayCreate(s, RecordOf(s.calls[c].reservation))
    case Adopt(c) =>
      && c in s.calls && s.calls[c].Creating?
      && var r := s.calls[c].reservation;
         r.childId in s.records && RecordMatches(s.records[r.childId], r)
    case ReadToLink(c) =>
      && c in s.calls && s.calls[c].Linking?
      && Finalize(s.parent, s.calls[c].proposed.key, s.calls[c].proposed.childId).Some?
    case CommitLink(c, _) => c in s.calls && s.calls[c].LinkRead? && s.calls[c].rev == s.revision
    case Retry(c) => c in s.calls && (s.calls[c].ReserveRead? || s.calls[c].LinkRead?)
    case Stop(c) => c in s.calls
    case OtherParentWrite(_, _) => true
  }

  function Goto(s: System, c: nat, call: Call): System {
    s.(calls := s.calls[c := call])
  }

  /** A commit whose answer is lost ends the call although it took effect. */
  function Answered(s: System, c: nat, call: Call, acknowledged: bool): System {
    if acknowledged then Goto(s, c, call) else s.(calls := s.calls - {c})
  }

  function Apply(s: System, step: Step): System
    requires Enabled(s, step)
  {
    match step
    case Begin(c, proposed) => Goto(s, c, Looking(proposed))
    case Look(c) =>
      var p := s.calls[c].proposed;
      Goto(s, c, if p.childId in s.records then Linking(p) else Reserving(p))
    case ReadToReserve(c) =>
      var p := s.calls[c].proposed;
      var outcome := Reserve(s.parent, p).value;
      Goto(s, c, if outcome.changed then ReserveRead(p, outcome.parent, s.revision) else Creating(p, outcome.reservation))
    case CommitReserve(c, acknowledged) =>
      var call := s.calls[c];
      Answered(s.(parent := call.next, revision := s.revision + 1), c, Creating(call.proposed, call.proposed), acknowledged)
    case Create(c) =>
      var r := s.calls[c].reservation;
      s.(records := s.records[r.childId := RecordOf(r)], created := s.created + [r.childId])
    case Adopt(c) =>
      Goto(s, c, Linking(s.calls[c].proposed))
    case ReadToLink(c) =>
      var p := s.calls[c].proposed;
      var outcome := Finalize(s.parent, p.key, p.childId).value;
      Goto(s, c, if outcome.changed then LinkRead(p, outcome.parent, s.revision) else Linked(p))
    case CommitLink(c, acknowledged) =>
      var call := s.calls[c];
      Answered(s.(parent := call.next, revision := s.revision + 1), c, Linked(call.proposed), acknowledged)
    case Retry(c) =>
      var call := s.calls[c];
      Goto(s, c, if call.ReserveRead? then Reserving(call.proposed) else Linking(call.proposed))
    case Stop(c) => s.(calls := s.calls - {c})
    case OtherParentWrite(status, deleting) =>
      s.(parent := s.parent.(status := status, deleting := deleting), revision := s.revision + 1)
  }

  // ----- the invariant -----

  /** Every child run is reserved or linked, every link leads to a child run, and no child run was
      created twice. */
  ghost predicate StoreInv(s: System) {
    && ChildState(s.parent)
    && (forall id :: id in s.records ==> s.records[id].runId == id && (id in s.parent.children || Reserved(s.parent.pending, id)))
    && (forall i :: 0 <= i < |s.parent.children| ==> s.parent.children[i] in s.records)
    && Distinct(s.created)
    && (forall i :: 0 <= i < |s.created| ==> s.created[i] in s.records)
  }

  ghost predicate IsReserve(before: Parent, proposed: Reservation, after: Parent) {
    && Reserve(before, proposed).Some?
    && Reserve(before, proposed).value == ReserveOutcome(after, proposed, true)
  }

  ghost predicate IsLink(before: Parent, key: string, id: string, after: Parent) {
    && Finalize(before, key, id).Some?
    && Finalize(before, key, id).value == LinkOutcome(after, true)
  }

  /** The child stored under the request's id is the work that was asked for, started in any step. */
  ghost predicate IsAskedFor(s: System, p: Reservation) {
    && p.childId in s.records && p.childId == ChildRunId(p.key)
    && s.records[p.childId].parentId == p.parentId && SameWork(s.records[p.childId].identity, p.identity)
  }

  ghost predicate CallInv(s: System, call: Call) {
    match call
    case Looking(p) => p.childId == ChildRunId(p.key)
    case Reserving(p) => p.childId == ChildRunId(p.key)
    case ReserveRead(p, next, rev) =>
      p.childId == ChildRunId(p.key) && rev <= s.revision && (rev == s.revision ==> IsReserve(s.parent, p, next))
    case Creating(p, r) =>
      && ValidReservation(r) && r.key == p.key && r.childId == p.childId && r.parentId == p.parentId
      && SameWork(r.identity, p.identity)
    case Linking(p) => IsAskedFor(s, p)
    case LinkRead(p, next, rev) =>
      IsAskedFor(s, p) && rev <= s.revision && (rev == s.revision ==> IsLink(s.parent, p.key, p.childId, next))
    case Linked(p) => IsAskedFor(s, p) && p.childId in s.parent.children
  }

  ghost predicate Inv(s: System) {
    && StoreInv(s)
    && forall c :: c in s.calls ==> CallInv(s, s.calls[c])
  }

  lemma ReservedGrows(pending: seq<Reservation>, r: Reservation, id: string)
    requires Reserved(pending, id)
    ensures Reserved(pending + [r], id)
  {
    var i :| 0 <= i < |pending| && pending[i].childId == id;
    assert (pending + [r])[i].childId == id;
  }

  lemma ReservingKeepsStore(s: System, p: Reservation, next: Parent)
    requires StoreInv(s) && IsReserve(s.parent, p, next)
    ensures StoreInv(s.(parent := next))
    ensures next.children == s.parent.children
  {
    hide ChildState, MayReserve, WithKey, SameRequest, Reserved, Distinct;
    ReserveKeepsChildState(s.parent, p);
    forall id | Reserved(s.parent.pending, id) ensures Reserved(next.pending, id) {
      ReservedGrows(s.parent.pending, p, id);
    }
  }

  lemma RecordIdIsPortable(s: System, id: string)
    requires StoreInv(s) && id in s.records
    ensures StorageId(id)
  {
    hide StorageId, Blank, TrimSpace, DistinctKeys, Distinct;
    if id !in s.parent.children {
      assert Reserved(s.parent.pending, id);
    }
  }

  /** Taking a reservation out leaves the others. */
  lemma ReservedShrinks(parent: Parent, key: string, id: string)
    requires ChildState(parent) && Reserved(parent.pending, id) && id != ChildRunId(key)
    ensures Reserved(WithoutKey(parent.pending, key), id)
  {
    hide StorageId, Blank, TrimSpace, DistinctKeys, Distinct, WithoutKey;
    var pending := parent.pending;
    var i :| 0 <= i < |pending| && pending[i].childId == id;
    WithoutKeyIs(pending, key);
    assert pending[i] in WithoutKey(pending, key);
  }

  lemma LinkIs(parent: Parent, key: string, id: string, next: Parent)
    requires ChildState(parent) && StorageId(id) && id == ChildRunId(key) && IsLink(parent, key, id, next)
    ensures next == parent.(pending := WithoutKey(parent.pending, key), children := parent.children + [id])
  {
    hide StorageId, Blank, TrimSpace, DistinctKeys, Distinct, WithKey, WithoutKey;
    var k := TrimSpace(key);
    StorageIdIsTrimmed(id);
    WithKeyIs(parent.pending, k);
    var found := WithKey(parent.pending, k);
    assert found[0] in found;
    assert found[0] in parent.pending;
    if k != key {
      OtherKeyOtherChild(k, key);
    }
  }

  lemma LinkingKeepsStore(s: System, key: string, id: string, next: Parent)
    requires StoreInv(s) && IsLink(s.parent, key, id, next) && id in s.records && id == ChildRunId(key)
    ensures StoreInv(s.(parent := next))
    ensures next.children == s.parent.children + [id]
  {
    hide ChildState, Finalize, Reserved, Distinct, WithoutKey, ChildRunId, StorageId, TrimSpace;
    RecordIdIsPortable(s, id);
    FinalizeKeepsChildState(s.parent, key, id);
    LinkIs(s.parent, key, id, next);
    forall r | r in s.records ensures r in next.children || Reserved(next.pending, r) {
      if r !in next.children {
        ReservedShrinks(s.parent, key, r);
      }
    }
  }

  /** What no step takes back: child runs, their records, links, and the revision that counts writes. */
  ghost predicate Extends(s: System, t: System) {
    && (forall id :: id in s.records ==> id in t.records && t.records[id] == s.records[id])
    && s.parent.children <= t.parent.children
    && s.revision <= t.revision
    && (s.revision == t.revision ==> s.parent == t.parent)
  }

  lemma CallInvSurvives(s: System, t: System, call: Call)
    requires CallInv(s, call) && Extends(s, t)
    ensures CallInv(t, call)
  {
    hide IsReserve, IsLink, ValidReservation;
  }

  lemma CreatingKeepsStore(s: System, r: Reservation)
    requires StoreInv(s) && MayCreate(s, RecordOf(r))
    ensures StoreInv(s.(records := s.records[r.childId := RecordOf(r)], created := s.created + [r.childId]))
  {
    hide ChildState;
    assert Reserved(s.parent.pending, r.childId);
  }

  lemma StepKeepsStore(s: System, step: Step)
    requires Inv(s) && Enabled(s, step)
    ensures StoreInv(Apply(s, step)) && Extends(s, Apply(s, step))
  {
    hide StoreInv, IsReserve, IsLink, Reserve, Finalize, MayResume, RecordMatches, ChildRunId, ValidReservation;
    match step
    case CommitReserve(c, _) =>
      assert CallInv(s, s.calls[c]);
      ReservingKeepsStore(s, s.calls[c].proposed, s.calls[c].next);
      SameStore(s.(parent := s.calls[c].next), Apply(s, step));
    case CommitLink(c, _) =>
      assert CallInv(s, s.calls[c]);
      LinkingKeepsStore(s, s.calls[c].proposed.key, s.calls[c].proposed.childId, s.calls[c].next);
      SameStore(s.(parent := s.calls[c].next), Apply(s, step));
    case Create(c) =>
      CreatingKeepsStore(s, s.calls[c].reservation);
    case _ =>
      SameStore(s, Apply(s, step));
  }

  lemma SameStore(s: System, t: System)
    requires StoreInv(s) && s.records == t.records && s.created == t.created
    requires t.parent == s.parent.(status := t.parent.status, deleting := t.parent.deleting)
    ensures StoreInv(t)
  {
    hide Distinct, DistinctKeys, ValidReservation, StorageId, Reserved;
  }

  lemma ReserveOutcomeIs(parent: Parent, p: Reservation)
    requires Reserve(parent, p).Some?
    ensures var o := Reserve(parent, p).value;
            && ValidReservation(o.reservation) && o.reservation.key == p.key && o.reservation.childId == p.childId
            && o.reservation.parentId == p.parentId && SameWork(o.reservation.identity, p.identity)
            && (o.changed ==> IsReserve(parent, p, o.parent)) && (!o.changed ==> o.parent == parent)
  {
    hide ValidReservation, WithKey, Distinct;
    WithKeyIs(parent.pending, p.key);
    var found := WithKey(parent.pending, p.key);
    if |found| == 1 {
      assert found[0] in found;
    }
  }

  lemma ReadsForLink(s: System, key: string, id: string)
    requires StoreInv(s) && id in s.records && Finalize(s.parent, key, id).Some?
    ensures var o := Finalize(s.parent, key, id).value;
            if o.changed then IsLink(s.parent, key, id, o.parent) else id in s.parent.children
  {
    hide StoreInv, WithKey, WithoutKey, Distinct, DistinctKeys, StorageId, TrimSpace, ValidReservation;
    RecordIdIsPortable(s, id);
    StorageIdIsTrimmed(id);
  }

  lemma ChangedCall(s: System, step: Step, c: nat)
    requires Inv(s) && Enabled(s, step) && c in Apply(s, step).calls
    requires c in s.calls ==> Apply(s, step).calls[c] != s.calls[c]
    ensures CallInv(Apply(s, step), Apply(s, step).calls[c])
  {
    hide StoreInv, IsReserve, IsLink, Reserve, Finalize, MayResume, ChildRunId, MayCreate, ValidReservation;
    if c in s.calls {
      assert CallInv(s, s.calls[c]);
    }
    match step
    case ReadToReserve(_) => ReserveOutcomeIs(s.parent, s.calls[c].proposed);
    case CommitReserve(_, _) => ReservedIsValid(s.parent, s.calls[c].proposed, s.calls[c].next);
    case Adopt(_) => ReservationNamesChild(s.calls[c].reservation);
    case ReadToLink(_) => ReadsForLink(s, s.calls[c].proposed.key, s.calls[c].proposed.childId);
    case CommitLink(_, _) => LinkingKeepsStore(s, s.calls[c].proposed.key, s.calls[c].proposed.childId, s.calls[c].next);
    case Look(_) =>
      if s.calls[c].proposed.childId in s.records {
        ResumedIsAskedFor(s.records[s.calls[c].proposed.childId], s.calls[c].proposed);
      }
    case _ =>
  }

  lemma ResumedIsAskedFor(record: ChildRecord, p: Reservation)
    requires MayResume(record, p)
    ensures record.parentId == p.parentId && SameWork(record.identity, p.identity)
  {
    hide Blank;
  }

  lemma ReservationNamesChild(r: Reservation)
    requires ValidReservation(r)
    ensures r.childId == ChildRunId(r.key)
  {
  }

  lemma StepKeepsCall(s: System, step: Step, c: nat)
    requires Inv(s) && Enabled(s, step) && c in Apply(s, step).calls
    ensures CallInv(Apply(s, step), Apply(s, step).calls[c])
  {
    hide StoreInv, CallInv, Enabled, Apply;
    if c in s.calls && Apply(s, step).calls[c] == s.calls[c] {
      StepKeepsStore(s, step);
      CallInvSurvives(s, Apply(s, step), s.calls[c]);
    } else {
      ChangedCall(s, step, c);
    }
  }

  lemma ReservedIsValid(parent: Parent, p: Reservation, next: Parent)
    requires IsReserve(parent, p, next)
    ensures ValidReservation(p)
  {
    hide WithKey;
  }

  ghost predicate IsExecution(states: seq<System>, steps: seq<Step>) {
    && |states| == |steps| + 1
    && ChildState(states[0].parent)
    && states[0].parent.children == [] && states[0].parent.pending == []
    && states[0].records == map[] && states[0].calls == map[] && states[0].created == []
    && forall i, j :: 0 <= i && j == i + 1 && j < |states| ==> Enabled(states[i], steps[i]) && states[j] == Apply(states[i], steps[i])
  }

  lemma {:induction false} ExecutionKeepsInv(states: seq<System>, steps: seq<Step>, k: nat)
    requires IsExecution(states, steps) && k < |states|
    ensures Inv(states[k])
  {
    hide StoreInv, CallInv, Enabled, Apply, ChildState;
    if k == 0 {
      EmptyStore(states[0]);
    } else {
      ExecutionKeepsInv(states, steps, k - 1);
      var last, current := states[k - 1], states[k];
      StepKeepsStore(last, steps[k - 1]);
      forall c | c in current.calls ensures CallInv(current, current.calls[c]) {
        StepKeepsCall(last, steps[k - 1], c);
      }
    }
  }

  lemma EmptyStore(s: System)
    requires ChildState(s.parent) && s.parent.children == [] && s.records == map[] && s.created == []
    ensures StoreInv(s)
  {
  }

  lemma {:induction false} ExecutionExtends(states: seq<System>, steps: seq<Step>, i: nat, k: nat)
    requires IsExecution(states, steps) && i <= k < |states|
    ensures Extends(states[i], states[k])
    decreases k - i
  {
    hide StoreInv, CallInv, Enabled, Apply, ChildState;
    if i < k {
      ExecutionExtends(states, steps, i, k - 1);
      ExecutionKeepsInv(states, steps, k - 1);
      var last, current := states[k - 1], states[k];
      StepKeepsStore(last, steps[k - 1]);
    }
  }

  /** At every moment of every run of the protocol each child run was created once, and it is either
      reserved or linked, never both; links are unique and lead to child runs. */
  lemma ChildrenStayConsistent(states: seq<System>, steps: seq<Step>, k: nat)
    requires IsExecution(states, steps) && k < |states|
    ensures var s := states[k];
            && ChildState(s.parent) && Distinct(s.created)
            && (forall id :: id in s.records ==> (id in s.parent.children) != Reserved(s.parent.pending, id))
            && (forall id :: id in s.parent.children ==> id in s.records)
  {
    hide CallInv, Enabled, Apply, ValidReservation, DistinctKeys, StorageId;
    ExecutionKeepsInv(states, steps, k);
  }

  /** A call that returned has its child linked, exactly once and for good; the child keeps the identity
      it was created with, whatever later calls ask for. */
  lemma ReturnedChildStaysLinked(states: seq<System>, steps: seq<Step>, i: nat, k: nat, c: nat)
    requires IsExecution(states, steps) && i <= k < |states|
    requires c in states[i].calls && states[i].calls[c].Linked?
    ensures var id := states[i].calls[c].proposed.childId;
            && multiset(states[k].parent.children)[id] == 1
            && id in states[i].records && id in states[k].records && states[k].records[id] == states[i].records[id]
  {
    hide Enabled, Apply, ValidReservation, DistinctKeys, StorageId;
    ExecutionKeepsInv(states, steps, i);
    ExecutionKeepsInv(states, steps, k);
    ExecutionExtends(states, steps, i, k);
    assert CallInv(states[i], states[i].calls[c]);
    OnceInDistinct(states[k].parent.children, states[i].calls[c].proposed.childId);
  }

  /** The child a call returns is the one it asked for: the call began with this very request, and the
      record stored under its id is of the same parent and the same work, whatever reservations and
      children other calls left behind. */
  lemma LinkedChildIsAskedFor(states: seq<System>, steps: seq<Step>, k: nat, c: nat)
    requires IsExecution(states, steps) && k < |states| && c in states[k].calls && states[k].calls[c].Linked?
    ensures var p := states[k].calls[c].proposed;
            && IsAskedFor(states[k], p)
            && exists i :: 0 <= i < k && steps[i] == Begin(c, p)
  {
    hide Enabled, Apply, StoreInv;
    ExecutionKeepsInv(states, steps, k);
    assert CallInv(states[k], states[k].calls[c]);
    CallBegan(states, steps, k, c);
  }

  lemma {:induction false} CallBegan(states: seq<System>, steps: seq<Step>, k: nat, c: nat)
    requires IsExecution(states, steps) && k < |states| && c in states[k].calls
    ensures exists i :: 0 <= i < k && steps[i] == Begin(c, states[k].calls[c].proposed)
  {
    hide ChildState, Enabled, Apply;
    if k > 0 {
      var last, current := states[k - 1], states[k];
      if steps[k - 1] != Begin(c, current.calls[c].proposed) {
        StepKeepsProposed(last, steps[k - 1], c);
        CallBegan(states, steps, k - 1, c);
      }
    }
  }

  lemma StepKeepsProposed(s: System, step: Step, c: nat)
    requires Enabled(s, step) && c in Apply(s, step).calls && step != Begin(c, Apply(s, step).calls[c].proposed)
    ensures c in s.calls && s.calls[c].proposed == Apply(s, step).calls[c].proposed
  {
    hide Reserve, Finalize, MayResume, MayCreate, RecordMatches;
  }

  lemma {:induction false} OnceInDistinct(ids: seq<string>, id: string)
    requires Distinct(ids) && id in ids
    ensures multiset(ids)[id] == 1
  {
    var front, last := ids[..|ids| - 1], ids[|ids| - 1];
    assert ids == front + [last];
    if id in front {
      OnceInDistinct(front, id);
    }
  }

  /** A child is only ever created under a reservation of its own, while its parent is not being deleted. */
  lemma CreatedUnderReservation(states: seq<System>, steps: seq<Step>, k: nat)
    requires IsExecution(states, steps) && k < |steps| && states[k + 1].created != states[k].created
    ensures exists i :: 0 <= i < |states[k].parent.pending| && states[k + 1].created == states[k].created + [states[k].parent.pending[i].childId]
    ensures !states[k].parent.deleting && states[k + 1].parent == states[k].parent
  {
    hide Reserve, Finalize, MayResume, ChildState;
    var before, after := states[k], states[k + 1];
    assert Enabled(before, steps[k]) && after == Apply(before, steps[k]);
  }

  // ----- what a request comes to -----

  /** A parent with no children yet that takes the request, nobody else asking. */
  ghost predicate Ready(s: System, p: Reservation) {
    && TakesReservation(s.parent, p) && s.parent.pending == [] && s.parent.children == []
    && s.records == map[] && s.calls == map[]
  }

  ghost predicate IsStep(states: seq<System>, steps: seq<Step>, i: nat)
    requires i < |steps| && |states| == |steps| + 1
  {
    Enabled(states[i], steps[i]) && states[i + 1] == Apply(states[i], steps[i])
  }

  ghost predicate AreSteps(states: seq<System>, steps: seq<Step>) {
    |states| == |steps| + 1 && forall i :: 0 <= i < |steps| ==> IsStep(states, steps, i)
  }

  /** What reserving and linking do to such a parent. */
  lemma ReserveAndLink(parent: Parent, p: Reservation)
    requires TakesReservation(parent, p) && parent.pending == [] && parent.children == []
    ensures Reserve(parent, p) == Some(ReserveOutcome(parent.(pending := [p]), p, true))
    ensures Finalize(parent.(pending := [p]), p.key, p.childId) == Some(LinkOutcome(parent.(children := [p.childId]), true))
  {
    hide StorageId, IsComplete, ValidReservation, WithKey, WithoutKey, Reserve, Finalize;
    ReserveUnderNewKey(parent, p);
    assert parent.pending + [p] == [p] && parent.children + [p.childId] == [p.childId];
    ReserveThenFinalize(parent, p);
  }

  lemma ReservesFirst(s: System, c: nat, p: Reservation) returns (a: System, b: System, d: System, e: System)
    requires Ready(s, p)
    ensures Enabled(s, Begin(c, p)) && a == Apply(s, Begin(c, p))
    ensures Enabled(a, Look(c)) && b == Apply(a, Look(c))
    ensures Enabled(b, ReadToReserve(c)) && d == Apply(b, ReadToReserve(c))
    ensures Enabled(d, CommitReserve(c, true)) && e == Apply(d, CommitReserve(c, true))
    ensures e == System(s.parent.(pending := [p]), s.revision + 1, map[], map[c := Creating(p, p)], s.created)
  {
    hide StorageId, IsComplete, Reserve, Finalize, MayResume, Distinct;
    ReserveAndLink(s.parent, p);
    CompleteNamesChild(p);
    a := Apply(s, Begin(c, p));
    b := Apply(a, Look(c));
    d := Apply(b, ReadToReserve(c));
    e := Apply(d, CommitReserve(c, true));
  }

  lemma LinksThen(s: System, e: System, c: nat, p: Reservation) returns (f: System, g: System, h: System, i: System)
    requires Ready(s, p) && e == System(s.parent.(pending := [p]), s.revision + 1, map[], map[c := Creating(p, p)], s.created)
    ensures Enabled(e, Create(c)) && f == Apply(e, Create(c))
    ensures Enabled(f, Adopt(c)) && g == Apply(f, Adopt(c))
    ensures Enabled(g, ReadToLink(c)) && h == Apply(g, ReadToLink(c))
    ensures Enabled(h, CommitLink(c, true)) && i == Apply(h, CommitLink(c, true))
    ensures i == System(s.parent.(children := [p.childId]), s.revision + 2, map[p.childId := RecordOf(p)], map[c := Linked(p)], s.created + [p.childId])
  {
    hide StorageId, IsComplete, Reserve, Finalize, MayResume, Distinct;
    ReserveAndLink(s.parent, p);
    CompleteNamesChild(p);
    assert e.parent.pending[0] == p;
    f := Apply(e, Create(c));
    g := Apply(f, Adopt(c));
    h := Apply(g, ReadToLink(c));
    i := Apply(h, CommitLink(c, true));
  }

  /** A request that nobody disturbs ends with its child reserved, created and linked. */
  lemma RequestGetsDone(s: System, c: nat, p: Reservation) returns (states: seq<System>, steps: seq<Step>)
    requires Ready(s, p)
    ensures AreSteps(states, steps) && states[0] == s
    ensures var last := states[|states| - 1];
            && last.calls == map[c := Linked(p)] && last.records == map[p.childId := RecordOf(p)]
            && last.parent == s.parent.(children := [p.childId]) && last.created == s.created + [p.childId]
  {
    hide Enabled, Apply, Ready;
    var a, b, d, e := ReservesFirst(s, c, p);
    var f, g, h, i := LinksThen(s, e, c, p);
    states := [s, a, b, d, e, f, g, h, i];
    steps := [Begin(c, p), Look(c), ReadToReserve(c), CommitReserve(c, true), Create(c), Adopt(c), ReadToLink(c), CommitLink(c, true)];
  }

  /** A request repeated for a child that exists, from whatever step, finds it: a link is returned as it is,
      and a reservation left behind by a call that stopped half-way is turned into the link. */
  lemma RetryGetsDone(s: System, c: nat, p: Reservation) returns (states: seq<System>, steps: seq<Step>)
    requires StoreInv(s) && s.calls == map[] && p.childId == ChildRunId(p.key) && p.childId in s.records
    requires MayResume(s.records[p.childId], p) && Finalize(s.parent, p.key, p.childId).Some?
    ensures AreSteps(states, steps) && states[0] == s
    ensures var last := states[|states| - 1];
            && last.calls == map[c := Linked(p)] && last.records == s.records && last.created == s.created
            && last.parent == Finalize(s.parent, p.key, p.childId).value.parent && p.childId in last.parent.children
  {
    hide Finalize, MayResume, StoreInv, ChildRunId;
    var a := Apply(s, Begin(c, p));
    var b := Apply(a, Look(c));
    var d := Apply(b, ReadToLink(c));
    ReadsForLink(s, p.key, p.childId);
    if Finalize(s.parent, p.key, p.childId).value.changed {
      LinkingKeepsStore(s, p.key, p.childId, Finalize(s.parent, p.key, p.childId).value.parent);
      states, steps := [s, a, b, d, Apply(d, CommitLink(c, true))], [Begin(c, p), Look(c), ReadToLink(c), CommitLink(c, true)];
    } else {
      UnchangedLink(s.parent, p.key, p.childId);
      states, steps := [s, a, b, d], [Begin(c, p), Look(c), ReadToLink(c)];
    }
  }

  lemma UnchangedLink(parent: Parent, key: string, id: string)
    requires Finalize(parent, key, id).Some? && !Finalize(parent, key, id).value.changed
    ensures Finalize(parent, key, id).value.parent == parent
  {
    hide StorageId, TrimSpace, WithKey, ValidReservation, DistinctKeys, Distinct;
  }
}
