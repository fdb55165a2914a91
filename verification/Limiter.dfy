/** The concurrency limiter: a counter, a queue of waiters and permits handed from one to the next. */
module Limiter {
  import opened Common

  const MAX_SIZE: nat := 100000

  /** A waiter is a channel, named by the order in which it was made. A closed channel carries a permit. */
  type Waiter = nat

  datatype State = State(limit: nat, active: int, waiters: seq<Waiter>, closed: set<Waiter>, made: nat)

  /** NewConcurrencyLimiter: no limiter means no limit. */
  function NewLimiter(limit: int): Option<State> {
    if limit <= 0 then None
    else Some(State(if limit > MAX_SIZE then MAX_SIZE else limit, 0, [], {}, 0))
  }

  function Acquired(s: State): State {
    if s.active < s.limit then s.(active := s.active + 1)
    else s.(waiters := s.waiters + [s.made], made := s.made + 1)
  }

  function Removed<T>(s: seq<T>, i: nat): seq<T>
    requires i < |s|
  {
    s[..i] + s[i + 1..]
  }

  function Index(s: seq<Waiter>, w: Waiter): (i: nat)
    ensures i <= |s| && (i < |s| <==> w in s) && w !in s[..i]
    ensures i < |s| ==> s[i] == w
  {
    if s == [] then 0 else if s[0] == w then 0
    else
      var i := Index(s[1..], w) + 1;
      assert s[..i] == [s[0]] + s[1..][..i - 1];
      i
  }

  function Canceled(s: State, w: Waiter): State {
    var i := Index(s.waiters, w);
    if i < |s.waiters| then s.(waiters := Removed(s.waiters, i)) else s
  }

  function Released(s: State): State {
    if s.waiters == [] then s.(active := s.active - 1)
    else s.(waiters := s.waiters[1..], closed := s.closed + {s.waiters[0]})
  }

  predicate Ascending(waiters: seq<Waiter>) {
    forall i, j :: 0 <= i < j < |waiters| ==> waiters[i] < waiters[j]
  }

  /** Each method body runs under the limiter's mutex. */
  class ConcurrencyLimiter {
    const limit: nat
    var active: int
    var waiters: seq<Waiter>
    var closed: set<Waiter>
    var made: nat

    function Value(): State
      reads this
    {
      State(limit, active, waiters, closed, made)
    }

    constructor (limit: int)
      requires limit > 0
      ensures NewLimiter(limit) == Some(Value())
    {
      this.limit := if limit > MAX_SIZE then MAX_SIZE else limit;
      active, waiters, closed, made := 0, [], {}, 0;
    }

    method TryAcquire() returns (ok: bool)
      modifies this
      ensures ok <==> old(active) < limit
      ensures Value() == if ok then Acquired(old(Value())) else old(Value())
    {
      if active >= limit {
        return false;
      }
      active := active + 1;
      return true;
    }

    method AcquireWaiter() returns (waiter: Option<Waiter>)
      modifies this
      ensures Value() == Acquired(old(Value()))
      ensures waiter == if old(active) < limit then None else Some(old(made))
    {
      if active < limit {
        active := active + 1;
        return None;
      }
      waiter := Some(made);
      waiters, made := waiters + [made], made + 1;
    }

    /** Found means still queued: the permit has not been handed over. */
    method CancelWaiter(waiter: Waiter) returns (found: bool)
      modifies this
      ensures found <==> waiter in old(waiters)
      ensures Value() == Canceled(old(Value()), waiter)
    {
      for index := 0 to |waiters|
        invariant Value() == old(Value())
        invariant waiter !in waiters[..index]
      {
        if waiters[index] != waiter {
          continue;
        }
        waiters := waiters[..index] + waiters[index + 1..];
        return true;
      }
      return false;
    }

    method Release()
      modifies this
      ensures Value() == Released(old(Value()))
    {
      if |waiters| == 0 {
        active := active - 1;
        return;
      }
      var waiter := waiters[0];
      waiters := waiters[1..];
      closed := closed + {waiter};
    }
  }

  // ----- clients -----

  /** Where a caller stands: queued, told to give up, giving back a permit it no longer wants,
      working, or done. */
  datatype Client =
    | Waiting(waiter: Waiter)
    | Canceling(waiter: Waiter)
    | Draining
    | Holding
    | Done

  datatype System = System(limiter: State, clients: map<nat, Client>)

  datatype Step =
    | TryAcquire(c: nat)
    | Acquire(c: nat)
    | WakeUp(c: nat)
    | GiveUp(c: nat)
    | Cancel(c: nat)
    | Drain(c: nat)
    | Release(c: nat)
    | ReleaseAgain(c: nat)

  predicate Enabled(s: System, step: Step) {
    match step
    case TryAcquire(c) => c !in s.clients
    case Acquire(c) => c !in s.clients
    case WakeUp(c) => c in s.clients && s.clients[c].Waiting? && s.clients[c].waiter in s.limiter.closed
    case GiveUp(c) => c in s.clients && s.clients[c].Waiting?
    case Cancel(c) => c in s.clients && s.clients[c].Canceling?
    case Drain(c) => c in s.clients && s.clients[c].Draining?
    case Release(c) => c in s.clients && s.clients[c].Holding?
    case ReleaseAgain(c) => c in s.clients && s.clients[c].Done?
  }

  function Goto(s: System, c: nat, limiter: State, client: Client): System {
    System(limiter, s.clients[c := client])
  }

  function Apply(s: System, step: Step): System
    requires Enabled(s, step)
  {
    var l := s.limiter;
    match step
    case TryAcquire(c) =>
      if l.active >= l.limit then s else Goto(s, c, Acquired(l), Holding)
    case Acquire(c) =>
      Goto(s, c, Acquired(l), if l.active < l.limit then Holding else Waiting(l.made))
    case WakeUp(c) => Goto(s, c, l, Holding)
    case GiveUp(c) => Goto(s, c, l, Canceling(s.clients[c].waiter))
    case Cancel(c) =>
      var w := s.clients[c].waiter;
      Goto(s, c, Canceled(l, w), if w in l.waiters then Done else Draining)
    case Drain(c) => Goto(s, c, Released(l), Done)
    case Release(c) => Goto(s, c, Released(l), Done)
    case ReleaseAgain(c) => s
  }

  // ----- permits -----

  predicate Queued(client: Client) {
    client.Waiting? || client.Canceling?
  }

  /** A client owns a permit while it works or gives it back, and from the moment it is handed over. */
  predicate Owns(l: State, client: Client) {
    client.Holding? || client.Draining? || (Queued(client) && client.waiter in l.closed)
  }

  ghost function Owners(s: System): set<nat> {
    set c | c in s.clients && Owns(s.limiter, s.clients[c])
  }

  /** Every permit counted has one owner, and nobody waits while there is capacity. */
  ghost predicate PermitInv(s: System) {
    && s.limiter.active == |Owners(s)|
    && s.limiter.active <= s.limiter.limit
    && (s.limiter.waiters != [] ==> s.limiter.active == s.limiter.limit)
  }

  /** The queue is in order of arrival; each waiter in it has a client, each queued client one waiter. */
  ghost predicate QueueInv(s: System) {
    var l := s.limiter;
    && l.limit > 0
    && Ascending(l.waiters)
    && (forall w :: w in l.waiters ==> w < l.made && w !in l.closed)
    && (forall w :: w in l.waiters ==> exists c :: IsClientOf(s, c, w))
    && (forall w :: w in l.closed ==> w < l.made)
    && (forall c, w :: IsClientOf(s, c, w) ==> w in l.waiters || w in l.closed)
    && (forall c, d, w :: IsClientOf(s, c, w) && IsClientOf(s, d, w) ==> c == d)
  }

  ghost predicate IsClientOf(s: System, c: nat, w: Waiter) {
    c in s.clients && Queued(s.clients[c]) && s.clients[c].waiter == w
  }

  ghost predicate Inv(s: System) {
    QueueInv(s) && PermitInv(s)
  }

  /** Taking a waiter out of the queue takes out that one only. */
  lemma RemovedIs(waiters: seq<Waiter>, i: nat)
    requires Ascending(waiters) && i < |waiters|
    ensures Ascending(Removed(waiters, i))
    ensures forall w :: w in Removed(waiters, i) <==> w in waiters && w != waiters[i]
  {
    var rest := Removed(waiters, i);
    forall w | w in waiters && w != waiters[i] ensures w in rest {
      var k :| 0 <= k < |waiters| && waiters[k] == w;
      assert rest[if k < i then k else k - 1] == w;
    }
  }

  /** A client that leaves the queue, or never was in it, while the queue stays as it is. */
  lemma LeavesQueue(s: System, c: nat, l: State, client: Client)
    requires QueueInv(s) && !Queued(client)
    requires l == s.limiter.(active := l.active)
    requires c in s.clients && Queued(s.clients[c]) ==> s.clients[c].waiter !in s.limiter.waiters
    ensures QueueInv(Goto(s, c, l, client))
  {
    var t := Goto(s, c, l, client);
    forall w | w in l.waiters ensures exists d :: IsClientOf(t, d, w) {
      var d :| IsClientOf(s, d, w);
      assert IsClientOf(t, d, w);
    }
    assert forall d, w :: IsClientOf(t, d, w) ==> IsClientOf(s, d, w);
  }

  lemma JoinsQueue(s: System, c: nat)
    requires QueueInv(s) && c !in s.clients && s.limiter.active >= s.limiter.limit
    ensures QueueInv(Goto(s, c, Acquired(s.limiter), Waiting(s.limiter.made)))
  {
    var made := s.limiter.made;
    var t := Goto(s, c, Acquired(s.limiter), Waiting(made));
    forall w | w in t.limiter.waiters ensures exists d :: IsClientOf(t, d, w) {
      if w == made {
        assert IsClientOf(t, c, w);
      } else {
        var d :| IsClientOf(s, d, w);
        assert IsClientOf(t, d, w);
      }
    }
    assert forall d, w :: IsClientOf(t, d, w) && d != c ==> IsClientOf(s, d, w);
    assert forall d, w :: IsClientOf(s, d, w) ==> w < made;
    assert forall i :: 0 <= i < |s.limiter.waiters| ==> s.limiter.waiters[i] in s.limiter.waiters;
  }

  lemma StaysInQueue(s: System, c: nat, client: Client)
    requires QueueInv(s) && c in s.clients && Queued(s.clients[c]) && Queued(client) && client.waiter == s.clients[c].waiter
    ensures QueueInv(Goto(s, c, s.limiter, client))
  {
    var t := Goto(s, c, s.limiter, client);
    assert forall d, w :: IsClientOf(t, d, w) <==> IsClientOf(s, d, w);
  }

  lemma CanceledLeaves(s: System, c: nat)
    requires QueueInv(s) && c in s.clients && Queued(s.clients[c]) && s.clients[c].waiter in s.limiter.waiters
    ensures QueueInv(Goto(s, c, Canceled(s.limiter, s.clients[c].waiter), Done))
  {
    var w0 := s.clients[c].waiter;
    var t := Goto(s, c, Canceled(s.limiter, w0), Done);
    RemovedIs(s.limiter.waiters, Index(s.limiter.waiters, w0));
    assert IsClientOf(s, c, w0);
    forall w | w in t.limiter.waiters ensures exists d :: IsClientOf(t, d, w) {
      var d :| IsClientOf(s, d, w);
      assert IsClientOf(t, d, w);
    }
    assert forall d, w :: IsClientOf(t, d, w) ==> IsClientOf(s, d, w) && d != c;
  }

  lemma TailIs(waiters: seq<Waiter>)
    requires Ascending(waiters) && waiters != []
    ensures Ascending(waiters[1..])
    ensures forall w :: w in waiters[1..] <==> w in waiters && w != waiters[0]
  {
    assert Removed(waiters, 0) == waiters[1..];
    RemovedIs(waiters, 0);
  }

  /** The permit goes to the head of the queue. */
  lemma HandsOver(s: System, c: nat)
    requires QueueInv(s) && c in s.clients && !Queued(s.clients[c]) && s.limiter.waiters != []
    ensures QueueInv(Goto(s, c, Released(s.limiter), Done))
  {
    var t := Goto(s, c, Released(s.limiter), Done);
    TailIs(s.limiter.waiters);
    hide Ascending;
    assert forall d, w :: IsClientOf(t, d, w) <==> IsClientOf(s, d, w);
    forall w | w in t.limiter.waiters ensures exists d :: IsClientOf(t, d, w) {
      var d :| IsClientOf(s, d, w);
      assert IsClientOf(t, d, w);
    }
  }

  lemma ReleaseKeepsQueue(s: System, c: nat)
    requires QueueInv(s) && c in s.clients && !Queued(s.clients[c])
    ensures QueueInv(Goto(s, c, Released(s.limiter), Done))
  {
    if s.limiter.waiters == [] {
      LeavesQueue(s, c, Released(s.limiter), Done);
    } else {
      HandsOver(s, c);
    }
  }

  lemma StepKeepsQueue(s: System, step: Step)
    requires Inv(s) && Enabled(s, step)
    ensures QueueInv(Apply(s, step))
  {
    var l := s.limiter;
    match step
    case TryAcquire(c) =>
      if l.active < l.limit { LeavesQueue(s, c, Acquired(l), Holding); }
    case Acquire(c) =>
      if l.active < l.limit { LeavesQueue(s, c, Acquired(l), Holding); } else { JoinsQueue(s, c); }
    case WakeUp(c) => LeavesQueue(s, c, l, Holding);
    case GiveUp(c) => StaysInQueue(s, c, Canceling(s.clients[c].waiter));
    case Cancel(c) =>
      if s.clients[c].waiter in l.waiters { CanceledLeaves(s, c); } else { LeavesQueue(s, c, l, Draining); }
    case Drain(c) => ReleaseKeepsQueue(s, c);
    case Release(c) => ReleaseKeepsQueue(s, c);
    case ReleaseAgain(c) =>
  }

  // ----- counting -----

  lemma AcquireKeepsPermits(s: System, c: nat)
    requires Inv(s) && c !in s.clients
    ensures PermitInv(Goto(s, c, Acquired(s.limiter), if s.limiter.active < s.limiter.limit then Holding else Waiting(s.limiter.made)))
  {
    var t := Goto(s, c, Acquired(s.limiter), if s.limiter.active < s.limiter.limit then Holding else Waiting(s.limiter.made));
    assert c !in Owners(s);
    if s.limiter.active < s.limiter.limit {
      assert Owners(t) == Owners(s) + {c};
    } else {
      assert s.limiter.made !in s.limiter.closed;
      assert Owners(t) == Owners(s);
    }
  }

  /** A step that neither makes nor returns a permit leaves the owners alone. */
  lemma KeepsOwners(s: System, c: nat, l: State, client: Client)
    requires PermitInv(s) && l == s.limiter.(waiters := l.waiters) && (l.waiters != [] ==> s.limiter.waiters != [])
    requires c in s.clients && (Owns(l, client) <==> Owns(l, s.clients[c]))
    ensures PermitInv(Goto(s, c, l, client))
  {
    assert Owners(Goto(s, c, l, client)) == Owners(s);
  }

  lemma ReleaseKeepsPermits(s: System, c: nat)
    requires Inv(s) && c in s.clients && (s.clients[c].Holding? || s.clients[c].Draining?)
    ensures PermitInv(Goto(s, c, Released(s.limiter), Done))
  {
    var t := Goto(s, c, Released(s.limiter), Done);
    assert c in Owners(s);
    if s.limiter.waiters == [] {
      assert Owners(t) == Owners(s) - {c};
    } else {
      var d := Head(s);
      HandOver(s, c, d);
    }
  }

  lemma Head(s: System) returns (d: nat)
    requires QueueInv(s) && s.limiter.waiters != []
    ensures IsClientOf(s, d, s.limiter.waiters[0])
  {
    assert s.limiter.waiters[0] in s.limiter.waiters;
    d :| IsClientOf(s, d, s.limiter.waiters[0]);
  }

  /** The permit of `c` becomes the permit of the client at the head of the queue. */
  lemma HandOver(s: System, c: nat, d: nat)
    requires QueueInv(s) && s.limiter.waiters != [] && IsClientOf(s, d, s.limiter.waiters[0])
    requires c in s.clients && (s.clients[c].Holding? || s.clients[c].Draining?)
    ensures var t := Goto(s, c, Released(s.limiter), Done);
            d !in Owners(s) && c in Owners(s) && Owners(t) == Owners(s) - {c} + {d}
  {
    var t := Goto(s, c, Released(s.limiter), Done);
    assert s.limiter.waiters[0] in s.limiter.waiters;
    forall e | e in s.clients
      ensures e in Owners(t) <==> e in Owners(s) - {c} + {d}
    {
      if Queued(s.clients[e]) {
        assert IsClientOf(s, e, s.clients[e].waiter);
      }
    }
  }

  lemma StepKeepsPermits(s: System, step: Step)
    requires Inv(s) && Enabled(s, step)
    ensures PermitInv(Apply(s, step))
  {
    hide PermitInv, QueueInv, Owners;
    var l := s.limiter;
    match step
    case TryAcquire(c) => AcquireKeepsPermits(s, c);
    case Acquire(c) => AcquireKeepsPermits(s, c);
    case WakeUp(c) => KeepsOwners(s, c, l, Holding);
    case GiveUp(c) => KeepsOwners(s, c, l, Canceling(s.clients[c].waiter));
    case Cancel(c) => CancelKeepsPermits(s, c);
    case Drain(c) => ReleaseKeepsPermits(s, c);
    case Release(c) => ReleaseKeepsPermits(s, c);
    case ReleaseAgain(c) =>
  }

  /** Whoever gives up owns a permit exactly if it left the queue, and then has to return it. */
  lemma CancelKeepsPermits(s: System, c: nat)
    requires Inv(s) && c in s.clients && s.clients[c].Canceling?
    ensures PermitInv(Apply(s, Cancel(c)))
  {
    var w := s.clients[c].waiter;
    assert IsClientOf(s, c, w);
    hide PermitInv, Owners;
    KeepsOwners(s, c, Canceled(s.limiter, w), if w in s.limiter.waiters then Done else Draining);
  }

  // ----- whole runs -----

  ghost predicate IsExecution(limit: int, states: seq<System>, steps: seq<Step>) {
    && |states| == |steps| + 1
    && limit > 0
    && states[0] == System(NewLimiter(limit).value, map[])
    && forall i, j :: 0 <= i && j == i + 1 && j < |states| ==> Enabled(states[i], steps[i]) && states[j] == Apply(states[i], steps[i])
  }

  lemma {:induction false} ExecutionKeepsInv(limit: int, states: seq<System>, steps: seq<Step>, k: nat)
    requires IsExecution(limit, states, steps) && k < |states|
    ensures Inv(states[k]) && states[k].limiter.limit == states[0].limiter.limit
  {
    if k == 0 {
      assert Owners(states[0]) == {};
    } else {
      ExecutionKeepsInv(limit, states, steps, k - 1);
      var last, current := states[k - 1], states[k];
      hide PermitInv, QueueInv;
      StepKeepsQueue(last, steps[k - 1]);
      StepKeepsPermits(last, steps[k - 1]);
    }
  }

  /** The counter is the number of permits out, hand-overs on their way included; it never passes the
      limit, and it is zero as soon as nobody works, waits or gives up. */
  lemma PermitsAreConserved(limit: int, states: seq<System>, steps: seq<Step>, k: nat)
    requires IsExecution(limit, states, steps) && k < |states|
    ensures var s := states[k];
            && s.limiter.active == |Owners(s)|
            && s.limiter.active <= s.limiter.limit <= limit
            && s.limiter.limit <= MAX_SIZE
            && ((forall c :: c in s.clients ==> s.clients[c].Done?) ==> s.limiter.active == 0)
  {
    ExecutionKeepsInv(limit, states, steps, k);
    if forall c :: c in states[k].clients ==> states[k].clients[c].Done? {
      assert Owners(states[k]) == {};
    }
  }

  /** While someone is queued nobody gets past: a new attempt fails, a new arrival queues behind. */
  lemma NoOvertaking(limit: int, states: seq<System>, steps: seq<Step>, k: nat, c: nat, waiting: nat)
    requires IsExecution(limit, states, steps) && k < |states| && c !in states[k].clients
    requires waiting in states[k].clients && Queued(states[k].clients[waiting])
    requires states[k].clients[waiting].waiter !in states[k].limiter.closed
    ensures Apply(states[k], TryAcquire(c)) == states[k]
    ensures var t := Apply(states[k], Acquire(c));
            t.clients[c].Waiting? && t.clients[c].waiter > states[k].clients[waiting].waiter
  {
    var s := states[k];
    ExecutionKeepsInv(limit, states, steps, k);
    assert IsClientOf(s, waiting, s.clients[waiting].waiter);
  }

  /** A returned permit goes to the client that has been queued longest. */
  lemma FirstComeFirstServed(limit: int, states: seq<System>, steps: seq<Step>, k: nat, c: nat, d: nat)
    requires IsExecution(limit, states, steps) && k < |states|
    requires c in states[k].clients && (states[k].clients[c].Holding? || states[k].clients[c].Draining?)
    requires d in states[k].clients && d !in Owners(states[k])
    requires d in Owners(Goto(states[k], c, Released(states[k].limiter), Done))
    ensures Queued(states[k].clients[d])
    ensures forall e :: e in states[k].clients && Queued(states[k].clients[e]) && e !in Owners(states[k])
                        ==> states[k].clients[d].waiter <= states[k].clients[e].waiter
  {
    var s := states[k];
    ExecutionKeepsInv(limit, states, steps, k);
    forall e | e in s.clients && Queued(s.clients[e]) && e !in Owners(s)
      ensures s.clients[d].waiter <= s.clients[e].waiter
    {
      assert IsClientOf(s, e, s.clients[e].waiter);
    }
  }
}
