/** Cancelling a paused run together with everything below it, children first. */
module CancelTree {
  import opened Common
  import opened Text
  import opened Runs

  /** `reserved` are the children that are reserved and not linked yet. */
  datatype Run = Run(parent: string, children: seq<string>, reserved: set<string>, status: RunStatus, revision: nat)

  type Store = map<string, Run>

  /** The children, as the walk names them, are all among `ids`. */
  ghost predicate AllIn(children: seq<string>, ids: seq<string>) {
    forall k :: 0 <= k < |children| ==> TrimSpace(children[k]) in ids
  }

  /** What other writers may do meanwhile. A run created on the way is one nobody had linked before. */
  ghost predicate Evolved(a: Store, b: Store) {
    a.Keys == b.Keys && forall id :: id in a ==> RunEvolved(a[id], b[id])
  }

  /** Links are only added and every write counts up the revision. A terminal run stays so and reserves no
      more children, but a child it had reserved can still be linked. */
  predicate RunEvolved(a: Run, b: Run) {
    && b.parent == a.parent && a.children <= b.children
    && a.revision <= b.revision && (a.revision == b.revision ==> a == b)
    && (a.status.IsTerminal() ==> b.status == a.status && b.reserved <= a.reserved && LinksReserved(a, b))
  }

  predicate LinksReserved(a: Run, b: Run)
    requires |a.children| <= |b.children|
  {
    forall c :: c in b.children[|a.children|..] ==> c in a.reserved
  }

  lemma RunEvolvedTransitive(a: Run, b: Run, c: Run)
    requires RunEvolved(a, b) && RunEvolved(b, c)
    ensures RunEvolved(a, c)
  {
    assert c.children[|a.children|..] == b.children[|a.children|..] + c.children[|b.children|..];
  }

  lemma FirstIsMember<T>(s: seq<T>)
    ensures s == [] || s[0] in s
  {
  }

  /** A terminal run with nothing reserved gets no more links. */
  lemma NoNewLinks(a: Run, b: Run)
    requires RunEvolved(a, b) && a.status.IsTerminal() && a.reserved == {}
    ensures b.status == a.status && b.children == a.children && b.reserved == {}
  {
    FirstIsMember(b.children[|a.children|..]);
    assert b.children == a.children + b.children[|a.children|..];
  }

  /** What the walk has got to: the store, the finished runs in order with the records they were finished
      by, and the records by which it cancelled runs. */
  datatype Progress = Progress(runs: Store, finished: seq<string>, seen: Store, canceled: Store)

  /** The walk never goes back, and without other writers it leaves alone what is still being walked. */
  ghost predicate Follows(a: Progress, b: Progress, walked: set<string>, quiet: bool) {
    && a.runs.Keys == b.runs.Keys && Evolved(a.runs, b.runs)
    && a.finished <= b.finished && a.canceled.Keys <= b.canceled.Keys
    && (quiet ==> forall id :: id in walked && id in a.runs ==> id in b.runs && b.runs[id] == a.runs[id])
  }

  lemma FollowsReflexive(a: Progress, walked: set<string>, quiet: bool)
    ensures Follows(a, a, walked, quiet)
  {
  }

  lemma FollowsTransitive(a: Progress, b: Progress, c: Progress, walked: set<string>, more: set<string>, quiet: bool)
    requires Follows(a, b, walked, quiet) && Follows(b, c, more, quiet) && walked <= more
    ensures Follows(a, c, walked, quiet)
  {
    hide Evolved;
    EvolvedTransitive(a.runs, b.runs, c.runs);
  }

  /** The run is still what `earlier` says, but for what others may have done to it since. */
  ghost predicate Since(runs: Store, id: string, earlier: Store) {
    id in runs && id in earlier && RunEvolved(earlier[id], runs[id])
  }

  /** Every finished run was terminal by then and comes after all children it had by then. */
  ghost predicate FinishedInOrder(runs: Store, finished: seq<string>, seen: Store) {
    forall i :: 0 <= i < |finished| ==>
      && Since(runs, finished[i], seen) && seen[finished[i]].status.IsTerminal()
      && AllIn(seen[finished[i]].children, finished[..i])
  }

  lemma EvolvedSince(a: Store, b: Store, id: string, earlier: Store)
    requires Evolved(a, b) && Since(a, id, earlier)
    ensures Since(b, id, earlier)
  {
    hide RunEvolved;
    RunEvolvedTransitive(earlier[id], a[id], b[id]);
  }

  lemma EvolvedKeepsOrder(a: Store, b: Store, finished: seq<string>, seen: Store)
    requires Evolved(a, b) && FinishedInOrder(a, finished, seen)
    ensures FinishedInOrder(b, finished, seen)
  {
    hide Evolved, Since;
    forall i | 0 <= i < |finished| ensures Since(b, finished[i], seen) {
      EvolvedSince(a, b, finished[i], seen);
    }
  }

  lemma AppendKeepsOrder(runs: Store, finished: seq<string>, seen: Store, id: string, run: Run)
    requires FinishedInOrder(runs, finished, seen) && id !in finished
    requires id in runs && run.status.IsTerminal() && RunEvolved(run, runs[id]) && AllIn(run.children, finished)
    ensures FinishedInOrder(runs, finished + [id], seen[id := run])
  {
    hide RunEvolved;
    var after := finished + [id];
    forall i | 0 <= i < |after|
      ensures Since(runs, after[i], seen[id := run]) && seen[id := run][after[i]].status.IsTerminal()
      ensures AllIn(seen[id := run][after[i]].children, after[..i])
    {
      assert after[..i] == finished[..i];
    }
  }

  /** A lineage without cycles in which every link is mutual and every run may be cancelled or is over:
      `rank` covers it and counts down along the links. */
  ghost predicate Orderly(runs: Store, rank: map<string, nat>) {
    forall id :: id in rank ==>
      id in runs && !runs[id].status.IsActive() && forall k :: 0 <= k < |runs[id].children| ==> Below(runs, rank, id, TrimSpace(runs[id].children[k]))
  }

  ghost predicate Below(runs: Store, rank: map<string, nat>, id: string, c: string)
    requires id in rank
  {
    c != "" && c in rank && rank[c] < rank[id] && c in runs && runs[c].parent == id
  }

  /** A run the walk can end with: paused or cancelled, and below the root also completed or failed. */
  predicate MayEnd(status: RunStatus, root: bool) {
    status.Paused? || status.Canceled? || (!root && (status.Completed? || status.Failed?))
  }

  /** Everything being walked, `id` aside, ranks above `id`. */
  ghost predicate Above(walked: set<string>, rank: map<string, nat>, id: string) {
    id in rank && forall v :: v in walked && v != id ==> v in rank && rank[v] > rank[id]
  }

  /** The circumstances under which the walk below `id` has to succeed. */
  ghost predicate Fits(runs: Store, walked: set<string>, rank: map<string, nat>, id: string, expectedParent: string, root: bool) {
    && Orderly(runs, rank) && Above(walked, rank, id)
    && id in runs && (expectedParent == "" || runs[id].parent == expectedParent) && MayEnd(runs[id].status, root)
  }

  lemma FitsOrderly(runs: Store, walked: set<string>, rank: map<string, nat>, id: string, expectedParent: string, root: bool)
    requires Fits(runs, walked, rank, id, expectedParent, root)
    ensures Orderly(runs, rank)
  {
  }

  lemma ChildFits(runs: Store, walked: set<string>, rank: map<string, nat>, id: string, k: nat)
    requires Orderly(runs, rank) && Above(walked, rank, id) && id in runs && k < |runs[id].children|
    ensures var child := TrimSpace(runs[id].children[k]);
            child != "" && child !in walked && Fits(runs, walked, rank, child, id, false)
  {
    hide TrimSpace;
    assert Below(runs, rank, id, TrimSpace(runs[id].children[k]));
  }

  lemma OneMoreChild(children: seq<string>, k: nat, ids: seq<string>, more: seq<string>)
    requires k < |children| && AllIn(children[..k], ids) && ids <= more && TrimSpace(children[k]) in more
    ensures AllIn(children[..k + 1], more)
  {
    hide TrimSpace;
  }

  lemma SettledStaysOrderly(a: Store, b: Store, rank: map<string, nat>, id: string)
    requires Orderly(a, rank) && a.Keys == b.Keys && id in a
    requires forall o :: o in b && o != id ==> b[o] == a[o]
    requires RunEvolved(a[id], b[id]) && b[id].status.IsTerminal() && b[id].children == a[id].children
    ensures Orderly(b, rank)
  {
    hide TrimSpace;
    forall o | o in rank
      ensures forall k :: 0 <= k < |b[o].children| ==> Below(b, rank, o, TrimSpace(b[o].children[k]))
    {
      forall k | 0 <= k < |b[o].children| ensures Below(b, rank, o, TrimSpace(b[o].children[k])) {
        assert Below(a, rank, o, TrimSpace(a[o].children[k]));
      }
    }
  }

  datatype Visit = Visiting | Finished

  ghost function Walked(visits: map<string, Visit>): set<string> {
    set id | id in visits && visits[id].Visiting?
  }

  /** The visit map knows the finished runs, and only finished children lay below a run the walk cancelled. */
  ghost predicate Consistent(p: Progress, visits: map<string, Visit>) {
    && FinishedInOrder(p.runs, p.finished, p.seen)
    && (forall id :: id in p.finished <==> id in visits && visits[id].Finished?)
    && (forall id :: id in visits ==> id in p.runs)
    && (forall id :: id in p.canceled ==> CanceledWell(p, id))
  }

  ghost predicate CanceledWell(p: Progress, id: string)
    requires id in p.canceled
  {
    Since(p.runs, id, p.canceled) && p.canceled[id].status.Canceled? && AllIn(p.canceled[id].children, p.finished)
  }

  lemma VisitKnows(p: Progress, visits: map<string, Visit>, id: string)
    requires Consistent(p, visits)
    ensures id in p.finished <==> id in visits && visits[id].Finished?
    ensures id in p.finished ==> id in p.runs && p.runs[id].status.IsTerminal()
    ensures id in Walked(visits) <==> id in visits && visits[id].Visiting?
  {
  }

  lemma VisitStarts(p: Progress, visits: map<string, Visit>, id: string)
    requires Consistent(p, visits) && id in p.runs && id !in p.finished
    ensures Consistent(p, visits[id := Visiting])
    ensures Walked(visits[id := Visiting]) == Walked(visits) + {id}
  {
  }

  lemma EvolvedStaysConsistent(p: Progress, q: Progress, visits: map<string, Visit>)
    requires Consistent(p, visits) && Evolved(p.runs, q.runs) && q == p.(runs := q.runs)
    ensures Consistent(q, visits)
  {
    hide FinishedInOrder, AllIn, Since;
    EvolvedKeepsOrder(p.runs, q.runs, p.finished, p.seen);
    forall id | id in q.canceled ensures CanceledWell(q, id) {
      assert CanceledWell(p, id);
      EvolvedSince(p.runs, q.runs, id, p.canceled);
    }
  }

  function CanceledRun(run: Run): Run {
    run.(status := Canceled, revision := run.revision + 1)
  }

  lemma EvolvedRun(a: Store, b: Store, id: string)
    requires Evolved(a, b) && id in a
    ensures a.Keys == b.Keys && RunEvolved(a[id], b[id])
  {
  }

  lemma EvolvedTransitive(a: Store, b: Store, c: Store)
    requires Evolved(a, b) && Evolved(b, c)
    ensures Evolved(a, c)
  {
    hide RunEvolved;
    forall id | id in a ensures RunEvolved(a[id], c[id]) {
      RunEvolvedTransitive(a[id], b[id], c[id]);
    }
  }

  lemma RunEvolvedReflexive(a: Run)
    ensures RunEvolved(a, a)
  {
  }

  lemma CommitStaysConsistent(p: Progress, visits: map<string, Visit>, id: string)
    requires Consistent(p, visits) && id in p.runs && p.runs[id].status.Paused? && AllIn(p.runs[id].children, p.finished)
    ensures var after := CanceledRun(p.runs[id]);
            && Evolved(p.runs, p.runs[id := after])
            && Consistent(p.(runs := p.runs[id := after], canceled := p.canceled[id := after]), visits)
  {
    hide FinishedInOrder, AllIn, RunEvolved;
    var after := CanceledRun(p.runs[id]);
    var q := p.(runs := p.runs[id := after]);
    assert RunEvolved(p.runs[id], after) by { CanceledRunEvolved(p.runs[id]); }
    forall o | o in p.runs ensures RunEvolved(p.runs[o], q.runs[o]) {
      RunEvolvedReflexive(p.runs[o]);
    }
    EvolvedStaysConsistent(p, q, visits);
    var r := q.(canceled := q.canceled[id := after]);
    RunEvolvedReflexive(after);
    forall o | o in r.canceled ensures CanceledWell(r, o) {
      assert o != id ==> CanceledWell(q, o);
    }
  }

  lemma CanceledRunEvolved(run: Run)
    requires run.status.Paused?
    ensures RunEvolved(run, CanceledRun(run))
  {
  }

  datatype Attempt = Succeeded | Rejected | Again

  datatype CommitResult = Committed | Outdated | Broken

  class CancelService {
    var runs: Store
    var visits: map<string, Visit>

    /** No other writer and no failing store while the walk goes on. */
    const quiet: bool

    /** The runs the walk is through with, in order. */
    ghost var finished: seq<string>

    /** Their records at that moment. */
    ghost var seen: Store

    /** The records by which the walk itself cancelled runs. */
    ghost var canceled: Store

    constructor (runs: Store, quiet: bool)
      ensures this.runs == runs && this.quiet == quiet && visits == map[] && finished == [] && seen == map[] && canceled == map[]
    {
      this.runs, this.quiet, visits := runs, quiet, map[];
      finished, seen, canceled := [], map[], map[];
    }

    ghost function State(): Progress
      reads this
    {
      Progress(runs, finished, seen, canceled)
    }

    ghost predicate Valid()
      reads this
    {
      Consistent(State(), visits) && (quiet ==> NothingLinkedSince(State()))
    }

    /** Other writers get in. */
    method Interfere()
      modifies this`runs
      requires Valid()
      ensures Valid() && Evolved(old(runs), runs) && (quiet ==> runs == old(runs))
    {
      hide Consistent;
      if !quiet {
        var id: string := *;
        var next: Run := *;
        if id in runs && RunEvolved(runs[id], next) {
          ghost var before := State();
          runs := runs[id := next];
          EvolvedStaysConsistent(before, State(), visits);
        }
      }
    }

    method GetRun(id: string) returns (run: Option<Run>)
      modifies this`runs
      requires Valid()
      ensures Valid() && Evolved(old(runs), runs) && (quiet ==> runs == old(runs))
      ensures run.Some? ==> id in runs && runs[id] == run.value
      ensures quiet && id in runs ==> run.Some?
    {
      hide Consistent;
      Interfere();
      if id !in runs {
        return None;
      }
      var failing: bool := *;
      return if failing && !quiet then None else Some(runs[id]);
    }

    /** Commit the cancellation of a run whose children are all finished; a link added since the run was
        loaded changed the revision. A commit may take effect and still be reported as failed. */
    method CommitCanceled(id: string, run: Run) returns (result: CommitResult)
      modifies this`runs, this`canceled
      requires Valid() && id in runs && RunEvolved(run, runs[id])
      requires run.status.Paused? && AllIn(run.children, finished)
      ensures Valid() && Evolved(old(runs), runs) && old(canceled).Keys <= canceled.Keys
      ensures result.Committed? ==> id in runs && runs[id] == CanceledRun(run) && id in canceled
      ensures quiet ==> forall o :: o in runs && o != id ==> o in old(runs) && runs[o] == old(runs)[o]
      ensures quiet ==> runs[id].children == old(runs)[id].children
      ensures quiet && old(runs)[id] == run ==> result.Committed?
    {
      hide AllIn, Consistent, Evolved;
      ghost var start := State();
      Interfere();
      EvolvedRun(start.runs, runs, id);
      RunEvolvedTransitive(run, start.runs[id], runs[id]);
      if runs[id].revision != run.revision {
        return Outdated;
      }
      var failing: bool, applied: bool := *, *;
      if failing && !quiet && !applied {
        return Broken;
      }
      assert runs[id] == run;
      CommitStaysConsistent(State(), visits, id);
      EvolvedTransitive(start.runs, runs, runs[id := CanceledRun(run)]);
      runs := runs[id := CanceledRun(run)];
      canceled := canceled[id := CanceledRun(run)];
      return if failing && !quiet then Broken else Committed;
    }

    /** `run` is the record that counts; others may have linked reserved children since. */
    method MarkFinished(id: string, run: Run)
      modifies this`visits, this`finished, this`seen
      requires Valid() && id in runs && id !in finished
      requires run.status.IsTerminal() && RunEvolved(run, runs[id]) && AllIn(run.children, finished)
      requires quiet ==> run.children == runs[id].children
      ensures Valid() && finished == old(finished) + [id] && visits == old(visits)[id := Finished]
      ensures Walked(visits) == Walked(old(visits)) - {id}
    {
      hide FinishedInOrder, RunEvolved;
      ghost var before := State();
      AppendKeepsOrder(runs, finished, seen, id, run);
      visits := visits[id := Finished];
      finished := finished + [id];
      seen := seen[id := run];
      forall o | o in canceled ensures CanceledWell(State(), o) {
        assert CanceledWell(before, o);
      }
    }

    /** cancelPausedRun: the visit map decides, or the attempts that follow. On success the run and all
        below it are terminal, children before parents. Conflicting writes alone stop it only after the
        full number of attempts. */
    method Cancel(id: string, expectedParent: string, root: bool, ghost rank: map<string, nat>)
      returns (ok: bool, ghost conflicted: nat)
      modifies this
      requires Valid() && (root ==> visits == map[])
      ensures Valid() && Follows(old(State()), State(), Walked(old(visits)), quiet)
      ensures ok ==> id in finished && Walked(visits) == Walked(old(visits))
      ensures ok && root ==> id in runs && runs[id].status.Canceled?
      ensures ok || conflicted == 0 || conflicted == RETRY_LIMIT
      ensures quiet && Fits(old(runs), Walked(old(visits)), rank, id, expectedParent, root) && id !in Walked(old(visits))
              ==> ok && Orderly(runs, rank)
      decreases |runs.Keys - Walked(visits)|, 1
    {
      hide Consistent, Follows, Walked, Fits, Orderly;
      VisitKnows(State(), visits, id);
      FollowsReflexive(State(), Walked(visits), quiet);
      if id in visits {
        if Fits(runs, Walked(visits), rank, id, expectedParent, root) {
          FitsOrderly(runs, Walked(visits), rank, id, expectedParent, root);
        }
        return visits[id].Finished?, 0;
      }
      var conflicts := 0;
      ghost var walked := Walked(visits);
      assert walked - {id} == walked;
      while true
        invariant Valid() && Follows(old(State()), State(), walked, quiet) && id !in finished
        invariant Walked(visits) - {id} == walked && runs.Keys == old(runs).Keys
        invariant conflicts == 0 ==> runs == old(runs) && visits == old(visits)
        invariant quiet && Fits(old(runs), walked, rank, id, expectedParent, root) ==> conflicts == 0
        invariant conflicts < RETRY_LIMIT
        decreases RETRY_LIMIT - conflicts
      {
        ghost var before := State();
        var attempt := TryOnce(id, expectedParent, root, rank);
        FollowsTransitive(old(State()), before, State(), walked, walked, quiet);
        FollowsKeys(before, State(), walked, quiet);
        if !attempt.Again? {
          return attempt.Succeeded?, 0;
        }
        conflicts := conflicts + 1;
        if conflicts >= RETRY_LIMIT {
          return false, conflicts;
        }
      }
    }

    /** The first part of an attempt: load the run, check its parent, mark it as being walked. */
    method Enter(id: string, expectedParent: string) returns (run: Option<Run>)
      modifies this
      requires Valid() && id !in finished
      ensures Valid() && Follows(old(State()), State(), Walked(old(visits)) - {id}, quiet) && (quiet ==> runs == old(runs))
      ensures run.Some? ==> id in runs && runs[id] == run.value && Walked(visits) == Walked(old(visits)) + {id}
      ensures quiet && id in runs && (expectedParent == "" || runs[id].parent == expectedParent) ==> run.Some?
    {
      hide Consistent, Follows, Evolved, Walked;
      ghost var start := State();
      run := GetRun(id);
      EvolvedFollows(start, State(), Walked(visits) - {id}, quiet);
      if run.None? || (expectedParent != "" && run.value.parent != expectedParent) {
        return None;
      }
      VisitStarts(State(), visits, id);
      visits := visits[id := Visiting];
    }

    method TryOnce(id: string, expectedParent: string, root: bool, ghost rank: map<string, nat>) returns (attempt: Attempt)
      modifies this
      requires Valid() && id !in finished
      ensures Valid() && Follows(old(State()), State(), Walked(old(visits)) - {id}, quiet)
      ensures attempt.Succeeded? ==> id in finished && Walked(visits) == Walked(old(visits)) - {id}
      ensures attempt.Succeeded? && root ==> id in runs && runs[id].status.Canceled?
      ensures attempt.Again? ==> id !in finished && Walked(visits) - {id} == Walked(old(visits)) - {id}
      ensures quiet && Fits(old(runs), Walked(old(visits)), rank, id, expectedParent, root) ==> attempt.Succeeded? && Orderly(runs, rank)
      decreases |runs.Keys - (Walked(visits) - {id})|, 0
    {
      hide Consistent, Follows, Orderly, RunEvolved, MayEnd, AllIn, Walked;
      ghost var walked := Walked(visits) - {id};
      ghost var start := State();
      var entered := Enter(id, expectedParent);
      FollowsKeys(start, State(), walked, quiet);
      if entered.None? {
        return Rejected;
      }
      var run := entered.value;
      SmallerSet(runs.Keys - Walked(visits), runs.Keys - walked, id);
      ghost var middle := State();
      var childrenOk := CancelChildren(id, run, rank);
      FollowsTransitive(start, middle, State(), walked, Walked(old(visits)) + {id}, quiet);
      FollowsKeys(middle, State(), Walked(old(visits)) + {id}, quiet);
      FollowsRun(middle, State(), Walked(old(visits)) + {id}, quiet, id);
      if !childrenOk {
        return Rejected;
      }
      ghost var last := State();
      assert Walked(visits) - {id} == walked;
      attempt := Settle(id, run, root);
      FollowsTransitive(start, last, State(), walked, walked, quiet);
      FollowsKeys(last, State(), walked, quiet);
      if quiet && Orderly(last.runs, rank) && attempt.Succeeded? {
        FollowsRun(last, State(), walked, quiet, id);
        VisitKnows(State(), visits, id);
        SettledStaysOrderly(last.runs, runs, rank, id);
      }
    }

    /** The last part of an attempt, when the children are finished: nothing to do, not allowed, or commit. */
    method Settle(id: string, run: Run, root: bool) returns (attempt: Attempt)
      modifies this
      requires Valid() && id in runs && id in Walked(visits) && RunEvolved(run, runs[id]) && AllIn(run.children, finished)
      requires quiet ==> runs[id] == run
      ensures Valid() && Follows(old(State()), State(), Walked(old(visits)) - {id}, quiet)
      ensures attempt.Succeeded? ==> id in finished && Walked(visits) == Walked(old(visits)) - {id}
      ensures attempt.Succeeded? && root ==> id in runs && runs[id].status.Canceled?
      ensures attempt.Again? ==> id !in finished && Walked(visits) == Walked(old(visits))
      ensures quiet ==> forall o :: o in runs && o != id ==> o in old(runs) && runs[o] == old(runs)[o]
      ensures quiet ==> runs[id].children == old(runs)[id].children
      ensures quiet && old(runs)[id] == run && MayEnd(run.status, root) ==> attempt.Succeeded?
    {
      hide Consistent, AllIn;
      VisitKnows(State(), visits, id);
      if run.status.Canceled? {
        MarkFinished(id, run);
        return Succeeded;
      }
      if !run.status.Paused? {
        if !root && (run.status.Completed? || run.status.Failed?) {
          MarkFinished(id, run);
          return Succeeded;
        }
        return Rejected;
      }
      var result := CommitCanceled(id, run);
      if result.Outdated? {
        return Again;
      }
      if result.Broken? {
        return Rejected;
      }
      MarkFinished(id, runs[id]);
      return Succeeded;
    }

    method CancelChildren(id: string, run: Run, ghost rank: map<string, nat>) returns (ok: bool)
      modifies this
      requires Valid() && id in Walked(visits) && id in runs && (quiet ==> runs[id] == run)
      ensures Valid() && Follows(old(State()), State(), Walked(old(visits)), quiet)
      ensures ok ==> AllIn(run.children, finished) && Walked(visits) == Walked(old(visits))
      ensures quiet && Orderly(old(runs), rank) && Above(Walked(old(visits)), rank, id) ==> ok && Orderly(runs, rank)
      decreases |runs.Keys - Walked(visits)|, 2
    {
      hide Consistent, Follows, Orderly, Above, MayEnd, Evolved, TrimSpace, Fits;
      ghost var walked := Walked(visits);
      FollowsReflexive(State(), walked, quiet);
      for k := 0 to |run.children|
        invariant Valid() && Follows(old(State()), State(), walked, quiet) && Walked(visits) == walked
        invariant id in runs && (quiet ==> runs[id] == run) && runs.Keys == old(runs).Keys
        invariant AllIn(run.children[..k], finished)
        invariant quiet && Orderly(old(runs), rank) && Above(walked, rank, id) ==> Orderly(runs, rank)
      {
        if quiet && Orderly(runs, rank) && Above(walked, rank, id) {
          ChildFits(runs, walked, rank, id, k);
        }
        var child := TrimSpace(run.children[k]);
        if child == "" {
          return false;
        }
        ghost var before := State();
        var childOk, _ := Cancel(child, id, false, rank);
        FollowsTransitive(old(State()), before, State(), walked, walked, quiet);
        FollowsKeys(before, State(), walked, quiet);
        FollowsRun(before, State(), walked, quiet, id);
        if !childOk {
          return false;
        }
        FollowsFinished(before, State(), walked, quiet);
        OneMoreChild(run.children, k, before.finished, finished);
      }
      assert run.children[..|run.children|] == run.children;
      return true;
    }

    /** CancelPausedRun: success means the run is cancelled, and every line of descent from it leads to a run
        that is over and meets no run twice, unless it follows a link that was added to a run, out of its
        reservations, after the walk was through with that run. So the whole tree is over and free of cycles
        if nothing was linked since, and for good if nothing was reserved. Success or not, no run was
        cancelled above a linked child that was not over. Left alone, nothing is linked meanwhile and an
        orderly tree is always cancelled. */
    method CancelPausedRun(runId: string, ghost rank: map<string, nat>) returns (ok: bool)
      modifies this
      ensures Evolved(old(runs), runs)
      ensures ok ==> TrimSpace(runId) in runs && runs[TrimSpace(runId)].status.Canceled?
      ensures ok ==> TreeIsOverButForLateLinks(State(), TrimSpace(runId))
      ensures ok && NothingLinkedSince(State()) ==> TreeIsOver(runs, TrimSpace(runId))
      ensures ok && NothingReserved(State()) ==> StaysOver(runs, TrimSpace(runId))
      ensures forall id :: id in canceled ==> CanceledOverChildren(runs, id, canceled[id])
      ensures quiet ==> NothingLinkedSince(State())
      ensures quiet && Fits(old(runs), {}, rank, TrimSpace(runId), "", true) ==> ok
    {
      hide Consistent, Follows, Fits, Orderly, TrimSpace, AllIn, Evolved, NothingReserved, StaysOver, CanceledOverChildren,
        NothingLinkedSince, TreeIsOver, TreeIsOverButForLateLinks;
      visits := map[];
      finished, seen, canceled := [], map[], map[];
      FreshIsConsistent(runs);
      assert Walked(visits) == {};
      ghost var start := State();
      var id := TrimSpace(runId);
      ghost var conflicted;
      ok, conflicted := Cancel(id, "", true, rank);
      FollowsEvolved(start, State(), {}, quiet);
      CanceledHadOverChildren(State(), visits);
      if ok {
        WalkedTreeIsOver(State(), visits, id);
        NoLateLinks(State(), id);
        if NothingReserved(State()) {
          ConsistentTreeIsOver(State(), visits, id);
        }
      }
    }
  }

  /** No run the walk is through with got a link after that. */
  ghost predicate NothingLinkedSince(p: Progress) {
    forall id :: id in p.finished ==> id in p.runs && id in p.seen && p.runs[id].children == p.seen[id].children
  }

  /** A link to a child that was only reserved when the walk was through with the parent. */
  ghost predicate IsLateLink(p: Progress, id: string, child: string) {
    && id in p.finished && id in p.seen && IsChild(p.runs, id, child) && !IsChild(p.seen, id, child)
    && exists c :: c in p.seen[id].reserved && TrimSpace(c) == child
  }

  ghost predicate HasLateLink(p: Progress, line: seq<string>) {
    exists i, j :: 0 <= i && j == i + 1 && j < |line| && IsLateLink(p, line[i], line[j])
  }

  ghost predicate TreeIsOverButForLateLinks(p: Progress, id: string) {
    forall line :: IsLine(p.runs, line) && line[0] == id ==>
      HasLateLink(p, line) || (IsOver(p.runs, line[|line| - 1]) && Distinct(line))
  }

  /** No run the walk is through with had a child reserved at that moment. */
  ghost predicate NothingReserved(p: Progress) {
    forall id :: id in p.finished ==> id in p.seen && p.seen[id].reserved == {}
  }

  /** The children the run had when it was cancelled are over. */
  ghost predicate CanceledOverChildren(runs: Store, id: string, run: Run) {
    && id in runs && runs[id].status.Canceled? && run.children <= runs[id].children
    && forall k :: 0 <= k < |run.children| ==> IsOver(runs, TrimSpace(run.children[k]))
  }

  lemma FreshIsConsistent(runs: Store)
    ensures Consistent(Progress(runs, [], map[], map[]), map[]) && NothingLinkedSince(Progress(runs, [], map[], map[]))
  {
  }

  lemma FollowsEvolved(a: Progress, b: Progress, walked: set<string>, quiet: bool)
    requires Follows(a, b, walked, quiet)
    ensures Evolved(a.runs, b.runs)
  {
  }

  lemma ConsistentTreeIsOver(p: Progress, visits: map<string, Visit>, id: string)
    requires Consistent(p, visits) && NothingReserved(p) && id in p.finished
    ensures StaysOver(p.runs, id)
  {
    hide AllIn, StaysOver, PossibleTreeIsOver, ChildrenFirst;
    UnreservedOrder(p.runs, p.finished, p.seen);
    FinishedTreeIsOver(p.runs, p.finished, id);
    StaysOverExactly(p.runs, id);
  }

  /** A link of a finished run is one it had by then, or a late one. */
  lemma LinkSeenOrLate(p: Progress, id: string, child: string)
    requires FinishedInOrder(p.runs, p.finished, p.seen) && id in p.finished && IsChild(p.runs, id, child)
    ensures IsChild(p.seen, id, child) || IsLateLink(p, id, child)
  {
    hide TrimSpace, AllIn;
    assert Since(p.runs, id, p.seen) && p.seen[id].status.IsTerminal();
    var now, before := p.runs[id].children, p.seen[id].children;
    var k :| 0 <= k < |now| && TrimSpace(now[k]) == child;
    if k < |before| {
      assert before[k] == now[k];
    } else {
      assert now[k] in now[|before|..];
    }
  }

  /** The records the runs were finished by, without their reservations. */
  ghost function Unreserved(seen: Store): Store {
    map id | id in seen :: seen[id].(reserved := {})
  }

  lemma SeenOrder(p: Progress)
    requires FinishedInOrder(p.runs, p.finished, p.seen)
    ensures ChildrenFirst(Unreserved(p.seen), p.finished)
  {
    hide AllIn;
  }

  /** Up to its first late link a line of descent follows links the walk has seen. */
  lemma {:induction false} SeenLine(p: Progress, line: seq<string>, k: nat)
    requires FinishedInOrder(p.runs, p.finished, p.seen) && IsLine(p.runs, line) && line[0] in p.finished
    requires k < |line| && !HasLateLink(p, line)
    ensures IsPossibleLine(Unreserved(p.seen), line[..k + 1]) && line[k] in p.finished
  {
    hide FinishedInOrder, IsChild, IsLateLink;
    if k > 0 {
      SeenLine(p, line, k - 1);
      var parent, child := line[k - 1], line[k];
      assert IsChild(p.runs, parent, child);
      LinkSeenOrLate(p, parent, child);
      assert !IsLateLink(p, parent, child);
      SeenChild(p.seen, parent, child);
      LineGrows(Unreserved(p.seen), line, k);
      SeenOrder(p);
      LineIsOver(Unreserved(p.seen), p.finished, line[..k + 1]);
    }
  }

  lemma SeenChild(seen: Store, id: string, child: string)
    requires IsChild(seen, id, child)
    ensures IsPossibleChild(Unreserved(seen), id, child)
  {
    hide TrimSpace;
    assert Unreserved(seen)[id].children == seen[id].children;
  }

  lemma LineGrows(runs: Store, line: seq<string>, k: nat)
    requires 0 < k < |line| && IsPossibleLine(runs, line[..k]) && IsPossibleChild(runs, line[k - 1], line[k])
    ensures IsPossibleLine(runs, line[..k + 1])
  {
    hide IsPossibleChild;
    var shorter, part := line[..k], line[..k + 1];
    forall i, j | 0 <= i && j == i + 1 && j < |part| ensures IsPossibleChild(runs, part[i], part[j]) {
      if j < k {
        assert IsPossibleChild(runs, shorter[i], shorter[j]);
      }
    }
  }

  lemma WalkedTreeIsOver(p: Progress, visits: map<string, Visit>, id: string)
    requires Consistent(p, visits) && id in p.finished
    ensures TreeIsOverButForLateLinks(p, id)
  {
    hide FinishedInOrder, IsChild, HasLateLink, AllIn, ChildrenFirst, IsPossibleChild;
    forall line | IsLine(p.runs, line) && line[0] == id && !HasLateLink(p, line)
      ensures IsOver(p.runs, line[|line| - 1]) && Distinct(line)
    {
      SeenLine(p, line, |line| - 1);
      assert line[..|line| - 1 + 1] == line;
      SeenOrder(p);
      LineIsDistinct(Unreserved(p.seen), p.finished, line);
      VisitKnows(p, visits, line[|line| - 1]);
    }
  }

  lemma NoLateLinks(p: Progress, id: string)
    requires TreeIsOverButForLateLinks(p, id)
    ensures NothingLinkedSince(p) ==> TreeIsOver(p.runs, id)
  {
    hide TrimSpace, IsLine;
    if NothingLinkedSince(p) {
      forall a, b ensures !IsLateLink(p, a, b) {
      }
    }
  }

  lemma CanceledHadOverChildren(p: Progress, visits: map<string, Visit>)
    requires Consistent(p, visits)
    ensures forall id :: id in p.canceled ==> CanceledOverChildren(p.runs, id, p.canceled[id])
  {
    hide TrimSpace, FinishedInOrder;
    forall id | id in p.canceled ensures CanceledOverChildren(p.runs, id, p.canceled[id]) {
      assert CanceledWell(p, id);
      forall k | 0 <= k < |p.canceled[id].children| ensures IsOver(p.runs, TrimSpace(p.canceled[id].children[k])) {
        VisitKnows(p, visits, TrimSpace(p.canceled[id].children[k]));
      }
    }
  }

  // ----- what the order of finishing means -----

  predicate IsOver(runs: Store, id: string) {
    id in runs && runs[id].status.IsTerminal()
  }

  ghost predicate IsChild(runs: Store, id: string, child: string) {
    id in runs && exists k :: 0 <= k < |runs[id].children| && TrimSpace(runs[id].children[k]) == child
  }

  /** A line of descent. */
  ghost predicate IsLine(runs: Store, line: seq<string>) {
    line != [] && forall i, j :: 0 <= i && j == i + 1 && j < |line| ==> IsChild(runs, line[i], line[j])
  }

  /** Every line of descent from `id` leads to runs that are over and meets no run twice: there is no
      cycle anywhere below `id`. */
  ghost predicate TreeIsOver(runs: Store, id: string) {
    forall line :: IsLine(runs, line) && line[0] == id ==> IsOver(runs, line[|line| - 1]) && Distinct(line)
  }

  /** Whatever others do from now on. */
  ghost predicate StaysOver(runs: Store, id: string) {
    forall later :: Evolved(runs, later) ==> TreeIsOver(later, id)
  }

  /** A child, linked or reserved. */
  ghost predicate IsPossibleChild(runs: Store, id: string, child: string) {
    IsChild(runs, id, child) || (id in runs && exists c :: c in runs[id].reserved && TrimSpace(c) == child)
  }

  ghost predicate IsPossibleLine(runs: Store, line: seq<string>) {
    line != [] && forall i, j :: 0 <= i && j == i + 1 && j < |line| ==> IsPossibleChild(runs, line[i], line[j])
  }

  ghost predicate PossibleTreeIsOver(runs: Store, id: string) {
    forall line :: IsPossibleLine(runs, line) && line[0] == id ==> IsOver(runs, line[|line| - 1]) && Distinct(line)
  }

  /** Every finished run is terminal, has nothing reserved, and comes after all its children. */
  ghost predicate ChildrenFirst(runs: Store, finished: seq<string>) {
    forall i :: 0 <= i < |finished| ==>
      && finished[i] in runs && runs[finished[i]].status.IsTerminal() && runs[finished[i]].reserved == {}
      && AllIn(runs[finished[i]].children, finished[..i])
  }

  lemma UnreservedOrder(runs: Store, finished: seq<string>, seen: Store)
    requires FinishedInOrder(runs, finished, seen)
    requires forall id :: id in finished ==> id in seen && seen[id].reserved == {}
    ensures ChildrenFirst(runs, finished)
  {
    hide AllIn;
    forall i | 0 <= i < |finished|
      ensures runs[finished[i]].reserved == {} && runs[finished[i]].children == seen[finished[i]].children
    {
      NoNewLinks(seen[finished[i]], runs[finished[i]]);
    }
  }

  lemma {:induction false} DescendantsCameEarlier(runs: Store, finished: seq<string>, line: seq<string>, i: nat) returns (j: nat)
    requires ChildrenFirst(runs, finished) && IsPossibleLine(runs, line) && i < |finished| && finished[i] == line[0]
    ensures j <= i && finished[j] == line[|line| - 1] && (|line| > 1 ==> j < i)
    decreases |line|
  {
    if |line| == 1 {
      return i;
    }
    var parent, child := line[0], line[1];
    assert IsPossibleChild(runs, parent, child);
    assert child in finished[..i];
    var c :| 0 <= c < i && finished[c] == child;
    j := DescendantsCameEarlier(runs, finished, line[1..], c);
  }

  lemma PartOfLine(runs: Store, line: seq<string>, i: nat, j: nat)
    requires IsPossibleLine(runs, line) && i <= j < |line|
    ensures IsPossibleLine(runs, line[i..j + 1])
  {
    hide IsPossibleChild;
    var part := line[i..j + 1];
    forall a, b | 0 <= a && b == a + 1 && b < |part| ensures IsPossibleChild(runs, part[a], part[b]) {
      var parent, child := line[i + a], line[i + b];
      assert IsPossibleChild(runs, parent, child);
    }
  }

  /** Among finished runs nobody is their own descendant. */
  lemma NoReturn(runs: Store, finished: seq<string>, line: seq<string>)
    requires ChildrenFirst(runs, finished) && IsPossibleLine(runs, line) && line[0] in finished && |line| > 1
    ensures line[|line| - 1] != line[0]
  {
    hide ChildrenFirst, IsPossibleChild;
    var first := FirstIndex(finished, line[0]);
    var j := DescendantsCameEarlier(runs, finished, line, first);
    assert finished[j] in finished[..first];
  }

  lemma FinishedTreeIsOver(runs: Store, finished: seq<string>, id: string)
    requires ChildrenFirst(runs, finished) && id in finished
    ensures PossibleTreeIsOver(runs, id)
  {
    hide ChildrenFirst, IsPossibleChild;
    forall line | IsPossibleLine(runs, line) && line[0] == id
      ensures IsOver(runs, line[|line| - 1]) && Distinct(line)
    {
      LineIsOver(runs, finished, line);
      LineIsDistinct(runs, finished, line);
    }
  }

  lemma LineIsDistinct(runs: Store, finished: seq<string>, line: seq<string>)
    requires ChildrenFirst(runs, finished) && IsPossibleLine(runs, line) && line[0] in finished
    ensures Distinct(line)
  {
    hide ChildrenFirst, IsPossibleChild;
    forall i, j | 0 <= i < j < |line| ensures line[i] != line[j] {
      PartOfLine(runs, line, 0, i);
      LineIsOver(runs, finished, line[0..i + 1]);
      PartOfLine(runs, line, i, j);
      NoReturn(runs, finished, line[i..j + 1]);
    }
  }

  lemma LineIsOver(runs: Store, finished: seq<string>, line: seq<string>)
    requires ChildrenFirst(runs, finished) && IsPossibleLine(runs, line) && line[0] in finished
    ensures line[|line| - 1] in finished && IsOver(runs, line[|line| - 1])
  {
    hide IsPossibleChild;
    var first := FirstIndex(finished, line[0]);
    var j := DescendantsCameEarlier(runs, finished, line, first);
  }

  // ----- and reserved children -----

  /** Everything that is reserved gets linked. */
  ghost function AllLinked(runs: Store): Store {
    map id | id in runs :: LinkedUp(runs[id])
  }

  ghost function LinkedUp(run: Run): Run {
    if run.reserved == {} then run
    else run.(children := run.children + SortedIds(run.reserved), reserved := {}, revision := run.revision + 1)
  }

  lemma LinkedUpEvolved(run: Run)
    ensures RunEvolved(run, LinkedUp(run))
  {
    hide SortedIds;
    var next := LinkedUp(run);
    assert run.reserved != {} ==> next.children[|run.children|..] == SortedIds(run.reserved);
  }

  lemma PossibleIsLinked(runs: Store, id: string, child: string)
    requires IsPossibleChild(runs, id, child)
    ensures IsChild(AllLinked(runs), id, child)
  {
    hide SortedIds, TrimSpace;
    var run, next := runs[id], AllLinked(runs)[id];
    if IsChild(runs, id, child) {
      var k :| 0 <= k < |run.children| && TrimSpace(run.children[k]) == child;
      assert next.children[k] == run.children[k];
    } else {
      var c :| c in run.reserved && TrimSpace(c) == child;
      assert c in SortedIds(run.reserved);
      var k :| 0 <= k < |SortedIds(run.reserved)| && SortedIds(run.reserved)[k] == c;
      assert next.children[|run.children| + k] == c;
    }
  }

  /** What can be linked below a run that is over was linked or reserved before. */
  lemma LaterChild(runs: Store, later: Store, id: string, child: string)
    requires Evolved(runs, later) && IsOver(runs, id) && IsChild(later, id, child)
    ensures IsPossibleChild(runs, id, child)
  {
    hide TrimSpace;
    var k :| 0 <= k < |later[id].children| && TrimSpace(later[id].children[k]) == child;
    assert RunEvolved(runs[id], later[id]);
    if k < |runs[id].children| {
      assert runs[id].children[k] == later[id].children[k];
    } else {
      assert later[id].children[k] in later[id].children[|runs[id].children|..];
    }
  }

  lemma {:induction false} LaterLine(runs: Store, later: Store, line: seq<string>, k: nat)
    requires Evolved(runs, later) && IsLine(later, line) && PossibleTreeIsOver(runs, line[0]) && k < |line|
    ensures IsPossibleLine(runs, line[..k + 1])
  {
    hide IsChild, IsPossibleChild, Evolved;
    if k > 0 {
      LaterLine(runs, later, line, k - 1);
      var shorter := line[..k];
      assert IsOver(runs, shorter[k - 1]);
      var parent, child := line[k - 1], line[k];
      assert IsChild(later, parent, child);
      LaterChild(runs, later, parent, child);
      LineGrows(runs, line, k);
    }
  }

  /** A tree is over for good exactly if it is over with everything counted that its runs have reserved. */
  lemma StaysOverExactly(runs: Store, id: string)
    ensures StaysOver(runs, id) <==> PossibleTreeIsOver(runs, id)
  {
    hide IsChild, IsPossibleChild, Evolved;
    if PossibleTreeIsOver(runs, id) {
      forall later, line | Evolved(runs, later) && IsLine(later, line) && line[0] == id
        ensures IsOver(later, line[|line| - 1]) && Distinct(line)
      {
        LaterLine(runs, later, line, |line| - 1);
        assert line[..|line| - 1 + 1] == line;
        OverStays(runs, later, line[|line| - 1]);
      }
    }
    if StaysOver(runs, id) {
      var later := AllLinked(runs);
      AllLinkedEvolved(runs);
      forall line | IsPossibleLine(runs, line) && line[0] == id ensures IsOver(runs, line[|line| - 1]) && Distinct(line) {
        LinkedLine(runs, line);
      }
    }
  }

  lemma OverStays(runs: Store, later: Store, id: string)
    requires Evolved(runs, later) && IsOver(runs, id)
    ensures IsOver(later, id)
  {
  }

  lemma AllLinkedEvolved(runs: Store)
    ensures Evolved(runs, AllLinked(runs))
    ensures forall id :: IsOver(AllLinked(runs), id) ==> IsOver(runs, id)
  {
    hide RunEvolved, SortedIds;
    forall id | id in runs ensures RunEvolved(runs[id], AllLinked(runs)[id]) {
      LinkedUpEvolved(runs[id]);
    }
  }

  lemma LinkedLine(runs: Store, line: seq<string>)
    requires IsPossibleLine(runs, line)
    ensures IsLine(AllLinked(runs), line)
  {
    hide IsPossibleChild, IsChild, AllLinked;
    forall i, j | 0 <= i && j == i + 1 && j < |line| ensures IsChild(AllLinked(runs), line[i], line[j]) {
      var parent, child := line[i], line[j];
      assert IsPossibleChild(runs, parent, child);
      PossibleIsLinked(runs, parent, child);
    }
  }

  /** A child reserved by a cancelled run that is not over itself can still be linked: linking does not look
      at the status of the parent. */
  lemma ReservedChildReopens(runs: Store, id: string, c: string)
    requires id in runs && runs[id].status.Canceled? && c in runs[id].reserved && !IsOver(runs, TrimSpace(c))
    ensures !StaysOver(runs, id)
  {
    hide StaysOver, TrimSpace;
    var line := [id, TrimSpace(c)];
    assert IsPossibleChild(runs, id, TrimSpace(c));
    assert IsPossibleLine(runs, line) && line[0] == id;
    StaysOverExactly(runs, id);
  }

  lemma EvolvedFollows(a: Progress, b: Progress, walked: set<string>, quiet: bool)
    requires Evolved(a.runs, b.runs) && (quiet ==> a.runs == b.runs) && b == a.(runs := b.runs)
    ensures Follows(a, b, walked, quiet)
  {
  }

  lemma FollowsKeys(a: Progress, b: Progress, walked: set<string>, quiet: bool)
    requires Follows(a, b, walked, quiet)
    ensures a.runs.Keys == b.runs.Keys
  {
  }

  lemma FollowsFinished(a: Progress, b: Progress, walked: set<string>, quiet: bool)
    requires Follows(a, b, walked, quiet)
    ensures a.finished <= b.finished
  {
  }

  lemma FollowsRun(a: Progress, b: Progress, walked: set<string>, quiet: bool, id: string)
    requires Follows(a, b, walked, quiet) && id in a.runs
    ensures id in b.runs && RunEvolved(a.runs[id], b.runs[id])
    ensures quiet && id in walked ==> b.runs[id] == a.runs[id]
  {
  }

  lemma SmallerSet<T>(a: set<T>, b: set<T>, x: T)
    requires a <= b && x in b && x !in a
    ensures |a| < |b|
  {
    assert a <= b - {x};
    SubsetSize(a, b - {x});
  }
}
