/** Resolving the unknown effect of a failed step: at most one compensation, whatever calls race,
    replay or crash. */
module Effects {
  import opened Common

  // ----- records and validators -----

  datatype Action = ConfirmNotApplied | Compensate

  datatype ResolutionStatus = Intent | Succeeded | Unknown

  /** What the caller sends; a stored resolution keeps it unchanged. */
  datatype Request = Request(id: string, action: Action, actor: string, reason: string)

  datatype Resolution = Resolution(
    request: Request, attemptId: nat, status: ResolutionStatus, error: string, resolved: bool)

  datatype EffectStatus = EffectIntent | EffectSucceeded | EffectFailed | EffectUnknown | EffectNotApplied | EffectCompensated

  datatype StepRecord = StepRecord(effect: EffectStatus, resolution: Option<Resolution>)

  /** validateEffectResolution */
  predicate ValidResolution(step: StepRecord) {
    match step.resolution
    case None => !step.effect.EffectNotApplied? && !step.effect.EffectCompensated?
    case Some(r) =>
      && r.request.actor != "" && r.request.reason != ""
      && match r.status
         case Intent => !r.resolved && step.effect.EffectUnknown?
         case Unknown => r.resolved && r.error != "" && step.effect.EffectUnknown?
         case Succeeded =>
           && r.resolved && r.error == ""
           && (r.request.action.ConfirmNotApplied? ==> step.effect.EffectNotApplied?)
           && (r.request.action.Compensate? ==> step.effect.EffectCompensated?)
  }

  /** validateStepEffectTransition: a resolution starts as an intent on an unknown effect, keeps its
      identity, and is final once it succeeded or became unknown. */
  predicate StepTransitionAccepted(existing: StepRecord, next: StepRecord) {
    && ValidResolution(next)
    && match (existing.resolution, next.resolution)
       case (None, None) => true
       case (None, Some(r)) => existing.effect.EffectUnknown? && r.status.Intent?
       case (Some(_), None) => false
       case (Some(p), Some(r)) =>
         && p.request == r.request && p.attemptId == r.attemptId
         && (p.status.Intent? || (p == r && existing.effect == next.effect))
  }

  /** A resolution without an actor or a reason, or whose effect, error or mark does not go with its status,
      is not stored; nor is an effect marked not applied or compensated without one. */
  lemma BadResolutionIsRefused(existing: StepRecord, next: StepRecord)
    requires match next.resolution
             case None => next.effect.EffectNotApplied? || next.effect.EffectCompensated?
             case Some(r) =>
               || r.request.actor == "" || r.request.reason == ""
               || (!r.status.Succeeded? && !next.effect.EffectUnknown?)
               || (r.resolved <==> r.status.Intent?)
               || (r.status.Unknown? && r.error == "") || (r.status.Succeeded? && r.error != "")
               || (r.status.Succeeded? && r.request.action.Compensate? && !next.effect.EffectCompensated?)
               || (r.status.Succeeded? && r.request.action.ConfirmNotApplied? && !next.effect.EffectNotApplied?)
    ensures !StepTransitionAccepted(existing, next)
  {
  }

  /** A resolution starts as an intent on an unknown effect, is never dropped, and once decided stays as it is. */
  lemma BadStepIsRefused(existing: StepRecord, next: StepRecord)
    requires match (existing.resolution, next.resolution)
             case (None, None) => false
             case (None, Some(r)) => !existing.effect.EffectUnknown? || !r.status.Intent?
             case (Some(_), None) => true
             case (Some(p), Some(r)) => p.request != r.request || p.attemptId != r.attemptId || (!p.status.Intent? && next != existing)
    ensures !StepTransitionAccepted(existing, next)
  {
  }

  // ----- the protocol -----

  /** Journal entries for the compensation key of one resolution. */
  datatype Event = Event(id: string, status: ResolutionStatus)

  /** Where a call of ResolveEffect stands; `rev` is the revision of the run it works with. */
  datatype Call =
    | Reading(request: Request, rev: nat)                      // run read, step not yet
    | Fresh(request: Request, rev: nat)                        // saw no resolution
    | Starting(request: Request, rev: nat)                     // holds the claim, about to store the intent
    | Replaying(request: Request, rev: nat, seen: Resolution)  // saw a resolution
    | Recovering(request: Request, rev: nat)                   // holds the claim on a stored intent
    | Executing(request: Request, rev: nat)                    // holds the claim, about to journal the intent
    | Invoking(request: Request, rev: nat)                     // journaled, about to compensate
    | Reporting(request: Request, rev: nat, ok: bool)          // compensated or failed to
    | Completing(request: Request, rev: nat)                   // about to store success
    | GivingUp(request: Request, rev: nat)                     // about to store that the outcome is unknown

  /** Calls that passed claimEffectResolution and have not released it. */
  predicate Holds(c: Call) {
    !c.Reading? && !c.Fresh? && !c.Replaying?
  }

  /** One step record, its run's revision, the journal and one runner's memory. The last two fields
      count what the outside world saw. */
  datatype System = System(
    step: StepRecord, revision: nat, journal: seq<Event>, claim: Option<nat>, calls: map<nat, Call>,
    invocations: nat, succeeded: bool)

  datatype Step =
    | Begin(p: nat, request: Request)
    | ReadStep(p: nat)
    | Claim(p: nat)
    | StoreIntent(p: nat, attemptId: nat, acknowledged: bool)
    | Recover(p: nat)
    | JournalIntent(p: nat, stored: bool, acknowledged: bool)
    | Invoke(p: nat, ok: bool)
    | JournalOutcome(p: nat, stored: bool, acknowledged: bool)
    | StoreSuccess(p: nat, accepted: bool)
    | StoreUnknown(p: nat, accepted: bool, error: string)
    | Return(p: nat)
    | OtherRunWrite
    | Crash

  /** The journaled status of a resolution's compensation: the latest entry counts. */
  function Journaled(journal: seq<Event>, id: string): Option<ResolutionStatus> {
    if journal == [] then None
    else if journal[|journal| - 1].id == id then Some(journal[|journal| - 1].status)
    else Journaled(journal[..|journal| - 1], id)
  }

  function Intended(request: Request, attemptId: nat): StepRecord {
    StepRecord(EffectUnknown, Some(Resolution(request, attemptId, Intent, "", false)))
  }

  function SucceededStep(step: StepRecord): StepRecord
    requires step.resolution.Some?
  {
    var r := step.resolution.value;
    StepRecord(if r.request.action.Compensate? then EffectCompensated else EffectNotApplied,
               Some(r.(status := Succeeded, resolved := true)))
  }

  function UnknownStep(step: StepRecord, error: string): StepRecord
    requires step.resolution.Some?
  {
    step.(resolution := Some(step.resolution.value.(status := Unknown, resolved := true, error := error)))
  }

  /** A commit that names the revision it was prepared for. */
  predicate Current(s: System, c: Call) {
    c.rev == s.revision
  }

  predicate Enabled(s: System, step: Step) {
    match step
    case Begin(p, _) => p !in s.calls
    case ReadStep(p) => p in s.calls && s.calls[p].Reading?
    case Claim(p) =>
      && p in s.calls && s.claim.None?
      && (|| s.calls[p].Fresh?
          || (s.calls[p].Replaying? && s.calls[p].seen.request == s.calls[p].request && s.calls[p].seen.status.Intent?))
    case StoreIntent(p, attemptId, _) =>
      && p in s.calls && s.calls[p].Starting? && Current(s, s.calls[p])
      && StepTransitionAccepted(s.step, Intended(s.calls[p].request, attemptId))
    case Recover(p) => p in s.calls && s.calls[p].Recovering?
    case JournalIntent(p, stored, acknowledged) =>
      && p in s.calls && s.calls[p].Executing?
      && (stored ==> Current(s, s.calls[p])) && (acknowledged ==> stored)
    case Invoke(p, _) => p in s.calls && s.calls[p].Invoking?
    case JournalOutcome(p, stored, acknowledged) =>
      && p in s.calls && s.calls[p].Reporting?
      && (stored ==> Current(s, s.calls[p])) && (acknowledged ==> stored)
    case StoreSuccess(p, accepted) =>
      && p in s.calls && s.calls[p].Completing?
      && (accepted ==> Current(s, s.calls[p]) && s.step.resolution.Some?
                       && StepTransitionAccepted(s.step, SucceededStep(s.step)))
    case StoreUnknown(p, accepted, error) =>
      && p in s.calls && s.calls[p].GivingUp?
      && (accepted ==> Current(s, s.calls[p]) && s.step.resolution.Some?
                       && StepTransitionAccepted(s.step, UnknownStep(s.step, error)))
    case Return(p) => p in s.calls
    case OtherRunWrite => true
    case Crash => true
  }

  /** The call is over; a claim it held is released. */
  function Ended(s: System, p: nat): System {
    s.(calls := s.calls - {p}, claim := if s.claim == Some(p) then None else s.claim)
  }

  function Goto(s: System, p: nat, c: Call): System {
    s.(calls := s.calls[p := c])
  }

  function Apply(s: System, step: Step): System
    requires Enabled(s, step)
  {
    match step
    case Begin(p, request) => Goto(s, p, Reading(request, s.revision))
    case ReadStep(p) =>
      var c := s.calls[p];
      Goto(s, p, match s.step.resolution
                 case None => Fresh(c.request, c.rev)
                 case Some(r) => Replaying(c.request, c.rev, r))
    case Claim(p) =>
      var c := s.calls[p];
      Goto(s, p, if c.Fresh? then Starting(c.request, c.rev) else Recovering(c.request, c.rev)).(claim := Some(p))
    case StoreIntent(p, attemptId, acknowledged) =>
      var c := s.calls[p];
      var next := s.(step := Intended(c.request, attemptId), revision := s.revision + 1);
      if !acknowledged then Ended(next, p)
      else if c.request.action.Compensate? then Goto(next, p, Executing(c.request, next.revision))
      else Goto(next, p, Completing(c.request, next.revision))
    case Recover(p) =>
      var c := s.calls[p];
      Goto(s, p,
           if c.request.action.ConfirmNotApplied? then Completing(c.request, c.rev)
           else match Journaled(s.journal, c.request.id)
                case None => Executing(c.request, c.rev)
                case Some(Succeeded) => Completing(c.request, c.rev)
                case Some(_) => GivingUp(c.request, c.rev))
    case JournalIntent(p, stored, acknowledged) =>
      var c := s.calls[p];
      var next := if stored then s.(journal := s.journal + [Event(c.request.id, Intent)]) else s;
      Goto(next, p, if acknowledged then Invoking(c.request, c.rev) else GivingUp(c.request, c.rev))
    case Invoke(p, ok) =>
      var c := s.calls[p];
      Goto(s, p, Reporting(c.request, c.rev, ok)).(invocations := s.invocations + 1, succeeded := s.succeeded || ok)
    case JournalOutcome(p, stored, acknowledged) =>
      var c := s.calls[p];
      var next := if stored then s.(journal := s.journal + [Event(c.request.id, if c.ok then Succeeded else Unknown)]) else s;
      Goto(next, p, if c.ok && acknowledged then Completing(c.request, c.rev) else GivingUp(c.request, c.rev))
    case StoreSuccess(p, accepted) =>
      Ended(if accepted then s.(step := SucceededStep(s.step), revision := s.revision + 1) else s, p)
    case StoreUnknown(p, accepted, error) =>
      Ended(if accepted then s.(step := UnknownStep(s.step, error)) else s, p)
    case Return(p) => Ended(s, p)
    case OtherRunWrite => s.(revision := s.revision + 1)
    case Crash => s.(calls := map[], claim := None)
  }

  // ----- the invariant -----

  /** The stored resolution is the one this request asked for. */
  ghost predicate Mine(s: System, request: Request) {
    s.step.resolution.Some? && s.step.resolution.value.request == request
  }

  ghost predicate CallInv(s: System, p: nat, c: Call) {
    && (Holds(c) <==> s.claim == Some(p))
    && c.rev <= s.revision
    && ((c.Fresh? || c.Starting?) && c.rev == s.revision ==> s.step.resolution.None?)
    && (c.Replaying? ==> Mine(s, c.seen.request))
    && (Holds(c) && !c.Starting? ==> Mine(s, c.request))
    && (c.Executing? || c.Invoking? || c.Reporting? ==> c.request.action.Compensate?)
    && (c.Executing? ==> s.journal == [])
    && (c.Executing? || c.Invoking? ==> s.invocations == 0)
    && (c.Invoking? || c.Reporting? ==> s.journal != [])
    && (c.Reporting? && c.ok ==> s.succeeded)
    && (c.Completing? && c.request.action.Compensate? ==> s.succeeded)
  }

  ghost predicate StoreInv(s: System) {
    && ValidResolution(s.step)
    && (s.step.resolution.None? ==> s.journal == [])
    && (forall i :: 0 <= i < |s.journal| ==> s.journal[i].id == s.step.resolution.value.request.id)
    && (forall i :: 0 <= i < |s.journal| && s.journal[i].status.Succeeded? ==> s.succeeded)
    && (s.journal == [] ==> s.invocations == 0)
    && s.invocations <= 1
    && (s.succeeded ==> s.invocations == 1)
    && (s.step.effect.EffectCompensated? ==> s.succeeded)
  }

  ghost predicate Inv(s: System) {
    && StoreInv(s)
    && (s.claim.Some? ==> s.claim.value in s.calls)
    && forall p :: p in s.calls ==> CallInv(s, p, s.calls[p])
  }

  lemma StepKeepsStoreInv(s: System, step: Step)
    requires Inv(s) && Enabled(s, step)
    ensures StoreInv(Apply(s, step))
  {
  }

  /** The call a step belongs to. */
  function Actor(step: Step): Option<nat> {
    if step.OtherRunWrite? || step.Crash? then None else Some(step.p)
  }

  lemma ActorKeepsCallInv(s: System, step: Step, q: nat)
    requires Inv(s) && Enabled(s, step) && Actor(step) == Some(q) && q in Apply(s, step).calls
    ensures CallInv(Apply(s, step), q, Apply(s, step).calls[q])
  {
    hide ValidResolution;
    assert q in s.calls ==> CallInv(s, q, s.calls[q]);
  }

  /** What a step of another call may do to the state a call depends on, if that call does not hold the
      claim: nothing stored is taken back, and storing an intent counts the revision up. */
  ghost predicate Bystander(s: System, t: System, q: nat) {
    && s.claim != Some(q) && t.claim != Some(q)
    && s.revision <= t.revision
    && (s.step.resolution.Some? ==> t.step.resolution.Some? && t.step.resolution.value.request == s.step.resolution.value.request)
    && (s.step.resolution.None? && s.revision == t.revision ==> t.step.resolution.None?)
  }

  lemma BystanderKeepsCallInv(s: System, t: System, q: nat, c: Call)
    requires CallInv(s, q, c) && Bystander(s, t, q)
    ensures CallInv(t, q, c)
  {
  }

  /** A step changes little for a call that keeps the claim: the others may only read and come or go. */
  ghost predicate SameForHolder(s: System, t: System, q: nat) {
    && t.claim == s.claim == Some(q)
    && s.revision <= t.revision
    && t.step == s.step && t.journal == s.journal && t.invocations == s.invocations && t.succeeded == s.succeeded
  }

  lemma HolderKeepsCallInv(s: System, t: System, q: nat, c: Call)
    requires CallInv(s, q, c) && SameForHolder(s, t, q)
    ensures CallInv(t, q, c)
  {
  }

  lemma OthersSee(s: System, step: Step, q: nat)
    requires Inv(s) && Enabled(s, step) && Actor(step) != Some(q) && q in Apply(s, step).calls
    ensures q in s.calls && Apply(s, step).calls[q] == s.calls[q]
    ensures Bystander(s, Apply(s, step), q) || SameForHolder(s, Apply(s, step), q)
  {
    hide ValidResolution, Journaled;
    if Actor(step).Some? && Actor(step).value in s.calls {
      assert CallInv(s, Actor(step).value, s.calls[Actor(step).value]);
    }
  }

  /** The claim keeps the other calls out: whatever a step changes, they had no say in it. */
  lemma OthersKeepCallInv(s: System, step: Step, q: nat)
    requires Inv(s) && Enabled(s, step) && Actor(step) != Some(q) && q in Apply(s, step).calls
    ensures CallInv(Apply(s, step), q, Apply(s, step).calls[q])
  {
    hide CallInv, Bystander, SameForHolder, Enabled, Apply;
    OthersSee(s, step, q);
    assert CallInv(s, q, s.calls[q]);
    if Bystander(s, Apply(s, step), q) {
      BystanderKeepsCallInv(s, Apply(s, step), q, s.calls[q]);
    } else {
      HolderKeepsCallInv(s, Apply(s, step), q, s.calls[q]);
    }
  }

  lemma StepKeepsInv(s: System, step: Step)
    requires Inv(s) && Enabled(s, step)
    ensures Inv(Apply(s, step))
  {
    StepKeepsStoreInv(s, step);
    forall q | q in Apply(s, step).calls
      ensures CallInv(Apply(s, step), q, Apply(s, step).calls[q])
    {
      if Actor(step) == Some(q) { ActorKeepsCallInv(s, step, q); } else { OthersKeepCallInv(s, step, q); }
    }
    hide StoreInv, CallInv, Enabled;
  }

  ghost predicate IsExecution(states: seq<System>, steps: seq<Step>) {
    && |states| == |steps| + 1
    && states[0].step == StepRecord(EffectUnknown, None)
    && states[0].journal == [] && states[0].calls == map[] && states[0].claim == None
    && states[0].invocations == 0 && !states[0].succeeded
    && forall i, j :: 0 <= i && j == i + 1 && j < |states| ==> Enabled(states[i], steps[i]) && states[j] == Apply(states[i], steps[i])
  }

  lemma {:induction false} ExecutionKeepsInv(states: seq<System>, steps: seq<Step>, k: nat)
    requires IsExecution(states, steps) && k < |states|
    ensures Inv(states[k])
  {
    if k > 0 {
      ExecutionKeepsInv(states, steps, k - 1);
      var last, current := states[k - 1], states[k];
      StepKeepsInv(last, steps[k - 1]);
    }
  }

  /** Whatever calls race, are repeated, fail half-way or die with the runner, the outside world sees at
      most one compensation, and the step is marked compensated only after that one succeeded. */
  lemma CompensatedAtMostOnce(states: seq<System>, steps: seq<Step>, k: nat)
    requires IsExecution(states, steps) && k < |states|
    ensures states[k].invocations <= 1
    ensures states[k].step.effect.EffectCompensated? ==> states[k].invocations == 1 && states[k].succeeded
  {
    ExecutionKeepsInv(states, steps, k);
  }

  ghost predicate Final(step: StepRecord) {
    step.resolution.Some? && !step.resolution.value.status.Intent?
  }

  /** A resolution never changes its identity, and once it left the intent state nothing about it changes. */
  ghost predicate ResolutionMovesForward(before: StepRecord, after: StepRecord) {
    && (before.resolution.Some? ==>
          && after.resolution.Some?
          && after.resolution.value.request == before.resolution.value.request
          && after.resolution.value.attemptId == before.resolution.value.attemptId)
    && (Final(before) ==> after == before)
  }

  lemma StepMovesForward(s: System, step: Step)
    requires Inv(s) && Enabled(s, step)
    ensures ResolutionMovesForward(s.step, Apply(s, step).step)
  {
    hide Journaled;
    if step.StoreIntent? {
      assert CallInv(s, step.p, s.calls[step.p]);
    }
  }

  lemma {:induction false} ResolutionIsFinal(states: seq<System>, steps: seq<Step>, i: nat, k: nat)
    requires IsExecution(states, steps) && i <= k < |states|
    ensures ResolutionMovesForward(states[i].step, states[k].step)
    decreases k - i
  {
    hide Enabled, Apply, Inv;
    if i < k {
      ResolutionIsFinal(states, steps, i, k - 1);
      var last, current := states[k - 1], states[k];
      ExecutionKeepsInv(states, steps, k - 1);
      StepMovesForward(last, steps[k - 1]);
    }
  }

  /** Two calls never work on the step at the same time: at most one holds the claim. */
  lemma OneHolder(states: seq<System>, steps: seq<Step>, k: nat, p: nat, q: nat)
    requires IsExecution(states, steps) && k < |states|
    requires p in states[k].calls && q in states[k].calls
    requires Holds(states[k].calls[p]) && Holds(states[k].calls[q])
    ensures p == q
  {
    ExecutionKeepsInv(states, steps, k);
    assert CallInv(states[k], p, states[k].calls[p]) && CallInv(states[k], q, states[k].calls[q]);
  }

  // ----- what calls get done -----

  /** The last entry of the journal for this resolution. */
  ghost predicate IsLastEntry(journal: seq<Event>, id: string, i: nat) {
    i < |journal| && journal[i].id == id && forall j :: i < j < |journal| ==> journal[j].id != id
  }

  lemma {:induction false} JournaledIsLast(journal: seq<Event>, id: string, i: nat)
    requires IsLastEntry(journal, id, i)
    ensures Journaled(journal, id) == Some(journal[i].status)
  {
    if i < |journal| - 1 {
      JournaledIsLast(journal[..|journal| - 1], id, i);
    }
  }

  lemma {:induction false} NothingJournaled(journal: seq<Event>, id: string)
    requires forall i :: 0 <= i < |journal| ==> journal[i].id != id
    ensures Journaled(journal, id) == None
  {
    if journal != [] {
      NothingJournaled(journal[..|journal| - 1], id);
    }
  }

  /** A call that finds the intent of its own resolution stored goes by what the journal says last: nothing
      about a compensation means it was never invoked, a success is completed without invoking it again,
      and anything else is given up as unknown. A confirmation needs no journal. */
  lemma RecoveryGoesByJournal(s: System, p: nat, i: nat)
    requires Enabled(s, Recover(p))
    ensures var request, after := s.calls[p].request, Apply(s, Recover(p)).calls[p];
            && after.rev == s.calls[p].rev && after.request == request
            && (request.action.ConfirmNotApplied? ==> after.Completing?)
            && (request.action.Compensate? && (forall k :: 0 <= k < |s.journal| ==> s.journal[k].id != request.id) ==> after.Executing?)
            && (request.action.Compensate? && IsLastEntry(s.journal, request.id, i) ==>
                  if s.journal[i].status.Succeeded? then after.Completing? else after.GivingUp?)
  {
    hide Journaled;
    var id := s.calls[p].request.id;
    if forall k :: 0 <= k < |s.journal| ==> s.journal[k].id != id {
      NothingJournaled(s.journal, id);
    }
    if IsLastEntry(s.journal, id, i) {
      JournaledIsLast(s.journal, id, i);
    }
  }

  ghost predicate IsStep(states: seq<System>, steps: seq<Step>, i: nat)
    requires i < |steps| && |states| == |steps| + 1
  {
    Enabled(states[i], steps[i]) && states[i + 1] == Apply(states[i], steps[i])
  }

  ghost predicate AreSteps(states: seq<System>, steps: seq<Step>) {
    |states| == |steps| + 1 && forall i :: 0 <= i < |steps| ==> IsStep(states, steps, i)
  }

  /** Nobody is working on the step, its effect is unknown and nothing was decided about it. */
  ghost predicate Undecided(s: System) {
    s.step == StepRecord(EffectUnknown, None) && s.calls == map[] && s.claim == None && s.journal == []
  }

  /** The call up to the stored intent. */
  lemma StoresIntent(s: System, p: nat, request: Request, attemptId: nat) returns (states: seq<System>, steps: seq<Step>)
    requires Undecided(s) && request.actor != "" && request.reason != ""
    ensures AreSteps(states, steps) && states[0] == s && |steps| == 4
    ensures var t := states[4];
            && t.step == Intended(request, attemptId) && t.journal == [] && t.claim == Some(p)
            && t.invocations == s.invocations && t.succeeded == s.succeeded
            && t.calls == map[p := if request.action.Compensate? then Executing(request, t.revision) else Completing(request, t.revision)]
  {
    var a := Apply(s, Begin(p, request));
    var b := Apply(a, ReadStep(p));
    var c := Apply(b, Claim(p));
    var d := Apply(c, StoreIntent(p, attemptId, true));
    states, steps := [s, a, b, c, d], [Begin(p, request), ReadStep(p), Claim(p), StoreIntent(p, attemptId, true)];
  }

  lemma OneMoreStep(states: seq<System>, steps: seq<Step>, step: Step)
    requires AreSteps(states, steps) && Enabled(states[|states| - 1], step)
    ensures AreSteps(states + [Apply(states[|states| - 1], step)], steps + [step])
  {
    hide Enabled, Apply;
    var longer, more := states + [Apply(states[|states| - 1], step)], steps + [step];
    forall i | 0 <= i < |more| ensures IsStep(longer, more, i) {
      if i < |steps| {
        assert IsStep(states, steps, i);
      }
    }
  }

  /** A confirmation that nobody disturbs marks the step as not applied, without any compensation. */
  lemma ConfirmationGetsDone(s: System, p: nat, request: Request, attemptId: nat) returns (states: seq<System>, steps: seq<Step>)
    requires Undecided(s) && request.actor != "" && request.reason != "" && request.action.ConfirmNotApplied?
    ensures AreSteps(states, steps) && states[0] == s
    ensures var t := states[|states| - 1];
            && t.step == StepRecord(EffectNotApplied, Some(Resolution(request, attemptId, Succeeded, "", true)))
            && t.invocations == s.invocations && t.claim == None && t.calls == map[]
  {
    hide AreSteps;
    states, steps := StoresIntent(s, p, request, attemptId);
    StepsFit(states, steps);
    OneMoreStep(states, steps, StoreSuccess(p, true));
    states, steps := states + [Apply(states[4], StoreSuccess(p, true))], steps + [StoreSuccess(p, true)];
  }

  lemma StepsFit(states: seq<System>, steps: seq<Step>)
    requires AreSteps(states, steps)
    ensures |states| == |steps| + 1
  {
  }

  /** The call from the stored intent to the journaled outcome. */
  lemma Compensates(t: System, p: nat, request: Request, ok: bool) returns (a: System, b: System, c: System)
    requires t.calls == map[p := Executing(request, t.revision)]
    ensures Enabled(t, JournalIntent(p, true, true)) && a == Apply(t, JournalIntent(p, true, true))
    ensures Enabled(a, Invoke(p, ok)) && b == Apply(a, Invoke(p, ok))
    ensures Enabled(b, JournalOutcome(p, true, true)) && c == Apply(b, JournalOutcome(p, true, true))
    ensures c.step == t.step && c.claim == t.claim && c.revision == t.revision && c.invocations == t.invocations + 1
    ensures c.journal == t.journal + [Event(request.id, Intent), Event(request.id, if ok then Succeeded else Unknown)]
    ensures c.calls == map[p := if ok then Completing(request, t.revision) else GivingUp(request, t.revision)]
  {
    a := Apply(t, JournalIntent(p, true, true));
    b := Apply(a, Invoke(p, ok));
    c := Apply(b, JournalOutcome(p, true, true));
  }

  /** A compensation that nobody disturbs is invoked once. If it succeeds the step is marked compensated, and
      otherwise the resolution ends as unknown, with the error, and the effect stays unknown. */
  lemma CompensationGetsDone(s: System, p: nat, request: Request, attemptId: nat, ok: bool, error: string)
    returns (states: seq<System>, steps: seq<Step>)
    requires Undecided(s) && request.actor != "" && request.reason != "" && request.action.Compensate? && error != ""
    ensures AreSteps(states, steps) && states[0] == s
    ensures var t := states[|states| - 1];
            && t.step == (if ok then StepRecord(EffectCompensated, Some(Resolution(request, attemptId, Succeeded, "", true)))
                          else StepRecord(EffectUnknown, Some(Resolution(request, attemptId, Unknown, error, true))))
            && t.invocations == s.invocations + 1 && t.claim == None && t.calls == map[]
  {
    hide AreSteps;
    states, steps := StoresIntent(s, p, request, attemptId);
    StepsFit(states, steps);
    var t := states[4];
    var a, b, c := Compensates(t, p, request, ok);
    var last := if ok then StoreSuccess(p, true) else StoreUnknown(p, true, error);
    OneMoreStep(states, steps, JournalIntent(p, true, true));
    OneMoreStep(states + [a], steps + [JournalIntent(p, true, true)], Invoke(p, ok));
    OneMoreStep(states + [a] + [b], steps + [JournalIntent(p, true, true)] + [Invoke(p, ok)], JournalOutcome(p, true, true));
    OneMoreStep(states + [a] + [b] + [c], steps + [JournalIntent(p, true, true)] + [Invoke(p, ok)] + [JournalOutcome(p, true, true)], last);
    states := states + [a] + [b] + [c] + [Apply(c, last)];
    steps := steps + [JournalIntent(p, true, true)] + [Invoke(p, ok)] + [JournalOutcome(p, true, true)] + [last];
  }
}
