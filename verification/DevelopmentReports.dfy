/**
 How an undisturbed handler call ends, told by what implementer and reviewer answered round by round.
 */
module DevelopmentReports {
  import opened Common
  import opened Refs
  import opened Development
  import opened DevelopmentRuns

  // ---------------------------------------------------------------- what happens in one round

  /** Time is left at every look at the clock, and every write is done. */
  predicate Calm(r: Round) {
    && r.secondsAtHead >= 1 && r.secondsAtLaunch >= 1 && r.secondsBeforeReview >= 1 && r.secondsAfterReview >= 1
    && r.reserveWrite.Healthy? && r.candidateWrite.Healthy? && r.reviewReserveWrite.Healthy? && r.reviewWrite.Healthy?
    && ShortEnough(r)
  }

  /** What the reviewer writes fits into the record. */
  predicate ShortEnough(r: Round) {
    r.review.response.Some? ==> 0 < |r.review.response.value.findings| <= MAX_FINDINGS
  }

  /** The implementer leaves this candidate, with evidence. */
  predicate Produces(r: Round, candidate: string) {
    var i := r.implementation;
    i.observation.Some? && i.observation.value.candidate == Some(candidate) && i.provenance.evidence.Some?
  }

  predicate ProducesSome(r: Round) {
    var i := r.implementation;
    i.observation.Some? && i.observation.value.candidate.Some? && Produces(r, i.observation.value.candidate.value)
  }

  /** The implementer stopped without a candidate, its run on record and its admission given back. */
  predicate StopsCleanly(r: Round) {
    var i, p := r.implementation, r.implementation.provenance;
    && i.observation.Some?
    && !i.observation.value.succeeded && i.observation.value.candidate.None? && !i.observation.value.refTrouble
    && p.recorded && !p.admissionRetained && !p.releaseFailed
  }

  /** The reviewer answers for this candidate, with evidence. */
  predicate Reviews(r: Round, candidate: string, answer: Answer) {
    && r.review.candidate == candidate && r.review.evidence.Some?
    && r.review.response.Some? && r.review.response.value.answer == answer
  }

  /** The reviewer answers for this candidate, but neither way. */
  predicate ReviewsOtherwise(r: Round, candidate: string) {
    && r.review.candidate == candidate && r.review.evidence.Some?
    && r.review.response.Some? && r.review.response.value.answer.OtherAnswer?
  }

  /** The reviewer looked at this candidate but left no answer with evidence. */
  predicate ReviewsWithout(r: Round, candidate: string) {
    r.review.candidate == candidate && (r.review.evidence.None? || r.review.response.None?)
  }

  predicate Corrects(r: Round) {
    ProducesSome(r) && Reviews(r, r.implementation.observation.value.candidate.value, HasFindings)
  }

  /** The stage in which a round ends the handler call; `last` says that no correction is left. */
  predicate EndsIn(r: Round, last: bool, stage: Stage) {
    var c := if ProducesSome(r) then r.implementation.observation.value.candidate.value else "";
    match stage
    case Accepted => ProducesSome(r) && Reviews(r, c, NoFindings)
    case Findings => last && Corrects(r)
    case Failed =>
      (!ProducesSome(r) && StopsCleanly(r)) || (ProducesSome(r) && ReviewsWithout(r, c) && r.review.ordinaryTerminal)
    case Unresolved =>
      || (!ProducesSome(r) && !StopsCleanly(r))
      || (ProducesSome(r) && r.review.candidate != c)
      || (ProducesSome(r) && ReviewsWithout(r, c) && !r.review.ordinaryTerminal)
      || (ProducesSome(r) && ReviewsOtherwise(r, c))
    case _ => false
  }

  /** Some runner process was started in this round. */
  predicate Started(r: Round) {
    ImplementerStarted(r) || (ProducesSome(r) && r.review.processStarted)
  }

  predicate ImplementerStarted(r: Round) {
    r.implementation.observation.Some? && r.implementation.observation.value.processStarted
  }

  /** The outcome names what the last runner said. */
  predicate Tells(r: Round, outcome: Development.Outcome) {
    if !ProducesSome(r) then
      if r.implementation.observation.Some? then outcome == RunnerCode(r.implementation.observation.value.code)
      else outcome == StoppedBy(EvidenceUnavailable)
    else if r.review.candidate != r.implementation.observation.value.candidate.value then
      outcome == StoppedBy(CandidateMismatch)
    else if r.review.evidence.None? || r.review.response.None? then outcome == RunnerCode(r.review.code)
    else outcome == Answered(r.review.response.value.answer)
  }

  /** The record holds the evidence and the findings of this round, and the candidate it produced. */
  predicate Evidenced(r: Round, p: Progress) {
    var i, v := r.implementation, r.review;
    && (i.observation.Some? && i.provenance.evidence.Some? ==> p.implementationEvidence == i.provenance.evidence)
    && (ProducesSome(r) ==> p.candidate == i.observation.value.candidate)
    && (ProducesSome(r) && v.candidate == i.observation.value.candidate.value && v.evidence.Some? ==>
          p.reviewEvidence == v.evidence && (v.response.Some? ==> p.findings == Some(v.response.value.findings)))
  }

  // ---------------------------------------------------------------- one phase

  /** What a caller gets for a stage, and the durable record that says so; `before` tells of earlier rounds. */
  ghost predicate EndsWith(h: Handled, r: Round, last: bool, before: bool) {
    && h.trace != [] && Last(h.trace).durable.Some? && h.result.Result?
    && var p := Last(h.trace).durable.value.progress;
       && EndsIn(r, last, p.stage) && h.result.stage == p.stage
       && Tells(r, p.outcome) && h.result.outcome == p.outcome && h.result.providerInvoked == (before || Started(r))
       && (h.result.disposition.CompletedTask? <==> p.stage.Accepted?)
       && (h.result.disposition.UnresolvedTask? <==> p.stage.Unresolved?)
       && Evidenced(r, p) && (p.stage.Accepted? ==> p.candidate.Some? && Produces(r, p.candidate.value))
  }

  /** On to the next phase, from a durable snapshot of the same task. */
  ghost predicate GoesOn(phase: Phase, p: Progress, stage: Stage) {
    && phase.Go? && phase.trace != [] && Last(phase.trace).durable == Some(phase.saved) && Inv(Last(phase.trace))
    && phase.saved.progress.stage == stage && phase.saved.progress.task == p.task
  }

  lemma ReserveOutcome(w: World, saved: Saved, role: Role, fault: Fault, invoked: bool)
    requires Inv(w) && w.durable == Some(saved) && Reservable(saved.progress.stage, role) && fault.Healthy?
    requires |saved.progress.task.id| <= LONGEST_TASK_ID
    ensures |saved.progress.reservations| < saved.progress.task.maximumInvocations
    ensures var phase := ReservePhase(w, saved, role, fault, invoked);
            && GoesOn(phase, saved.progress, if role.Implementer? then ImplementerReserved else ReviewerReserved)
            && NotLaunched(Last(phase.trace)) && phase.invoked == invoked
            && phase.saved.progress.candidate == saved.progress.candidate
            && phase.saved.progress.implementationEvidence == saved.progress.implementationEvidence
            && phase.saved.progress.correctionsUsed
               == saved.progress.correctionsUsed + if saved.progress.stage.CorrectionPending? then 1 else 0
  {
    ReserveStep(w, saved, role);
    assert |w.calls| == |saved.progress.reservations|;
    hide Inv, Allowed, Check;
  }

  /** What the record says after the implementation. */
  lemma CandidateStage(p: Progress, r: Round)
    requires p.reservations != [] && p.stage.ImplementerReserved?
    ensures var next := AfterImplementation(p, Last(p.reservations), r.implementation);
            && next.task == p.task && next.correctionsUsed == p.correctionsUsed
            && (if ProducesSome(r) then
                  && next.stage.CandidateReady? && next.candidate == r.implementation.observation.value.candidate
                  && next.implementationEvidence == r.implementation.provenance.evidence
                else && next.stage in {Failed, Unresolved} && EndsIn(r, false, next.stage) && EndsIn(r, true, next.stage)
                     && Tells(r, next.outcome) && Evidenced(r, next))
  {
  }

  lemma ImplementerOutcome(w: World, reserved: Saved, correction: bool, r: Round, invoked: bool)
    requires Inv(w) && w.durable == Some(reserved) && reserved.progress.stage.ImplementerReserved? && NotLaunched(w)
    requires correction ==> reserved.progress.correctionsUsed > 0
    requires Calm(r)
    ensures var phase := LaunchImplementer(w, reserved, correction, r, invoked);
            if ProducesSome(r) then
              && GoesOn(phase, reserved.progress, CandidateReady)
              && phase.saved.progress.candidate == r.implementation.observation.value.candidate
              && phase.saved.progress.implementationEvidence == r.implementation.provenance.evidence
              && phase.saved.progress.correctionsUsed == reserved.progress.correctionsUsed
              && phase.invoked == (invoked || ImplementerStarted(r))
            else phase.Stop? && EndsWith(phase.handled, r, false, invoked) && EndsWith(phase.handled, r, true, invoked)
  {
    var p := reserved.progress;
    var called := w.(calls := w.calls + [ImplementerLaunch(p, r.implementation)]);
    ImplementerCallStep(w, reserved, r.implementation);
    ImplementerRecordStep(called, reserved, r.implementation);
    var next := AfterImplementation(p, Last(p.reservations), r.implementation);
    var after := called.(durable := Some(Saved(next, Some(reserved))));
    assert Persist(called, next, Some(reserved), r.candidateWrite) == (true, after);
    KeptFindings(w, reserved);
    CandidateStage(p, r);
    hide Inv, Allowed, Check, Persist, AfterImplementation, EndsIn, ProducesSome, Tells, Evidenced;
  }

  /** What the record says after the review. */
  lemma AnswerStage(p: Progress, r: Round)
    requires Calm(r) && ProducesSome(r) && p.candidate == r.implementation.observation.value.candidate
    requires p.implementationEvidence == r.implementation.provenance.evidence
    requires p.reservations != [] && p.correctionsUsed <= p.task.maximumCorrections
    ensures var next, last := AfterReview(p, Last(p.reservations), r.review), p.correctionsUsed == p.task.maximumCorrections;
            && next.task == p.task && next.correctionsUsed == p.correctionsUsed && next.candidate == p.candidate
            && (if Corrects(r) && !last then next.stage.CorrectionPending? && AnswerOf(p, r.review).Some?
                else EndsIn(r, last, next.stage) && Tells(r, next.outcome) && Evidenced(r, next))
  {
  }

  lemma ReviewerOutcome(w: World, reserved: Saved, r: Round, invoked: bool, before: bool)
    requires Inv(w) && w.durable == Some(reserved) && reserved.progress.stage.ReviewerReserved? && NotLaunched(w)
    requires Calm(r) && ProducesSome(r) && reserved.progress.candidate == r.implementation.observation.value.candidate
    requires reserved.progress.implementationEvidence == r.implementation.provenance.evidence
    requires reserved.progress.reservations != [] && invoked == (before || ImplementerStarted(r))
    ensures var phase := LaunchReviewer(w, reserved, r, invoked);
            var last := reserved.progress.correctionsUsed == reserved.progress.task.maximumCorrections;
            if Corrects(r) && !last then
              && GoesOn(phase, reserved.progress, CorrectionPending)
              && phase.saved.progress.correctionsUsed == reserved.progress.correctionsUsed
              && phase.invoked == (before || Started(r))
            else phase.Stop? && EndsWith(phase.handled, r, last, before)
  {
    hide Inv, Allowed, Check, AfterReview, AnswerOf, Corrects, EndsIn, Tells, Evidenced, Persist, Calm, NotLaunched;
    var p := reserved.progress;
    ReviewRecorded(w, reserved, r);
    AnswerStage(p, r);
  }

  /** The review is recorded in one healthy write. */
  lemma ReviewRecorded(w: World, reserved: Saved, r: Round)
    requires Inv(w) && w.durable == Some(reserved) && reserved.progress.stage.ReviewerReserved? && NotLaunched(w)
    requires Calm(r) && reserved.progress.candidate.Some? && reserved.progress.reservations != []
    ensures var p := reserved.progress;
            var called := w.(calls := w.calls + [ReviewerCall(Last(p.reservations), p.candidate.value, AnswerOf(p, r.review))]);
            var next := AfterReview(p, Last(p.reservations), r.review);
            var after := called.(durable := Some(Saved(next, Some(reserved))));
            && p.correctionsUsed <= p.task.maximumCorrections && Check(next).None? && Inv(after)
            && Persist(called, next, Some(reserved), r.reviewWrite) == (true, after)
            && r.secondsAfterReview >= 1
  {
    var p := reserved.progress;
    var called := w.(calls := w.calls + [ReviewerLaunch(p, r.review)]);
    ReviewerCallStep(w, reserved, r.review);
    ReviewerRecordStep(called, reserved, r.review);
    ShortFindings(p, r, called);
    hide Allowed, AfterReview, AnswerOf, Check, CallsOk, Logged;
  }

  lemma ShortFindings(p: Progress, r: Round, called: World)
    requires ShortEnough(r) && p.reservations != [] && Check(p).None? && |p.reports| < MAX_REPORTS
    ensures Check(AfterReview(p, Last(p.reservations), r.review)).None?
  {
  }

  // ---------------------------------------------------------------- one pass

  /** The head of the loop before its n-th round: n corrections will have been used by then. */
  ghost predicate AtRound(w: World, saved: Saved, n: nat) {
    && Inv(w) && w.durable == Some(saved)
    && var p := saved.progress;
       && n <= p.task.maximumCorrections && |p.task.id| <= LONGEST_TASK_ID
       && if n == 0 then p.stage.Imported? && p.correctionsUsed == 0
          else p.stage.CorrectionPending? && p.correctionsUsed == n - 1
  }

  lemma JoinEnds(a: seq<World>, b: seq<World>)
    requires a != [] && b != [] && Last(a) == b[0]
    ensures Join(a, b) != [] && Last(Join(a, b)) == Last(b)
  {
  }

  lemma ThenStops(trace: seq<World>, phase: Phase, r: Round, last: bool, before: bool)
    requires trace != [] && StartsAt(phase, Last(trace)) && phase.Stop? && EndsWith(phase.handled, r, last, before)
    ensures Then(trace, phase).Stop? && EndsWith(Then(trace, phase).handled, r, last, before)
  {
    hide EndsIn, Produces, Tells, Evidenced, Started;
    JoinEnds(trace, phase.handled.trace);
  }

  lemma ThenGoes(trace: seq<World>, phase: Phase, p: Progress, stage: Stage)
    requires trace != [] && StartsAt(phase, Last(trace)) && GoesOn(phase, p, stage)
    ensures GoesOn(Then(trace, phase), p, stage) && Then(trace, phase).saved == phase.saved
    ensures Then(trace, phase).invoked == phase.invoked
    ensures Last(Then(trace, phase).trace) == Last(phase.trace)
  {
    hide Inv;
    JoinEnds(trace, phase.trace);
  }

  lemma GoesOnFor(phase: Phase, p: Progress, q: Progress, stage: Stage)
    requires GoesOn(phase, p, stage) && p.task == q.task
    ensures GoesOn(phase, q, stage)
  {
  }

  lemma LaunchesStart(w: World, reserved: Saved, correction: bool, r: Round, invoked: bool)
    requires reserved.progress.reservations != []
    ensures StartsAt(LaunchImplementer(w, reserved, correction, r, invoked), w)
    ensures reserved.progress.candidate.Some? ==> StartsAt(LaunchReviewer(w, reserved, r, invoked), w)
  {
  }

  lemma ImplementPhaseIs(w: World, saved: Saved, r: Round, invoked: bool)
    requires r.secondsAtHead >= 1 && |saved.progress.reservations| < saved.progress.task.maximumInvocations
    requires ReservePhase(w, saved, Implementer, r.reserveWrite, invoked).Go?
    ensures var phase := ReservePhase(w, saved, Implementer, r.reserveWrite, invoked);
            ImplementPhase(w, saved, r, invoked)
            == Then(phase.trace, LaunchImplementer(
                      Last(phase.trace), phase.saved, saved.progress.stage.CorrectionPending?, r, invoked))
  {
  }

  lemma ImplementOutcome(w: World, saved: Saved, r: Round, invoked: bool, n: nat)
    requires AtRound(w, saved, n) && Calm(r)
    ensures var phase := ImplementPhase(w, saved, r, invoked);
            if ProducesSome(r) then
              && GoesOn(phase, saved.progress, CandidateReady)
              && phase.saved.progress.candidate == r.implementation.observation.value.candidate
              && phase.saved.progress.implementationEvidence == r.implementation.provenance.evidence
              && phase.saved.progress.correctionsUsed == n && phase.invoked == (invoked || ImplementerStarted(r))
            else phase.Stop? && EndsWith(phase.handled, r, false, invoked) && EndsWith(phase.handled, r, true, invoked)
  {
    ReserveOutcome(w, saved, Implementer, r.reserveWrite, invoked);
    var phase := ReservePhase(w, saved, Implementer, r.reserveWrite, invoked);
    var correction := saved.progress.stage.CorrectionPending?;
    ImplementPhaseIs(w, saved, r, invoked);
    hide ReservePhase, LaunchImplementer, EndsIn, ProducesSome, Calm, NotLaunched, ImplementPhase, Evidenced;
    var launch := LaunchImplementer(Last(phase.trace), phase.saved, correction, r, invoked);
    ImplementerOutcome(Last(phase.trace), phase.saved, correction, r, invoked);
    LaunchesStart(Last(phase.trace), phase.saved, correction, r, invoked);
    hide Inv, EndsWith, StartsAt;
    if ProducesSome(r) {
      GoesOnFor(launch, phase.saved.progress, saved.progress, CandidateReady);
      ThenGoes(phase.trace, launch, saved.progress, CandidateReady);
    } else {
      ThenStops(phase.trace, launch, r, false, invoked);
      ThenStops(phase.trace, launch, r, true, invoked);
    }
  }

  lemma ReviewPhaseIs(w: World, saved: Saved, r: Round, invoked: bool)
    requires r.secondsBeforeReview >= 1 && |saved.progress.reservations| < saved.progress.task.maximumInvocations
    requires saved.progress.stage.CandidateReady? && saved.progress.candidate.Some?
    requires ReservePhase(w, saved, Reviewer, r.reviewReserveWrite, invoked).Go?
    ensures var phase := ReservePhase(w, saved, Reviewer, r.reviewReserveWrite, invoked);
            ReviewPhase(w, saved, r, invoked)
            == Then(phase.trace, LaunchReviewer(Last(phase.trace), phase.saved, r, invoked))
  {
  }

  lemma ReviewOutcome(w: World, saved: Saved, r: Round, invoked: bool, before: bool)
    requires Inv(w) && w.durable == Some(saved) && saved.progress.stage.CandidateReady? && Calm(r) && ProducesSome(r)
    requires saved.progress.candidate == r.implementation.observation.value.candidate
    requires saved.progress.implementationEvidence == r.implementation.provenance.evidence
    requires |saved.progress.task.id| <= LONGEST_TASK_ID && invoked == (before || ImplementerStarted(r))
    ensures var phase := ReviewPhase(w, saved, r, invoked);
            var last := saved.progress.correctionsUsed == saved.progress.task.maximumCorrections;
            if Corrects(r) && !last then
              && GoesOn(phase, saved.progress, CorrectionPending)
              && phase.saved.progress.correctionsUsed == saved.progress.correctionsUsed
              && phase.invoked == (before || Started(r))
            else phase.Stop? && EndsWith(phase.handled, r, last, before)
  {
    ReserveOutcome(w, saved, Reviewer, r.reviewReserveWrite, invoked);
    var phase := ReservePhase(w, saved, Reviewer, r.reviewReserveWrite, invoked);
    ReviewPhaseIs(w, saved, r, invoked);
    var last := saved.progress.correctionsUsed == saved.progress.task.maximumCorrections;
    hide ReservePhase, LaunchReviewer, EndsIn, ProducesSome, Calm, NotLaunched, ReviewPhase, Corrects, Evidenced;
    var launch := LaunchReviewer(Last(phase.trace), phase.saved, r, invoked);
    ReviewerOutcome(Last(phase.trace), phase.saved, r, invoked, before);
    LaunchesStart(Last(phase.trace), phase.saved, false, r, invoked);
    hide Inv, EndsWith, StartsAt;
    if Corrects(r) && !last {
      GoesOnFor(launch, phase.saved.progress, saved.progress, CorrectionPending);
      ThenGoes(phase.trace, launch, saved.progress, CorrectionPending);
    } else {
      ThenStops(phase.trace, launch, r, last, before);
    }
  }

  /** One undisturbed round either asks for a correction that the budget allows, or ends the call. */
  lemma PassOutcome(w: World, saved: Saved, r: Round, invoked: bool, n: nat)
    requires AtRound(w, saved, n) && Calm(r)
    ensures LoopHead(saved.progress)
    ensures var phase, last := Pass(w, saved, r, invoked), n == saved.progress.task.maximumCorrections;
            if Corrects(r) && !last then
              && GoesOn(phase, saved.progress, CorrectionPending) && AtRound(Last(phase.trace), phase.saved, n + 1)
              && phase.invoked == (invoked || Started(r))
            else phase.Stop? && EndsWith(phase.handled, r, last, invoked)
  {
    ImplementOutcome(w, saved, r, invoked, n);
    var phase := ImplementPhase(w, saved, r, invoked);
    var last := n == saved.progress.task.maximumCorrections;
    hide ImplementPhase, ReviewPhase, Calm;
    if ProducesSome(r) {
      ReviewOutcome(Last(phase.trace), phase.saved, r, phase.invoked, invoked);
      ReviewStarts(Last(phase.trace), phase.saved, r, phase.invoked);
      var review := ReviewPhase(Last(phase.trace), phase.saved, r, phase.invoked);
      hide Inv, EndsWith, StartsAt, Corrects, ProducesSome;
      if Corrects(r) && !last {
        GoesOnFor(review, phase.saved.progress, saved.progress, CorrectionPending);
        ThenGoes(phase.trace, review, saved.progress, CorrectionPending);
      } else {
        ThenStops(phase.trace, review, r, last, invoked);
      }
    }
  }

  // ---------------------------------------------------------------- the whole call

  /** The m-th round is the first that does not lead to another correction. */
  ghost predicate EndsAt(rounds: nat -> Round, corrections: nat, m: nat) {
    && m <= corrections && (forall k: nat | k < m :: Corrects(rounds(k)))
    && (Corrects(rounds(m)) ==> m == corrections)
  }

  lemma {:induction false} SomeEnd(rounds: nat -> Round, corrections: nat, n: nat) returns (m: nat)
    requires n <= corrections && forall k: nat | k < n :: Corrects(rounds(k))
    ensures n <= m && EndsAt(rounds, corrections, m)
    decreases corrections - n
  {
    if Corrects(rounds(n)) && n < corrections {
      m := SomeEnd(rounds, corrections, n + 1);
    } else {
      m := n;
    }
  }

  ghost predicate AllCalm(rounds: nat -> Round) {
    forall n: nat :: Calm(rounds(n))
  }

  predicate StartedBefore(rounds: nat -> Round, n: nat, m: nat) {
    exists k: nat | n <= k < m :: Started(rounds(k))
  }

  lemma {:induction false} LoopOutcome(w: World, saved: Saved, rounds: nat -> Round, n: nat, m: nat, invoked: bool)
    requires AtRound(w, saved, n) && AllCalm(rounds) && n <= m
    requires EndsAt(rounds, saved.progress.task.maximumCorrections, m)
    ensures LoopHead(saved.progress)
    ensures EndsWith(
              Loop(w, saved, rounds, n, invoked), rounds(m), m == saved.progress.task.maximumCorrections,
              invoked || StartedBefore(rounds, n, m))
    decreases m - n
  {
    hide Calm, Corrects, Inv, EndsIn, Produces, Pass, Started, Tells, Evidenced;
    var corrections := saved.progress.task.maximumCorrections;
    assert Calm(rounds(n));
    PassOutcome(w, saved, rounds(n), invoked, n);
    var phase := Pass(w, saved, rounds(n), invoked);
    if n < m {
      assert Corrects(rounds(n)) && n < corrections;
      LoopOutcome(Last(phase.trace), phase.saved, rounds, n + 1, m, phase.invoked);
      LoopStarts(Last(phase.trace), phase.saved, rounds, n + 1, phase.invoked);
      JoinEnds(phase.trace, Loop(Last(phase.trace), phase.saved, rounds, n + 1, phase.invoked).trace);
    }
  }

  /** The handler gets as far as its loop, for a task nobody has started. */
  ghost predicate Undisturbed(w: World, task: Task, i: HandlerInput) {
    && w == World(None, []) && ValidTask(task) && |task.id| <= LONGEST_TASK_ID
    && i.active && i.messageSelected && i.taskMatches && !i.loadFails && i.importWrite.Healthy? && i.secondsAtStart >= 1
    && AllCalm(i.rounds)
  }

  /**
   An undisturbed call ends as its first round that asks for no further correction, or has none left, says:
   the durable stage, the result and its outcome, for an accepted task the candidate of that round, and
   whether any runner process was started.
   */
  lemma HandleOutcome(w: World, task: Task, authority: string, i: HandlerInput, m: nat)
    requires Undisturbed(w, task, i) && EndsAt(i.rounds, task.maximumCorrections, m)
    ensures EndsWith(
              Handle(w, task, authority, i), i.rounds(m), m == task.maximumCorrections, StartedBefore(i.rounds, 0, m))
  {
    var p := Fresh(task, authority);
    var saved := Saved(p, None);
    var after := World(Some(saved), []);
    assert Persist(w, p, None, i.importWrite) == (true, after);
    FreshIsFirst(task, authority);
    LoopOutcome(after, saved, i.rounds, 0, m, false);
    LoopStarts(after, saved, i.rounds, 0, false);
    JoinEnds([w, after], Loop(after, saved, i.rounds, 0, false).trace);
    hide Loop, EndsIn, Produces, AtRound, AllCalm, EndsAt, StartedBefore, Tells, Evidenced, Started;
  }

  lemma FreshIsFirst(task: Task, authority: string)
    requires ValidTask(task) && |task.id| <= LONGEST_TASK_ID
    ensures var saved := Saved(Fresh(task, authority), None); AtRound(World(Some(saved), []), saved, 0)
  {
  }

  /** Some round within the budget is answered without findings, and every earlier one with findings. */
  ghost predicate SomeAccepts(rounds: nat -> Round, corrections: nat) {
    exists m: nat | m <= corrections :: EndsAt(rounds, corrections, m) && Accepts(rounds(m))
  }

  predicate Accepts(r: Round) {
    ProducesSome(r) && Reviews(r, r.implementation.observation.value.candidate.value, NoFindings)
  }

  /**
   Exactly when an undisturbed task is accepted: if and only if some review within the correction budget
   finds nothing and every earlier one had findings; the durable candidate is then the one reviewed.
   */
  lemma AcceptedExactly(w: World, task: Task, authority: string, i: HandlerInput)
    requires Undisturbed(w, task, i)
    ensures var h := Handle(w, task, authority, i);
            && h.trace != [] && h.result.Result? && Last(h.trace).durable.Some?
            && var p := Last(h.trace).durable.value.progress;
               && (h.result.disposition.CompletedTask? <==> SomeAccepts(i.rounds, task.maximumCorrections))
               && (p.stage.Accepted? <==> SomeAccepts(i.rounds, task.maximumCorrections))
  {
    var m := SomeEnd(i.rounds, task.maximumCorrections, 0);
    HandleOutcome(w, task, authority, i, m);
    AcceptsIsAccepted(i.rounds(m), m == task.maximumCorrections);
    hide Handle, Undisturbed, Accepts, Corrects;
    if k: nat :| k <= task.maximumCorrections && EndsAt(i.rounds, task.maximumCorrections, k) && Accepts(i.rounds(k)) {
      OneEnd(i.rounds, task.maximumCorrections, k, m);
    }
  }

  lemma AcceptsIsAccepted(r: Round, last: bool)
    ensures EndsIn(r, last, Accepted) <==> Accepts(r)
    ensures forall stage | EndsIn(r, last, stage) :: stage.Accepted? <==> Accepts(r)
  {
  }

  lemma OneEnd(rounds: nat -> Round, corrections: nat, j: nat, k: nat)
    requires EndsAt(rounds, corrections, j) && EndsAt(rounds, corrections, k)
    ensures j == k
  {
    hide Corrects;
  }

  // ---------------------------------------------------------------- calls that do not reach a verdict

  /** The first record of a task nobody has started names the task and its authority, and nothing else yet. */
  lemma ImportTells(w: World, task: Task, authority: string, i: HandlerInput)
    requires w.durable.None? && i.importWrite.Healthy?
    requires i.active && i.messageSelected && i.taskMatches && !i.loadFails
    ensures var h := Handle(w, task, authority, i);
            && |h.trace| > 1 && h.trace[0] == w && h.trace[1].calls == w.calls && h.trace[1].durable.Some?
            && var saved := h.trace[1].durable.value;
               && saved.parent.None? && saved.progress.task == task && saved.progress.authority == authority
               && saved.progress.stage.Imported? && saved.progress.reservations == [] && saved.progress.reports == []
               && saved.progress.candidate.None? && saved.progress.correctionsUsed == 0
  {
    var saved := Saved(Fresh(task, authority), None);
    var after := w.(durable := Some(saved));
    assert Persist(w, saved.progress, None, i.importWrite) == (true, after);
    var rest := Resume(after, saved, i);
    hide Loop, StopAt;
    LoopStarts(after, saved, i.rounds, 0, false);
  }

  /** Why a call is turned away before any progress is looked at. */
  lemma HandleRefusals(w: World, task: Task, authority: string, i: HandlerInput)
    ensures var h := Handle(w, task, authority, i);
            var read := i.active && i.messageSelected && i.taskMatches && !i.loadFails;
            && (h.result == Rejected(FailedTask) <==> i.active && (!i.messageSelected || !i.taskMatches))
            && (h.result == Rejected(UnresolvedTask) <==>
                  || !i.active
                  || (read && w.durable.Some?
                      && (w.durable.value.progress.task != task || w.durable.value.progress.authority != authority)))
            && (h.result.RaisedLoad? <==> i.active && i.messageSelected && i.taskMatches && i.loadFails)
            && (h.result.Rejected? || h.result.RaisedLoad? ==> h.trace == [w])
  {
    hide Loop, Persist;
    LoopResults(Persist(w, Fresh(task, authority), None, i.importWrite).1, Saved(Fresh(task, authority), None), i.rounds, 0, false);
    if w.durable.Some? && LoopHead(w.durable.value.progress) {
      LoopResults(w, w.durable.value, i.rounds, 0, false);
    }
  }

  lemma {:induction false} LoopResults(w: World, saved: Saved, rounds: nat -> Round, n: nat, invoked: bool)
    requires LoopHead(saved.progress)
    ensures var r := Loop(w, saved, rounds, n, invoked).result; !r.Rejected? && !r.RaisedLoad?
    decreases Measure(saved.progress)
  {
    PassResults(w, saved, rounds(n), invoked);
    var phase := Pass(w, saved, rounds(n), invoked);
    hide Pass;
    if phase.Go? {
      LoopResults(Last(phase.trace), phase.saved, rounds, n + 1, phase.invoked);
    }
  }

  ghost predicate Verdict(phase: Phase) {
    phase.Stop? ==> !phase.handled.result.Rejected? && !phase.handled.result.RaisedLoad?
  }

  lemma PassResults(w: World, saved: Saved, r: Round, invoked: bool)
    requires LoopHead(saved.progress)
    ensures Verdict(Pass(w, saved, r, invoked))
  {
    if saved.progress.stage.CandidateReady? {
      ReviewResults(w, saved, r, invoked);
    } else {
      ImplementResults(w, saved, r, invoked);
      var phase := ImplementPhase(w, saved, r, invoked);
      if phase.Go? {
        ReviewResults(Last(phase.trace), phase.saved, r, phase.invoked);
      }
    }
    hide ImplementPhase, ReviewPhase;
  }

  lemma ImplementResults(w: World, saved: Saved, r: Round, invoked: bool)
    ensures Verdict(ImplementPhase(w, saved, r, invoked))
  {
    hide Persist, AfterImplementation, Check;
  }

  lemma ReviewResults(w: World, saved: Saved, r: Round, invoked: bool)
    requires saved.progress.stage.CandidateReady?
    ensures Verdict(ReviewPhase(w, saved, r, invoked))
  {
    hide Persist, AfterReview, Check;
  }

  /**
   The export step is reported done exactly if there is a record and this reply is already exported or the
   write succeeds; the record then holds the reply, and is exported if and only if its candidate was accepted.
   */
  lemma ExportReports(w: World, reply: string, fault: Fault)
    ensures var (ok, trace) := Export(w, reply, fault);
            && trace != [] && trace[0] == w && Last(trace).calls == w.calls
            && (w.durable.None? ==> !ok && trace == [w])
            && (w.durable.Some? ==>
                  var p := w.durable.value.progress;
                  && (ok <==> fault.Healthy? || (p.stage.Exported? && p.replyState == Some(reply)))
                  && (ok ==>
                        && Last(trace).durable.Some?
                        && var q := Last(trace).durable.value.progress;
                           && q.replyState == Some(reply) && q.candidate == p.candidate
                           && (q.stage.Exported? <==> p.stage.Accepted? || p.stage.Exported?)
                           && (!q.stage.Exported? ==> q.stage == p.stage)))
  {
  }

  /** A record that is terminal, or was left reserved by a call that died, is only reported. */
  lemma ResumeReports(w: World, saved: Saved, i: HandlerInput)
    requires Terminal(saved.progress.stage) || Reserved(saved.progress.stage)
    ensures var h, stage := Resume(w, saved, i), saved.progress.stage;
            && h.trace == [w] && h.result.Result? && h.result.stage == stage
            && h.result.outcome == saved.progress.outcome && !h.result.providerInvoked
            && (h.result.disposition.CompletedTask? <==> stage.Accepted? || stage.Exported?)
            && (h.result.disposition.FailedTask? <==> stage.Findings? || stage.Failed?)
  {
  }

  /** A stop for want of time is recorded and reported as failed; if it cannot be written, as unresolved. */
  ghost predicate StopsFor(h: Handled, w: World, saved: Saved, reason: StopReason, fault: Fault, invoked: bool) {
    && h.trace != [] && Last(h.trace).calls == w.calls
    && h.result == (if fault.Healthy? then Result(FailedTask, Failed, StoppedBy(reason), invoked)
                    else Result(UnresolvedTask, Unresolved, StoppedBy(NotPersisted), invoked))
    && (fault.Healthy? ==>
          Last(h.trace).durable
          == Some(Saved(saved.progress.(stage := Failed, outcome := StoppedBy(reason)), Some(saved))))
  }

  lemma StopReports(w: World, saved: Saved, reason: StopReason, fault: Fault, invoked: bool)
    requires Inv(w) && w.durable == Some(saved) && AtHead(saved.progress.stage) && Clean(StoppedBy(reason))
    ensures StopsFor(StopAt(w, saved, reason, fault, invoked), w, saved, reason, fault, invoked)
  {
    StopStep(w, saved, reason);
    hide Inv, Allowed, Check;
  }

  /** The three places at which time can run out: before the task is taken up, before a round, before a review. */
  lemma ElapsedReports(w: World, saved: Saved, i: HandlerInput, r: Round, invoked: bool)
    requires Inv(w) && w.durable == Some(saved) && AtHead(saved.progress.stage)
    ensures i.secondsAtStart < 1 ==> StopsFor(Resume(w, saved, i), w, saved, ElapsedBudget, i.startWrite, false)
    ensures !saved.progress.stage.CandidateReady? && r.secondsAtHead < 1 ==>
              && ImplementPhase(w, saved, r, invoked).Stop?
              && StopsFor(ImplementPhase(w, saved, r, invoked).handled, w, saved, ElapsedBudget, r.stopWrite, invoked)
    ensures saved.progress.stage.CandidateReady? && r.secondsBeforeReview < 1 ==>
              && ReviewPhase(w, saved, r, invoked).Stop?
              && StopsFor(ReviewPhase(w, saved, r, invoked).handled, w, saved, ElapsedBeforeReview, r.stopWrite, invoked)
  {
    StopReports(w, saved, ElapsedBudget, i.startWrite, false);
    StopReports(w, saved, ElapsedBudget, r.stopWrite, invoked);
    StopReports(w, saved, ElapsedBeforeReview, r.stopWrite, invoked);
    hide StopAt, StopsFor, Inv;
  }

  /** A reservation that is not reported written launches nothing, and the call ends unresolved. */
  lemma LostReservationReports(w: World, saved: Saved, role: Role, fault: Fault, invoked: bool)
    requires Inv(w) && w.durable == Some(saved) && Reservable(saved.progress.stage, role) && !fault.Healthy?
    requires |saved.progress.task.id| <= LONGEST_TASK_ID
    ensures var phase := ReservePhase(w, saved, role, fault, invoked);
            && phase.Stop? && phase.handled.trace != [] && Last(phase.handled.trace).calls == w.calls
            && phase.handled.result == Result(UnresolvedTask, Unresolved, StoppedBy(NotPersisted), invoked)
  {
    ReserveStep(w, saved, role);
    hide Inv, Allowed, Check;
  }

  /**
   An implementer that is not started for want of time raises and changes nothing. One whose candidate cannot
   be recorded ends the call unresolved; without a candidate the call ends as the implementer said, whether
   that could be recorded or not.
   */
  lemma ImplementerReports(w: World, reserved: Saved, correction: bool, r: Round, invoked: bool)
    requires Inv(w) && w.durable == Some(reserved) && reserved.progress.stage.ImplementerReserved? && NotLaunched(w)
    requires correction ==> reserved.progress.correctionsUsed > 0
    ensures reserved.progress.reservations != []
    ensures var phase := LaunchImplementer(w, reserved, correction, r, invoked);
            && (r.secondsAtLaunch < 1 ==> phase == Stop(Handled([w], RaisedNoTime)))
            && (r.secondsAtLaunch >= 1 && ProducesSome(r) && !r.candidateWrite.Healthy? ==>
                  && phase.Stop?
                  && phase.handled.result
                     == Result(UnresolvedTask, Unresolved, StoppedBy(NotPersisted), invoked || ImplementerStarted(r)))
            && (r.secondsAtLaunch >= 1 && !ProducesSome(r) ==>
                  && phase.Stop? && phase.handled.result.Result? && Tells(r, phase.handled.result.outcome)
                  && phase.handled.result.stage == (if StopsCleanly(r) then Failed else Unresolved)
                  && phase.handled.result.disposition == (if StopsCleanly(r) then FailedTask else UnresolvedTask))
  {
    ImplementerTrace(w, reserved, r);
    KeptFindings(w, reserved);
    CandidateStage(reserved.progress, r);
    hide Inv, GoodTrace, AfterImplementation, Check, Evidenced, Tells;
  }

  /** The reviewer saw the reserved candidate and answered with evidence. */
  predicate AnswersFor(p: Progress, v: Review) {
    p.candidate == Some(v.candidate) && v.evidence.Some? && v.response.Some?
  }

  /** What a review is recorded as, before it is known whether the write succeeds. */
  lemma ReviewStage(p: Progress, r: Round)
    requires p.reservations != []
    ensures var next, v := AfterReview(p, Last(p.reservations), r.review), r.review;
            && next.task == p.task && next.reservations == p.reservations
            && (AnswerOf(p, v).Some? <==> AnswersFor(p, v))
            && (AnswersFor(p, v) ==>
                  (next.stage.CorrectionPending? <==>
                     v.response.value.answer.HasFindings? && p.correctionsUsed < p.task.maximumCorrections))
            && (!AnswersFor(p, v) ==>
                  && next.stage == (if p.candidate == Some(v.candidate) && v.ordinaryTerminal then Failed else Unresolved)
                  && next.outcome == if p.candidate != Some(v.candidate) then StoppedBy(CandidateMismatch) else RunnerCode(v.code))
  {
  }

  /** The worlds of a review: its call, then its record or the world before it. */
  lemma ReviewWorlds(w: World, reserved: Saved, r: Round)
    requires Inv(w) && w.durable == Some(reserved) && reserved.progress.stage.ReviewerReserved? && NotLaunched(w)
    requires ShortEnough(r)
    ensures var p := reserved.progress;
            && p.reservations != [] && p.candidate.Some?
            && var called := w.(calls := w.calls + [ReviewerCall(Last(p.reservations), p.candidate.value, AnswerOf(p, r.review))]);
               var next := AfterReview(p, Last(p.reservations), r.review);
               var after := called.(durable := Some(Saved(next, Some(reserved))));
               Check(next).None? && Inv(after) && called.durable == Some(reserved)
  {
    var p := reserved.progress;
    var called := w.(calls := w.calls + [ReviewerLaunch(p, r.review)]);
    ReviewerCallStep(w, reserved, r.review);
    ReviewerRecordStep(called, reserved, r.review);
    ShortFindings(p, r, called);
    hide Allowed, AfterReview, AnswerOf, Check, CallsOk, Logged;
  }

  /**
   A review without an answer ends the call as the reviewer's run says, recorded or not; an answer that cannot
   be recorded ends it unresolved; and findings that may be corrected, with no time left, end it failed before
   the correction.
   */
  lemma ReviewerReports(w: World, reserved: Saved, r: Round, invoked: bool)
    requires Inv(w) && w.durable == Some(reserved) && reserved.progress.stage.ReviewerReserved? && NotLaunched(w)
    requires ShortEnough(r)
    ensures reserved.progress.reservations != [] && reserved.progress.candidate.Some?
    ensures var p, v, phase := reserved.progress, r.review, LaunchReviewer(w, reserved, r, invoked);
            var started := invoked || v.processStarted;
            && (!AnswersFor(p, v) ==>
                  && phase.Stop? && phase.handled.result.Result? && phase.handled.result.providerInvoked == started
                  && phase.handled.result.stage
                     == (if p.candidate == Some(v.candidate) && v.ordinaryTerminal then Failed else Unresolved)
                  && phase.handled.result.outcome
                     == (if p.candidate != Some(v.candidate) then StoppedBy(CandidateMismatch) else RunnerCode(v.code)))
            && (AnswersFor(p, v) && !r.reviewWrite.Healthy? ==>
                  phase.Stop?
                  && phase.handled.result == Result(UnresolvedTask, Unresolved, StoppedBy(NotPersisted), started))
            && (AnswersFor(p, v) && r.reviewWrite.Healthy? && r.secondsAfterReview < 1
                && v.response.value.answer.HasFindings? && p.correctionsUsed < p.task.maximumCorrections ==>
                  phase.Stop?
                  && phase.handled.result
                     == (if r.stopWrite.Healthy? then Result(FailedTask, Failed, StoppedBy(ElapsedBeforeCorrection), started)
                         else Result(UnresolvedTask, Unresolved, StoppedBy(NotPersisted), started)))
  {
    hide Inv, AfterReview, AnswerOf, Check, StopAt, NotLaunched, AnswersFor, ShortEnough;
    ReviewWorlds(w, reserved, r);
    var p := reserved.progress;
    ReviewStage(p, r);
    var called := w.(calls := w.calls + [ReviewerCall(Last(p.reservations), p.candidate.value, AnswerOf(p, r.review))]);
    var saved := Saved(AfterReview(p, Last(p.reservations), r.review), Some(reserved));
    var after := called.(durable := Some(saved));
    if saved.progress.stage.CorrectionPending? {
      StopReports(after, saved, ElapsedBeforeCorrection, r.stopWrite, invoked || r.review.processStarted);
    }
  }
}
