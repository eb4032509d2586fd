/**
 The development workflow: implementation, independent review and bounded corrections of one task, with
 every invocation reserved durably before it is launched.

 As for the work cycle, the world is the durable progress together with the log of runner calls, and a
 handler call is described by the sequence of worlds it passes through.
 */
module Development {
  import opened Common
  import opened Refs

  const MAX_IDENTIFIER := 128
  const MAX_REPORTS := 8
  const MAX_CORRECTIONS := 3
  const MAX_FINDINGS := 16384

  datatype Stage =
    | Imported | ImplementerReserved | CandidateReady | ReviewerReserved | CorrectionPending
    | Findings | Accepted | Failed | Unresolved | Exported

  datatype Role = Implementer | Reviewer

  /** The execution ID `<task>-<role>-<ordinal>` of one reserved invocation. */
  datatype Reservation = Reservation(role: Role, ordinal: nat)

  datatype Task = Task(
    id: string, baseCommit: string, maximumInvocations: nat, maximumCorrections: nat, timeoutSeconds: nat)

  predicate ValidTask(t: Task) {
    && 1 <= |t.id| <= MAX_IDENTIFIER
    && t.maximumCorrections <= MAX_CORRECTIONS
    && 2 + 2 * t.maximumCorrections <= t.maximumInvocations <= 8
    && 1 <= t.timeoutSeconds <= 900
  }

  function Digits(n: nat): nat {
    if n < 10 then 1 else 1 + Digits(n / 10)
  }

  /** The length of the execution ID as text. */
  function IdLength(t: Task, r: Reservation): nat {
    |t.id| + (if r.role.Implementer? then |"-implementer-"| else |"-reviewer-"|) + Digits(r.ordinal)
  }

  datatype Answer = NoFindings | HasFindings | OtherAnswer(code: string)

  datatype StopReason =
    | ElapsedBudget | InvocationBudget | FindingsUnavailable | CandidateMismatch | ElapsedBeforeReview
    | ElapsedBeforeCorrection | EvidenceUnavailable | NotPersisted

  datatype Outcome = NoOutcome | Answered(answer: Answer) | RunnerCode(code: string) | StoppedBy(reason: StopReason)

  /** One workflow snapshot. The task stands for its digest, which identifies its whole content. */
  datatype Progress = Progress(
    task: Task, authority: string, stage: Stage, reservations: seq<Reservation>,
    candidate: Option<string>, implementationEvidence: Option<string>, reviewEvidence: Option<string>,
    outcome: Outcome, findings: Option<string>, correctionsUsed: nat, replyState: Option<string>,
    reports: seq<Reservation>)

  datatype Saved = Saved(progress: Progress, parent: Option<Saved>)

  /** Why a snapshot's constructor refuses its fields, if it does. */
  datatype Refusal = IdentifierTooLong | FindingsTooLong | CountsRefused

  function Check(p: Progress): Option<Refusal> {
    if exists k | 0 <= k < |p.reservations| :: IdLength(p.task, p.reservations[k]) > MAX_IDENTIFIER then
      Some(IdentifierTooLong)
    else if !NoDup(p.reservations) || p.correctionsUsed > MAX_CORRECTIONS || |p.reports| > MAX_REPORTS then
      Some(CountsRefused)
    else if p.findings.Some? && |p.findings.value| > MAX_FINDINGS then Some(FindingsTooLong)
    else None
  }

  /** The calls made to the two runners, with what each was given and what it answered. */
  datatype Call =
    | ImplementerCall(id: Reservation, start: string, produced: Option<string>)
    | ReviewerCall(id: Reservation, candidate: string, answer: Option<Answer>)

  datatype World = World(durable: Option<Saved>, calls: seq<Call>)

  // ---------------------------------------------------------------- what a handler call meets

  datatype Observation = Observation(candidate: Option<string>, succeeded: bool, code: string, processStarted: bool, refTrouble: bool)
  datatype Provenance = Provenance(recorded: bool, admissionRetained: bool, releaseFailed: bool, evidence: Option<string>)
  datatype Implementation = Implementation(observation: Option<Observation>, provenance: Provenance)

  function EvidenceOf(r: Implementation): Option<string> {
    if r.observation.None? then None else r.provenance.evidence
  }

  function CandidateOf(r: Implementation): Option<string> {
    if r.observation.None? then None else r.observation.value.candidate
  }

  /** A failure that stopped cleanly and left nothing behind to reconcile. */
  predicate OrdinaryFailure(r: Implementation) {
    && r.observation.Some?
    && !r.observation.value.succeeded
    && r.observation.value.candidate.None?
    && r.provenance.recorded && !r.provenance.admissionRetained && !r.provenance.releaseFailed
    && !r.observation.value.refTrouble
  }

  datatype Response = Response(answer: Answer, findings: string)
  datatype Review = Review(
    candidate: string, evidence: Option<string>, response: Option<Response>, ordinaryTerminal: bool,
    code: string, processStarted: bool)

  /** The clock, the runners and the durable writes of one pass of the loop. */
  datatype Round = Round(
    secondsAtHead: nat, reserveWrite: Fault, secondsAtLaunch: nat, implementation: Implementation,
    candidateWrite: Fault, secondsBeforeReview: nat, reviewReserveWrite: Fault, review: Review,
    reviewWrite: Fault, secondsAfterReview: nat, stopWrite: Fault)

  datatype HandlerInput = HandlerInput(
    active: bool, messageSelected: bool, taskMatches: bool, loadFails: bool, importWrite: Fault,
    secondsAtStart: nat, startWrite: Fault, rounds: nat -> Round)

  datatype Disposition = CompletedTask | FailedTask | UnresolvedTask

  datatype Result =
    | Result(disposition: Disposition, stage: Stage, outcome: Outcome, providerInvoked: bool)
    | Rejected(disposition: Disposition)      // decided before any progress was looked at
    | RaisedBy(refusal: Refusal)
    | RaisedNoTime
    | RaisedAssertion
    | RaisedLoad

  datatype Handled = Handled(trace: seq<World>, result: Result)

  function ResultFor(p: Progress, invoked: bool): Result {
    var disposition := match p.stage
      case Accepted => CompletedTask
      case Exported => CompletedTask
      case Findings => FailedTask
      case Failed => FailedTask
      case _ => UnresolvedTask;
    Result(disposition, p.stage, p.outcome, invoked)
  }

  function Unpersisted(p: Progress, invoked: bool): Result {
    ResultFor(p.(stage := Unresolved, outcome := StoppedBy(NotPersisted)), invoked)
  }

  /** `persist`: the ref must still hold the expected snapshot. */
  function Persist(w: World, p: Progress, expected: Option<Saved>, fault: Fault): (r: (bool, World)) {
    var (ok, durable) := Cas(w.durable, expected, Saved(p, expected), fault);
    (ok, w.(durable := durable))
  }

  /** Stop at a budget: a terminal snapshot, reported unresolved if it cannot be written. */
  function StopAt(w: World, saved: Saved, reason: StopReason, fault: Fault, invoked: bool): Handled {
    var p := saved.progress.(stage := Failed, outcome := StoppedBy(reason));
    if Check(p).Some? then Handled([w], RaisedBy(Check(p).value))
    else
      var (ok, after) := Persist(w, p, Some(saved), fault);
      Handled([w, after], if ok then ResultFor(p, invoked) else Unpersisted(p, invoked))
  }

  /** A pass either ends the handler call or leaves a durable snapshot to go on from. */
  datatype Phase = Stop(handled: Handled) | Go(trace: seq<World>, saved: Saved, invoked: bool)

  function Reserve(p: Progress, role: Role): Progress {
    p.(stage := if role.Implementer? then ImplementerReserved else ReviewerReserved,
       reservations := p.reservations + [Reservation(role, |p.reservations| + 1)],
       correctionsUsed := p.correctionsUsed + if p.stage.CorrectionPending? then 1 else 0)
  }

  predicate Ready(p: Progress) {
    p.stage.CandidateReady? && p.candidate.Some?
  }

  /** Two consecutive traces; the second starts where the first ends. */
  function Join(a: seq<World>, b: seq<World>): seq<World> {
    if b == [] then a else a + b[1..]
  }

  /** A correction is due and the budget allows it. */
  predicate Correctable(p: Progress) {
    p.stage.CorrectionPending? && p.correctionsUsed < p.task.maximumCorrections
  }

  function StartOf(p: Progress): string {
    if p.candidate.Some? then p.candidate.value else p.task.baseCommit
  }

  /** The snapshot after the implementer returned. */
  function AfterImplementation(p: Progress, id: Reservation, r: Implementation): Progress {
    var candidate, evidence := CandidateOf(r), EvidenceOf(r);
    if candidate.None? || evidence.None? then
      p.(stage := if OrdinaryFailure(r) then Failed else Unresolved,
         candidate := if candidate.Some? then candidate else p.candidate,
         implementationEvidence := if evidence.Some? then evidence else p.implementationEvidence,
         outcome := if r.observation.Some? then RunnerCode(r.observation.value.code)
                    else StoppedBy(EvidenceUnavailable),
         reports := p.reports + [id])
    else
      p.(stage := CandidateReady, candidate := candidate, implementationEvidence := evidence,
         reports := p.reports + [id])
  }

  /** Launch the reserved implementer and record its result. */
  function LaunchImplementer(w: World, reserved: Saved, correction: bool, r: Round, invoked: bool): (phase: Phase)
    requires reserved.progress.reservations != []
    ensures phase.Go? ==>
              phase.trace != [] && Ready(phase.saved.progress)
              && phase.saved.progress.task == reserved.progress.task
              && phase.saved.progress.correctionsUsed == reserved.progress.correctionsUsed
  {
    var p := reserved.progress;
    if correction && (p.findings.None? || p.findings.value == "" || p.reviewEvidence.None?) then
      Stop(Handled([w], ResultFor(p.(stage := Unresolved, outcome := StoppedBy(FindingsUnavailable)), invoked)))
    else if p.task.timeoutSeconds < 1 || r.secondsAtLaunch < 1 then Stop(Handled([w], RaisedNoTime))
    else
      var id := Last(p.reservations);
      var called := w.(calls := w.calls + [ImplementerCall(id, StartOf(p), CandidateOf(r.implementation))]);
      var invoked' := invoked || (r.implementation.observation.Some? && r.implementation.observation.value.processStarted);
      var next := AfterImplementation(p, id, r.implementation);
      if Check(next).Some? then Stop(Handled([w, called], RaisedBy(Check(next).value)))
      else
        var (ok, after) := Persist(called, next, Some(reserved), r.candidateWrite);
        if !next.stage.CandidateReady? then Stop(Handled([w, called, after], ResultFor(next, invoked')))
        else if !ok then Stop(Handled([w, called, after], Unpersisted(next, invoked')))
        else Go([w, called, after], Saved(next, Some(reserved)), invoked')
  }

  /** Go on with a further phase from where a trace ends. */
  function Then(trace: seq<World>, phase: Phase): Phase {
    match phase
    case Stop(h) => Stop(Handled(Join(trace, h.trace), h.result))
    case Go(more, saved, invoked) => Go(Join(trace, more), saved, invoked)
  }

  /** Reserve one invocation durably; nothing is launched unless the reservation is reported written. */
  function ReservePhase(w: World, saved: Saved, role: Role, fault: Fault, invoked: bool): (phase: Phase)
    ensures phase.Go? ==> phase.trace != [] && phase.saved == Saved(Reserve(saved.progress, role), Some(saved))
  {
    var next := Reserve(saved.progress, role);
    if Check(next).Some? then Stop(Handled([w], RaisedBy(Check(next).value)))
    else
      var (ok, after) := Persist(w, next, Some(saved), fault);
      if !ok then Stop(Handled([w, after], Unpersisted(next, invoked)))
      else Go([w, after], Saved(next, Some(saved)), invoked)
  }

  function ImplementPhase(w: World, saved: Saved, r: Round, invoked: bool): (phase: Phase)
    ensures phase.Go? ==>
              phase.trace != [] && Ready(phase.saved.progress)
              && phase.saved.progress.task == saved.progress.task
              && phase.saved.progress.correctionsUsed
                 == saved.progress.correctionsUsed + if saved.progress.stage.CorrectionPending? then 1 else 0
  {
    if r.secondsAtHead < 1 then Stop(StopAt(w, saved, ElapsedBudget, r.stopWrite, invoked))
    else if |saved.progress.reservations| >= saved.progress.task.maximumInvocations then
      Stop(StopAt(w, saved, InvocationBudget, r.stopWrite, invoked))
    else
      match ReservePhase(w, saved, Implementer, r.reserveWrite, invoked)
      case Stop(h) => Stop(h)
      case Go(trace, reserved, _) =>
        Then(trace, LaunchImplementer(Last(trace), reserved, saved.progress.stage.CorrectionPending?, r, invoked))
  }

  /** The snapshot after the reviewer returned. */
  function AfterReview(p: Progress, id: Reservation, v: Review): Progress {
    var reported := p.(reports := p.reports + [id]);
    if Some(v.candidate) != p.candidate then
      reported.(stage := Unresolved, outcome := StoppedBy(CandidateMismatch))
    else if v.evidence.None? || v.response.None? then
      reported.(stage := if v.ordinaryTerminal then Failed else Unresolved,
                reviewEvidence := if v.evidence.Some? then v.evidence else p.reviewEvidence,
                outcome := RunnerCode(v.code))
    else
      var answered := reported.(reviewEvidence := v.evidence, outcome := Answered(v.response.value.answer),
                                findings := Some(v.response.value.findings));
      match v.response.value.answer
      case NoFindings => answered.(stage := Accepted)
      case HasFindings =>
        answered.(stage := if p.correctionsUsed < p.task.maximumCorrections then CorrectionPending else Findings)
      case OtherAnswer(_) => answered.(stage := Unresolved)
  }

  function AnswerOf(p: Progress, v: Review): Option<Answer> {
    if Some(v.candidate) == p.candidate && v.evidence.Some? && v.response.Some? then Some(v.response.value.answer)
    else None
  }

  function LaunchReviewer(w: World, reserved: Saved, r: Round, invoked: bool): (phase: Phase)
    requires reserved.progress.candidate.Some? && reserved.progress.reservations != []
    ensures phase.Go? ==>
              phase.trace != [] && Correctable(phase.saved.progress)
              && phase.saved.progress.task == reserved.progress.task
              && phase.saved.progress.correctionsUsed == reserved.progress.correctionsUsed
  {
    var p := reserved.progress;
    var id := Last(p.reservations);
    var called := w.(calls := w.calls + [ReviewerCall(id, p.candidate.value, AnswerOf(p, r.review))]);
    var invoked' := invoked || r.review.processStarted;
    var next := AfterReview(p, id, r.review);
    if Check(next).Some? then Stop(Handled([w, called], RaisedBy(Check(next).value)))
    else
      var (ok, after) := Persist(called, next, Some(reserved), r.reviewWrite);
      if AnswerOf(p, r.review).None? then Stop(Handled([w, called, after], ResultFor(next, invoked')))
      else if !ok then Stop(Handled([w, called, after], Unpersisted(next, invoked')))
      else if !next.stage.CorrectionPending? then Stop(Handled([w, called, after], ResultFor(next, invoked')))
      else if r.secondsAfterReview < 1 then
        Then([w, called, after],
             Stop(StopAt(after, Saved(next, Some(reserved)), ElapsedBeforeCorrection, r.stopWrite, invoked')))
      else Go([w, called, after], Saved(next, Some(reserved)), invoked')
  }

  function ReviewPhase(w: World, saved: Saved, r: Round, invoked: bool): (phase: Phase)
    requires saved.progress.stage.CandidateReady?
    ensures phase.Go? ==>
              phase.trace != [] && Correctable(phase.saved.progress)
              && phase.saved.progress.task == saved.progress.task
              && phase.saved.progress.correctionsUsed == saved.progress.correctionsUsed
  {
    if r.secondsBeforeReview < 1 then Stop(StopAt(w, saved, ElapsedBeforeReview, r.stopWrite, invoked))
    else if |saved.progress.reservations| >= saved.progress.task.maximumInvocations then
      Stop(StopAt(w, saved, InvocationBudget, r.stopWrite, invoked))
    else if saved.progress.candidate.None? then Stop(Handled([w], RaisedAssertion))
    else
      match ReservePhase(w, saved, Reviewer, r.reviewReserveWrite, invoked)
      case Stop(h) => Stop(h)
      case Go(trace, reserved, _) => Then(trace, LaunchReviewer(Last(trace), reserved, r, invoked))
  }

  predicate LoopHead(p: Progress) {
    p.stage.Imported? || p.stage.CorrectionPending? || p.stage.CandidateReady?
  }

  /** Every further pass starts one correction later, whatever snapshot the loop was entered with. */
  function Measure(p: Progress): nat {
    2 * (if p.correctionsUsed < p.task.maximumCorrections then p.task.maximumCorrections - p.correctionsUsed else 0)
    + if p.stage.CorrectionPending? then 0 else 1
  }

  /** One pass of the loop: an implementation unless a candidate is ready, then its review. */
  function Pass(w: World, saved: Saved, r: Round, invoked: bool): (phase: Phase)
    requires LoopHead(saved.progress)
    ensures phase.Go? ==>
              phase.trace != [] && Correctable(phase.saved.progress)
              && Measure(phase.saved.progress) < Measure(saved.progress)
  {
    if saved.progress.stage.CandidateReady? then ReviewPhase(w, saved, r, invoked)
    else
      match ImplementPhase(w, saved, r, invoked)
      case Stop(h) => Stop(h)
      case Go(trace, ready, invoked') => Then(trace, ReviewPhase(Last(trace), ready, r, invoked'))
  }

  /** The loop, pass after pass. */
  function Loop(w: World, saved: Saved, rounds: nat -> Round, n: nat, invoked: bool): Handled
    requires LoopHead(saved.progress)
    decreases Measure(saved.progress)
  {
    match Pass(w, saved, rounds(n), invoked)
    case Stop(h) => h
    case Go(trace, next, invoked') =>
      var rest := Loop(Last(trace), next, rounds, n + 1, invoked');
      Handled(Join(trace, rest.trace), rest.result)
  }

  function Fresh(task: Task, authority: string): Progress {
    Progress(task, authority, Imported, [], None, None, None, NoOutcome, None, 0, None, [])
  }

  predicate Terminal(stage: Stage) {
    stage.Accepted? || stage.Findings? || stage.Failed? || stage.Unresolved? || stage.Exported?
  }

  predicate Reserved(stage: Stage) {
    stage.ImplementerReserved? || stage.ReviewerReserved?
  }

  /** Take up durable progress: report a terminal or reserved snapshot, otherwise enter the loop. */
  function Resume(w: World, saved: Saved, i: HandlerInput): Handled {
    var p := saved.progress;
    if Terminal(p.stage) || Reserved(p.stage) then Handled([w], ResultFor(p, false))
    else if i.secondsAtStart < 1 then StopAt(w, saved, ElapsedBudget, i.startWrite, false)
    else Loop(w, saved, i.rounds, 0, false)
  }

  /** Record a task nobody has started yet, then go on with it. */
  function Import(w: World, task: Task, authority: string, i: HandlerInput): Handled {
    var p := Fresh(task, authority);
    var (ok, after) := Persist(w, p, None, i.importWrite);
    if !ok then Handled([w, after], Unpersisted(p, false))
    else
      var rest := Resume(after, Saved(p, None), i);
      Handled(Join([w, after], rest.trace), rest.result)
  }

  /** One call of the workflow handler for the selected message. */
  function Handle(w: World, task: Task, authority: string, i: HandlerInput): Handled {
    if !i.active then Handled([w], Rejected(UnresolvedTask))
    else if !i.messageSelected || !i.taskMatches then Handled([w], Rejected(FailedTask))
    else if i.loadFails then Handled([w], RaisedLoad)
    else if w.durable.None? then Import(w, task, authority, i)
    else if w.durable.value.progress.task != task || w.durable.value.progress.authority != authority then
      Handled([w], Rejected(UnresolvedTask))
    else Resume(w, w.durable.value, i)
  }

  /** The export step: record the published reply, and EXPORTED only for an accepted candidate. */
  function Export(w: World, reply: string, fault: Fault): (r: (bool, seq<World>)) {
    if w.durable.None? then (false, [w])
    else
      var saved := w.durable.value;
      var p := saved.progress;
      if p.stage.Exported? && p.replyState == Some(reply) then (true, [w])
      else
        var (ok, after) := Persist(
                             w, p.(stage := if p.stage.Accepted? then Exported else p.stage, replyState := Some(reply)),
                             Some(saved), fault);
        (ok, [w, after])
  }

  // ---------------------------------------------------------------- the running handler

  /** How a phase shows to the caller of the method that performs it. */
  ghost predicate Performs(
    phase: Phase, before: seq<World>, after: seq<World>, stop: Option<Result>, next: Saved, invoked: bool)
  {
    match phase
    case Stop(h) => h.trace != [] && stop == Some(h.result) && after == before + h.trace[1..]
    case Go(trace, saved, invoked') =>
      |trace| > 1 && stop.None? && next == saved && invoked == invoked' && after == before + trace[1..]
  }

  lemma PerformsThen(
    trace: seq<World>, phase: Phase, before: seq<World>, between: seq<World>, after: seq<World>,
    stop: Option<Result>, next: Saved, invoked: bool)
    requires trace != [] && between == before + trace[1..]
    requires Performs(phase, between, after, stop, next, invoked)
    ensures Performs(Then(trace, phase), before, after, stop, next, invoked)
  {
  }

  lemma JoinPerformed(
    first: seq<World>, rest: seq<World>, before: seq<World>, between: seq<World>, after: seq<World>)
    requires first != [] && rest != []
    requires between == before + first[1..] && after == between + rest[1..]
    ensures Join(first, rest) != [] && after == before + Join(first, rest)[1..]
  {
  }

  lemma JoinAssociative(a: seq<World>, b: seq<World>, c: seq<World>)
    requires b != []
    ensures Join(a, Join(b, c)) == Join(Join(a, b), c)
  {
  }

  /** What is left of the loop, appended to what was done, is the whole. */
  ghost predicate Completes(
    whole: Handled, done: seq<World>, w: World, saved: Saved, rounds: nat -> Round, n: nat, invoked: bool)
    requires LoopHead(saved.progress)
  {
    var rest := Loop(w, saved, rounds, n, invoked);
    whole == Handled(Join(done, rest.trace), rest.result)
  }

  lemma CompletesFirst(w: World, saved: Saved, rounds: nat -> Round)
    requires LoopHead(saved.progress)
    ensures Completes(Loop(w, saved, rounds, 0, false), [w], w, saved, rounds, 0, false)
    ensures Loop(w, saved, rounds, 0, false).trace != [] && Loop(w, saved, rounds, 0, false).trace[0] == w
  {
    LoopStarts(w, saved, rounds, 0, false);
  }

  ghost predicate StartsAt(phase: Phase, w: World) {
    match phase
    case Stop(h) => h.trace != [] && h.trace[0] == w
    case Go(trace, _, _) => trace != [] && trace[0] == w
  }

  lemma ImplementStarts(w: World, saved: Saved, r: Round, invoked: bool)
    ensures StartsAt(ImplementPhase(w, saved, r, invoked), w)
  {
    assert StartsAt(ReservePhase(w, saved, Implementer, r.reserveWrite, invoked), w);
  }

  lemma ReviewStarts(w: World, saved: Saved, r: Round, invoked: bool)
    requires saved.progress.stage.CandidateReady?
    ensures StartsAt(ReviewPhase(w, saved, r, invoked), w)
  {
    assert StartsAt(ReservePhase(w, saved, Reviewer, r.reviewReserveWrite, invoked), w);
  }

  lemma PassStarts(w: World, saved: Saved, r: Round, invoked: bool)
    requires LoopHead(saved.progress)
    ensures StartsAt(Pass(w, saved, r, invoked), w)
  {
    if saved.progress.stage.CandidateReady? {
      ReviewStarts(w, saved, r, invoked);
    } else {
      ImplementStarts(w, saved, r, invoked);
    }
  }

  lemma LoopStarts(w: World, saved: Saved, rounds: nat -> Round, n: nat, invoked: bool)
    requires LoopHead(saved.progress)
    ensures Loop(w, saved, rounds, n, invoked).trace != [] && Loop(w, saved, rounds, n, invoked).trace[0] == w
  {
    PassStarts(w, saved, rounds(n), invoked);
  }

  lemma CompletesNext(
    whole: Handled, done: seq<World>, w: World, saved: Saved, rounds: nat -> Round, n: nat, invoked: bool, phase: Phase)
    requires LoopHead(saved.progress) && phase == Pass(w, saved, rounds(n), invoked)
    requires Completes(whole, done, w, saved, rounds, n, invoked)
    ensures match phase
            case Stop(h) => whole == Handled(Join(done, h.trace), h.result)
            case Go(trace, next, invoked') =>
              && trace != [] && LoopHead(next.progress) && Measure(next.progress) < Measure(saved.progress)
              && Completes(whole, Join(done, trace), Last(trace), next, rounds, n + 1, invoked')
  {
    if phase.Go? {
      JoinAssociative(done, phase.trace, Loop(Last(phase.trace), phase.saved, rounds, n + 1, phase.invoked).trace);
    }
  }

  /** A performed phase, seen from the start of the loop. */
  lemma TurnPerformed(
    whole: Handled, start: seq<World>, done: seq<World>, phase: Phase, before: seq<World>, after: seq<World>,
    stop: Option<Result>, next: Saved, invoked: bool)
    requires phase.Stop? ==> whole == Handled(Join(done, phase.handled.trace), phase.handled.result)
    requires done != [] && before == start + done[1..]
    requires Performs(phase, before, after, stop, next, invoked)
    ensures stop.Some? ==> whole.trace != [] && stop.value == whole.result && after == start + whole.trace[1..]
    ensures stop.None? ==>
              phase.Go? && after == start + Join(done, phase.trace)[1..] && Last(after) == Last(phase.trace)
  {
  }

  class Workflow {
    var durable: Option<Saved>
    var calls: seq<Call>
    ghost var history: seq<World>

    ghost predicate Recorded()
      reads this
    {
      history != [] && Last(history) == World(durable, calls)
    }

    constructor ()
      ensures Recorded() && history == [World(None, [])]
    {
      durable, calls, history := None, [], [World(None, [])];
    }

    method Write(p: Progress, expected: Option<Saved>, fault: Fault) returns (ok: bool)
      requires Recorded()
      modifies this
      ensures Recorded() && history == old(history) + [World(durable, calls)]
      ensures (ok, World(durable, calls)) == Persist(World(old(durable), old(calls)), p, expected, fault)
    {
      var result := Cas(durable, expected, Saved(p, expected), fault);
      ok, durable := result.0, result.1;
      history := history + [World(durable, calls)];
    }

    method Launched(call: Call)
      requires Recorded()
      modifies this
      ensures Recorded() && durable == old(durable) && calls == old(calls) + [call]
      ensures history == old(history) + [World(durable, calls)]
    {
      calls := calls + [call];
      history := history + [World(durable, calls)];
    }

    method StopWith(saved: Saved, reason: StopReason, fault: Fault, invoked: bool) returns (result: Result)
      requires Recorded()
      modifies this
      ensures Recorded()
      ensures var h := StopAt(World(old(durable), old(calls)), saved, reason, fault, invoked);
              h.trace != [] && result == h.result && history == old(history) + h.trace[1..]
    {
      var p := saved.progress.(stage := Failed, outcome := StoppedBy(reason));
      if Check(p).Some? {
        return RaisedBy(Check(p).value);
      }
      var ok := Write(p, Some(saved), fault);
      result := if ok then ResultFor(p, invoked) else Unpersisted(p, invoked);
    }

    method RunReservation(saved: Saved, role: Role, fault: Fault, invoked: bool)
      returns (stop: Option<Result>, reserved: Saved)
      requires Recorded()
      modifies this
      ensures Recorded()
      ensures Performs(ReservePhase(World(old(durable), old(calls)), saved, role, fault, invoked),
                       old(history), history, stop, reserved, invoked)
    {
      var next := Reserve(saved.progress, role);
      reserved := Saved(next, Some(saved));
      if Check(next).Some? {
        return Some(RaisedBy(Check(next).value)), reserved;
      }
      var ok := Write(next, Some(saved), fault);
      stop := if ok then None else Some(Unpersisted(next, invoked));
    }

    /** Reserve, launch and record one implementer. */
    method RunImplementPhase(saved: Saved, r: Round, invoked: bool)
      returns (stop: Option<Result>, next: Saved, invoked': bool)
      requires Recorded()
      modifies this
      ensures Recorded()
      ensures Performs(ImplementPhase(World(old(durable), old(calls)), saved, r, invoked),
                       old(history), history, stop, next, invoked')
    {
      next, invoked' := saved, invoked;
      if r.secondsAtHead < 1 || |saved.progress.reservations| >= saved.progress.task.maximumInvocations {
        var result := StopWith(
          saved, if r.secondsAtHead < 1 then ElapsedBudget else InvocationBudget, r.stopWrite, invoked);
        return Some(result), next, invoked';
      }
      ghost var reservation := ReservePhase(World(durable, calls), saved, Implementer, r.reserveWrite, invoked);
      ghost var before := history;
      stop, next := RunReservation(saved, Implementer, r.reserveWrite, invoked);
      if stop.None? {
        var correction := saved.progress.stage.CorrectionPending?;
        ghost var between, launch := history, LaunchImplementer(World(durable, calls), next, correction, r, invoked);
        stop, next, invoked' := RunImplementer(next, correction, r, invoked);
        PerformsThen(reservation.trace, launch, before, between, history, stop, next, invoked');
      }
    }

    method RunImplementer(reserved: Saved, correction: bool, r: Round, invoked: bool)
      returns (stop: Option<Result>, next: Saved, invoked': bool)
      requires Recorded() && reserved.progress.reservations != []
      modifies this
      ensures Recorded()
      ensures Performs(LaunchImplementer(World(old(durable), old(calls)), reserved, correction, r, invoked),
                       old(history), history, stop, next, invoked')
    {
      next, invoked' := reserved, invoked;
      var p := reserved.progress;
      if correction && (p.findings.None? || p.findings.value == "" || p.reviewEvidence.None?) {
        var stopped := p.(stage := Unresolved, outcome := StoppedBy(FindingsUnavailable));
        return Some(ResultFor(stopped, invoked)), next, invoked';
      }
      if p.task.timeoutSeconds < 1 || r.secondsAtLaunch < 1 {
        return Some(RaisedNoTime), next, invoked';
      }
      var id := Last(p.reservations);
      Launched(ImplementerCall(id, StartOf(p), CandidateOf(r.implementation)));
      if r.implementation.observation.Some? && r.implementation.observation.value.processStarted {
        invoked' := true;
      }
      var progress := AfterImplementation(p, id, r.implementation);
      if Check(progress).Some? {
        return Some(RaisedBy(Check(progress).value)), next, invoked';
      }
      var ok := Write(progress, Some(reserved), r.candidateWrite);
      next := Saved(progress, Some(reserved));
      stop := if !progress.stage.CandidateReady? then Some(ResultFor(progress, invoked'))
              else if !ok then Some(Unpersisted(progress, invoked'))
              else None;
    }

    /** Reserve, launch and record one reviewer. */
    method RunReviewPhase(saved: Saved, r: Round, invoked: bool)
      returns (stop: Option<Result>, next: Saved, invoked': bool)
      requires Recorded() && saved.progress.stage.CandidateReady?
      modifies this
      ensures Recorded()
      ensures Performs(ReviewPhase(World(old(durable), old(calls)), saved, r, invoked),
                       old(history), history, stop, next, invoked')
    {
      next, invoked' := saved, invoked;
      if r.secondsBeforeReview < 1 || |saved.progress.reservations| >= saved.progress.task.maximumInvocations {
        var result := StopWith(
          saved, if r.secondsBeforeReview < 1 then ElapsedBeforeReview else InvocationBudget, r.stopWrite, invoked);
        return Some(result), next, invoked';
      }
      if saved.progress.candidate.None? {
        return Some(RaisedAssertion), next, invoked';
      }
      ghost var reservation := ReservePhase(World(durable, calls), saved, Reviewer, r.reviewReserveWrite, invoked);
      ghost var before := history;
      stop, next := RunReservation(saved, Reviewer, r.reviewReserveWrite, invoked);
      if stop.None? {
        ghost var between, launch := history, LaunchReviewer(World(durable, calls), next, r, invoked);
        stop, next, invoked' := RunReviewer(next, r, invoked);
        PerformsThen(reservation.trace, launch, before, between, history, stop, next, invoked');
      }
    }

    method RunReviewer(reserved: Saved, r: Round, invoked: bool)
      returns (stop: Option<Result>, next: Saved, invoked': bool)
      requires Recorded() && reserved.progress.candidate.Some? && reserved.progress.reservations != []
      modifies this
      ensures Recorded()
      ensures Performs(LaunchReviewer(World(old(durable), old(calls)), reserved, r, invoked),
                       old(history), history, stop, next, invoked')
    {
      hide Check, AfterReview, AnswerOf, StopAt, Cas;
      next, invoked' := reserved, invoked || r.review.processStarted;
      var p := reserved.progress;
      var id := Last(p.reservations);
      Launched(ReviewerCall(id, p.candidate.value, AnswerOf(p, r.review)));
      var progress := AfterReview(p, id, r.review);
      if Check(progress).Some? {
        return Some(RaisedBy(Check(progress).value)), next, invoked';
      }
      var ok := Write(progress, Some(reserved), r.reviewWrite);
      next := Saved(progress, Some(reserved));
      if AnswerOf(p, r.review).Some? && ok && progress.stage.CorrectionPending? {
        stop := None;
        if r.secondsAfterReview < 1 {
          var result := StopWith(next, ElapsedBeforeCorrection, r.stopWrite, invoked');
          stop := Some(result);
        }
      } else {
        stop := Some(if AnswerOf(p, r.review).None? || ok then ResultFor(progress, invoked')
                     else Unpersisted(progress, invoked'));
      }
    }

    /** One pass of the loop. */
    method RunPass(saved: Saved, r: Round, invoked: bool) returns (stop: Option<Result>, next: Saved, invoked': bool)
      requires Recorded() && LoopHead(saved.progress)
      modifies this
      ensures Recorded()
      ensures Performs(Pass(World(old(durable), old(calls)), saved, r, invoked),
                       old(history), history, stop, next, invoked')
    {
      stop, next, invoked' := None, saved, invoked;
      if saved.progress.stage.CandidateReady? {
        stop, next, invoked' := RunReviewPhase(saved, r, invoked);
      } else {
        ghost var first, before := ImplementPhase(World(durable, calls), saved, r, invoked), history;
        stop, next, invoked' := RunImplementPhase(saved, r, invoked);
        if stop.None? {
          ghost var between, second := history, ReviewPhase(World(durable, calls), next, r, invoked');
          assert World(durable, calls) == Last(first.trace);
          stop, next, invoked' := RunReviewPhase(next, r, invoked');
          PerformsThen(first.trace, second, before, between, history, stop, next, invoked');
        }
      }
    }

    /** One pass, and what it leaves of the whole loop. */
    method RunTurn(
      ghost whole: Handled, ghost start: seq<World>, ghost done: seq<World>, current: Saved, rounds: nat -> Round,
      n: nat, invoked: bool)
      returns (stop: Option<Result>, next: Saved, invoked': bool, ghost done': seq<World>)
      requires Recorded() && LoopHead(current.progress)
      requires done != [] && history == start + done[1..]
      requires Completes(whole, done, World(durable, calls), current, rounds, n, invoked)
      modifies this
      ensures Recorded()
      ensures stop.Some? ==> whole.trace != [] && stop.value == whole.result && history == start + whole.trace[1..]
      ensures stop.None? ==>
                && LoopHead(next.progress) && Measure(next.progress) < Measure(current.progress)
                && done' != [] && history == start + done'[1..]
                && Completes(whole, done', World(durable, calls), next, rounds, n + 1, invoked')
    {
      ghost var before, phase := history, Pass(World(durable, calls), current, rounds(n), invoked);
      CompletesNext(whole, done, World(durable, calls), current, rounds, n, invoked, phase);
      stop, next, invoked' := RunPass(current, rounds(n), invoked);
      TurnPerformed(whole, start, done, phase, before, history, stop, next, invoked');
      done' := if stop.None? then Join(done, phase.trace) else done;
    }

    /** The handler's loop: every pass is one implementation (unless a candidate is ready) and one review. */
    method RunLoop(saved: Saved, rounds: nat -> Round) returns (result: Result)
      requires Recorded() && LoopHead(saved.progress)
      modifies this
      ensures Recorded()
      ensures var h := Loop(World(old(durable), old(calls)), saved, rounds, 0, false);
              h.trace != [] && result == h.result && history == old(history) + h.trace[1..]
    {
      var current, invoked, n := saved, false, 0;
      ghost var whole, done := Loop(World(durable, calls), saved, rounds, 0, false), [World(durable, calls)];
      CompletesFirst(World(durable, calls), saved, rounds);
      while true
        invariant Recorded() && LoopHead(current.progress)
        invariant done != [] && history == old(history) + done[1..]
        invariant Completes(whole, done, World(durable, calls), current, rounds, n, invoked)
        decreases Measure(current.progress)
      {
        var stop: Option<Result>;
        stop, current, invoked, done := RunTurn(whole, old(history), done, current, rounds, n, invoked);
        if stop.Some? {
          return stop.value;
        }
        n := n + 1;
      }
    }

    method RunResume(saved: Saved, i: HandlerInput) returns (result: Result)
      requires Recorded()
      modifies this
      ensures Recorded()
      ensures var h := Resume(World(old(durable), old(calls)), saved, i);
              h.trace != [] && result == h.result && history == old(history) + h.trace[1..]
    {
      if Terminal(saved.progress.stage) || Reserved(saved.progress.stage) {
        return ResultFor(saved.progress, false);
      }
      if i.secondsAtStart < 1 {
        result := StopWith(saved, ElapsedBudget, i.startWrite, false);
      } else {
        result := RunLoop(saved, i.rounds);
      }
    }

    method RunImport(task: Task, authority: string, i: HandlerInput) returns (result: Result)
      requires Recorded() && durable.None?
      modifies this
      ensures Recorded()
      ensures var h := Import(World(old(durable), old(calls)), task, authority, i);
              h.trace != [] && result == h.result && history == old(history) + h.trace[1..]
    {
      var p := Fresh(task, authority);
      var ok := Write(p, None, i.importWrite);
      if !ok {
        return Unpersisted(p, false);
      }
      ghost var w, between, rest := World(old(durable), old(calls)), history, Resume(World(durable, calls), Saved(p, None), i);
      ghost var first := [w, World(durable, calls)];
      assert Import(w, task, authority, i) == Handled(Join(first, rest.trace), rest.result);
      result := RunResume(Saved(p, None), i);
      JoinPerformed(first, rest.trace, old(history), between, history);
    }

    /** `DevelopmentWorkflowHandler.__call__`. */
    method RunHandler(task: Task, authority: string, i: HandlerInput) returns (result: Result)
      requires Recorded()
      modifies this
      ensures Recorded()
      ensures var h := Handle(World(old(durable), old(calls)), task, authority, i);
              h.trace != [] && result == h.result && history == old(history) + h.trace[1..]
    {
      if !i.active {
        return Rejected(UnresolvedTask);
      }
      if !i.messageSelected || !i.taskMatches {
        return Rejected(FailedTask);
      }
      if i.loadFails {
        return RaisedLoad;
      }
      if durable.None? {
        result := RunImport(task, authority, i);
      } else {
        var saved := durable.value;
        if saved.progress.task != task || saved.progress.authority != authority {
          return Rejected(UnresolvedTask);
        }
        result := RunResume(saved, i);
      }
    }

    /** The export step of the development cycle command. */
    method RunExport(reply: string, fault: Fault) returns (ok: bool)
      requires Recorded()
      modifies this
      ensures Recorded()
      ensures var (done, trace) := Export(World(old(durable), old(calls)), reply, fault);
              ok == done && trace != [] && history == old(history) + trace[1..]
    {
      if durable.None? {
        return false;
      }
      var p := durable.value.progress;
      if p.stage.Exported? && p.replyState == Some(reply) {
        return true;
      }
      ok := Write(p.(stage := if p.stage.Accepted? then Exported else p.stage, replyState := Some(reply)), durable, fault);
    }
  }
}
