/**
 What every run of handler calls and exports keeps: exact accounting of reservations, at most one runner
 call per reservation, acceptance only after a clean review of the durable candidate.
 */
module DevelopmentRuns {
  import opened Common
  import opened Refs
  import opened Development

  // ---------------------------------------------------------------- the invariant

  function RoleAt(k: nat): Role {
    if k % 2 == 0 then Implementer else Reviewer
  }

  /** Reservations alternate implementer, reviewer, implementer, ... and are numbered from one. */
  ghost predicate Planned(rs: seq<Reservation>) {
    forall k | 0 <= k < |rs| :: rs[k] == Reservation(RoleAt(k), k + 1)
  }

  /** How many invocations a stage has reserved, given the corrections used. */
  ghost predicate Counted(p: Progress) {
    var n, c := |p.reservations|, p.correctionsUsed;
    && c <= p.task.maximumCorrections
    && match p.stage
       case Imported => n == 0 && c == 0
       case ImplementerReserved => n == 2 * c + 1
       case CandidateReady => n == 2 * c + 1
       case CorrectionPending => n == 2 * c + 2 && c < p.task.maximumCorrections
       case Failed => 2 * c <= n <= 2 * c + 2
       case Unresolved => 2 * c <= n <= 2 * c + 2
       case _ => n == 2 * c + 2
  }

  /** Every finished invocation has one report. */
  ghost predicate Reported(p: Progress) {
    if Reserved(p.stage) then p.reservations != [] && p.reports == p.reservations[..|p.reservations| - 1]
    else p.reports == p.reservations
  }

  /** The k-th call: its ID, and what it works on. */
  ghost predicate CallOk(base: string, calls: seq<Call>, k: nat)
    requires k < |calls|
  {
    if k % 2 == 0 then
      && calls[k].ImplementerCall? && calls[k].id == Reservation(Implementer, k + 1)
      && if k == 0 then calls[k].start == base
         else calls[k - 1].ReviewerCall? && calls[k - 1].answer == Some(HasFindings)
              && calls[k].start == calls[k - 1].candidate
    else
      && calls[k].ReviewerCall? && calls[k].id == Reservation(Reviewer, k + 1)
      && calls[k - 1].ImplementerCall? && calls[k - 1].produced == Some(calls[k].candidate)
  }

  ghost predicate CallsOk(base: string, calls: seq<Call>) {
    forall k | 0 <= k < |calls| :: CallOk(base, calls, k)
  }

  ghost predicate LastReview(p: Progress, calls: seq<Call>, answer: Answer) {
    && calls != [] && Last(calls).ReviewerCall?
    && p.candidate == Some(Last(calls).candidate) && Last(calls).answer == Some(answer)
  }

  /** The candidate on record is the one the calls left behind. */
  ghost predicate CandidateOk(p: Progress, calls: seq<Call>, n: nat)
    requires n <= |calls|
  {
    if n == 0 then p.candidate.None?
    else if n % 2 == 1 then
      calls[n - 1].ImplementerCall? && p.candidate.Some? && calls[n - 1].produced == p.candidate
    else
      calls[n - 1].ReviewerCall? && p.candidate == Some(calls[n - 1].candidate)
      && calls[n - 1].answer == Some(HasFindings)
  }

  /** How the log stands to each stage. */
  ghost predicate Logged(p: Progress, calls: seq<Call>) {
    var n := |p.reservations|;
    if Reserved(p.stage) then
      n > 0 && n - 1 <= |calls| <= n && CandidateOk(p, calls, n - 1)
    else
      && |calls| == n
      && match p.stage
         case Imported => p.candidate.None?
         case CandidateReady => CandidateOk(p, calls, n)
         case CorrectionPending =>
           && LastReview(p, calls, HasFindings)
           && p.findings.Some? && p.findings.value != "" && p.reviewEvidence.Some?
         case Findings => LastReview(p, calls, HasFindings)
         case Accepted => LastReview(p, calls, NoFindings)
         case Exported => LastReview(p, calls, NoFindings)
         case _ => true
  }

  predicate Clean(o: Development.Outcome) {
    o != StoppedBy(InvocationBudget) && o != StoppedBy(FindingsUnavailable)
  }

  /** Corrections need the findings they correct. */
  predicate Kept(p: Progress) {
    p.stage.ImplementerReserved? && p.correctionsUsed > 0 ==>
      p.findings.Some? && p.findings.value != "" && p.reviewEvidence.Some?
  }

  ghost predicate ProgressOk(p: Progress, calls: seq<Call>) {
    && ValidTask(p.task) && Check(p).None? && Clean(p.outcome)
    && Planned(p.reservations) && Counted(p) && Reported(p)
    && CallsOk(p.task.baseCommit, calls) && Logged(p, calls) && Kept(p)
  }

  ghost predicate Inv(w: World) {
    match w.durable
    case None => w.calls == []
    case Some(s) => ProgressOk(s.progress, w.calls)
  }

  /** What later worlds keep of earlier ones: reservations only extend, terminal stages stay. */
  ghost predicate Extends(w: World, next: World) {
    && w.calls <= next.calls
    && match w.durable
       case None => true
       case Some(s) =>
         && next.durable.Some?
         && var p, q := s.progress, next.durable.value.progress;
            && q.task == p.task && q.authority == p.authority && p.reservations <= q.reservations
            && (Terminal(p.stage) ==>
                  (q.stage == p.stage || (p.stage.Accepted? && q.stage.Exported?))
                  && q.candidate == p.candidate && next.calls == w.calls)
  }

  lemma ExtendsTransitive(a: World, b: World, c: World)
    requires Extends(a, b) && Extends(b, c)
    ensures Extends(a, c)
  {
  }

  /** In one durable step, EXPORTED is entered only from ACCEPTED and for the same candidate. */
  ghost predicate ExportsAccepted(w: World, next: World) {
    next.durable.Some? && next.durable.value.progress.stage.Exported? ==>
      && w.durable.Some?
      && var p := w.durable.value.progress;
         (p.stage.Exported? || p.stage.Accepted?) && next.durable.value.progress.candidate == p.candidate
  }

  ghost predicate Allowed(w: World, next: World) {
    Extends(w, next) && ExportsAccepted(w, next)
  }

  ghost predicate GoodTrace(trace: seq<World>) {
    && trace != []
    && (forall k | 0 <= k < |trace| :: Inv(trace[k]))
    && (forall k | 0 <= k < |trace| - 1 :: Allowed(trace[k], trace[k + 1]))
  }

  lemma GoodOne(w: World)
    requires Inv(w)
    ensures GoodTrace([w])
  {
  }

  lemma GoodStep(trace: seq<World>, next: World)
    requires GoodTrace(trace) && Inv(next) && Allowed(Last(trace), next)
    ensures GoodTrace(trace + [next])
  {
    var longer := trace + [next];
    forall k | 0 <= k < |longer| - 1 ensures Allowed(longer[k], longer[k + 1]) {
      if k < |trace| - 1 {
        assert longer[k] == trace[k] && longer[k + 1] == trace[k + 1];
      }
    }
  }

  lemma GoodJoin(a: seq<World>, b: seq<World>)
    requires GoodTrace(a) && GoodTrace(b) && Last(a) == b[0]
    ensures GoodTrace(Join(a, b)) && Join(a, b)[0] == a[0] && Last(Join(a, b)) == Last(b)
  {
    var joined := Join(a, b);
    forall k | 0 <= k < |joined| ensures Inv(joined[k]) {
      if k >= |a| {
        assert joined[k] == b[k - |a| + 1];
      }
    }
    forall k | 0 <= k < |joined| - 1 ensures Allowed(joined[k], joined[k + 1]) {
      if k < |a| - 1 {
        assert joined[k] == a[k] && joined[k + 1] == a[k + 1];
      } else {
        assert joined[k] == b[k - |a| + 1] && joined[k + 1] == b[k - |a| + 2];
      }
    }
  }

  // ---------------------------------------------------------------- durable steps

  lemma PlannedDistinct(rs: seq<Reservation>)
    requires Planned(rs)
    ensures NoDup(rs)
  {
  }

  /** "<task>-implementer-1" is the first and the longest execution ID, and it has to fit. */
  const LONGEST_TASK_ID := 114

  lemma PlannedLengths(t: Task, rs: seq<Reservation>)
    requires Planned(rs) && 0 < |rs| <= 8
    ensures (exists k | 0 <= k < |rs| :: IdLength(t, rs[k]) > MAX_IDENTIFIER) <==> |t.id| > LONGEST_TASK_ID
  {
    assert IdLength(t, rs[0]) == |t.id| + 14;
  }

  /** A snapshot with the same reservations, allowed counts and short findings is never refused. */
  lemma CheckKept(p: Progress, q: Progress)
    requires Check(p).None? && q.task == p.task && q.reservations == p.reservations
    requires q.correctionsUsed <= MAX_CORRECTIONS && |q.reports| <= MAX_REPORTS
    requires q.findings == p.findings || (q.findings.Some? && |q.findings.value| <= MAX_FINDINGS)
    ensures Check(q).None?
  {
    assert forall k | 0 <= k < |p.reservations| :: IdLength(p.task, p.reservations[k]) <= MAX_IDENTIFIER;
  }

  predicate AtHead(stage: Stage) {
    stage.Imported? || stage.CorrectionPending? || stage.CandidateReady?
  }

  lemma StopStep(w: World, saved: Saved, reason: StopReason)
    requires Inv(w) && w.durable == Some(saved) && AtHead(saved.progress.stage)
    requires Clean(StoppedBy(reason))
    ensures var next := saved.progress.(stage := Failed, outcome := StoppedBy(reason));
            var after := w.(durable := Some(Saved(next, Some(saved))));
            Check(next).None? && Inv(after) && Allowed(w, after)
  {
    var next := saved.progress.(stage := Failed, outcome := StoppedBy(reason));
    CheckKept(saved.progress, next);
  }

  predicate Reservable(stage: Stage, role: Role) {
    if role.Implementer? then stage.Imported? || stage.CorrectionPending? else stage.CandidateReady?
  }

  lemma ReserveChecks(p: Progress, role: Role)
    requires Check(p).None? && Planned(p.reservations) && Counted(p) && Reported(p) && ValidTask(p.task)
    requires Reservable(p.stage, role)
    ensures var next := Reserve(p, role);
            && Planned(next.reservations) && |p.reservations| < p.task.maximumInvocations
            && next.reservations[..|next.reservations| - 1] == p.reservations
            && Check(next) == (if |p.task.id| > LONGEST_TASK_ID then Some(IdentifierTooLong) else None)
  {
    var next := Reserve(p, role);
    ReservePlanned(p.reservations, role);
    assert RoleAt(|p.reservations|) == role && |next.reservations| <= 8;
    PlannedDistinct(next.reservations);
    PlannedLengths(p.task, next.reservations);
    hide IdLength, Planned;
  }

  lemma ReservePlanned(rs: seq<Reservation>, role: Role)
    requires Planned(rs)
    ensures var more := rs + [Reservation(role, |rs| + 1)];
            more[..|more| - 1] == rs && (RoleAt(|rs|) == role ==> Planned(more))
  {
  }

  /** Reserving the next implementer or reviewer: refused only for an overlong execution ID. */
  lemma ReserveStep(w: World, saved: Saved, role: Role)
    requires Inv(w) && w.durable == Some(saved) && Reservable(saved.progress.stage, role)
    ensures var next := Reserve(saved.progress, role);
            var after := w.(durable := Some(Saved(next, Some(saved))));
            && |saved.progress.reservations| < saved.progress.task.maximumInvocations
            && Check(next) == (if |saved.progress.task.id| > LONGEST_TASK_ID then Some(IdentifierTooLong) else None)
            && (Check(next).None? ==> Inv(after) && Allowed(w, after))
  {
    hide Check, Counted, Reported, Logged, Planned, CallsOk, Kept, ValidTask;
    ReserveChecks(saved.progress, role);
    ReserveCounts(saved.progress, role, w.calls);
  }

  lemma ReserveCounts(p: Progress, role: Role, calls: seq<Call>)
    requires Reservable(p.stage, role) && Counted(p) && Reported(p) && Logged(p, calls) && Kept(p)
    ensures var next := Reserve(p, role); Counted(next) && Reported(next) && Logged(next, calls) && Kept(next)
  {
    var next := Reserve(p, role);
    assert next.reservations[..|next.reservations| - 1] == p.reservations;
  }

  lemma CallAppend(base: string, calls: seq<Call>, call: Call)
    requires CallsOk(base, calls) && CallOk(base, calls + [call], |calls|)
    ensures CallsOk(base, calls + [call])
  {
    var longer := calls + [call];
    forall k | 0 <= k < |longer| ensures CallOk(base, longer, k) {
      if k < |calls| {
        assert CallOk(base, calls, k);
        assert longer[k] == calls[k] && (k > 0 ==> longer[k - 1] == calls[k - 1]);
      }
    }
  }

  /** Before its call, a durable reservation has no call of its own. */
  ghost predicate NotLaunched(w: World) {
    w.durable.Some? && |w.calls| < |w.durable.value.progress.reservations|
  }

  function ImplementerLaunch(p: Progress, r: Implementation): Call
    requires p.reservations != []
  {
    ImplementerCall(Last(p.reservations), StartOf(p), CandidateOf(r))
  }

  lemma ImplementerCallStep(w: World, reserved: Saved, r: Implementation)
    requires Inv(w) && w.durable == Some(reserved) && reserved.progress.stage.ImplementerReserved? && NotLaunched(w)
    ensures var called := w.(calls := w.calls + [ImplementerLaunch(reserved.progress, r)]);
            Inv(called) && Allowed(w, called)
  {
    var p := reserved.progress;
    var call := ImplementerLaunch(p, r);
    assert CandidateOk(p, w.calls, |p.reservations| - 1);
    assert CallOk(p.task.baseCommit, w.calls + [call], |w.calls|);
    CallAppend(p.task.baseCommit, w.calls, call);
    assert CandidateOk(p, w.calls + [call], |p.reservations| - 1);
  }

  lemma ImplementationCounts(p: Progress, r: Implementation, calls: seq<Call>)
    requires p.stage.ImplementerReserved? && p.reservations != [] && Clean(p.outcome)
    requires Counted(p) && Reported(p) && |calls| == |p.reservations| && Last(calls) == ImplementerLaunch(p, r)
    ensures var next := AfterImplementation(p, Last(p.reservations), r);
            Counted(next) && Reported(next) && Logged(next, calls) && Kept(next) && Clean(next.outcome)
  {
    assert AfterImplementation(p, Last(p.reservations), r).reports == p.reservations;
  }

  /** Recording an implementation keeps the reservations and the findings. */
  lemma ImplementationKeeps(p: Progress, r: Implementation)
    requires p.stage.ImplementerReserved? && p.reservations != [] && Reported(p)
    ensures var next := AfterImplementation(p, Last(p.reservations), r);
            && next.task == p.task && next.reservations == p.reservations && next.findings == p.findings
            && next.correctionsUsed == p.correctionsUsed && |next.reports| == |p.reservations|
            && !next.stage.Exported?
  {
  }

  lemma ImplementerRecordStep(called: World, reserved: Saved, r: Implementation)
    requires Inv(called) && called.durable == Some(reserved) && reserved.progress.stage.ImplementerReserved?
    requires called.calls != [] && Last(called.calls) == ImplementerLaunch(reserved.progress, r) && !NotLaunched(called)
    ensures var next := AfterImplementation(reserved.progress, Last(reserved.progress.reservations), r);
            var after := called.(durable := Some(Saved(next, Some(reserved))));
            Check(next).None? && Inv(after) && Allowed(called, after)
  {
    var p := reserved.progress;
    var next := AfterImplementation(p, Last(p.reservations), r);
    ImplementationKeeps(p, r);
    hide AfterImplementation;
    ImplementationCounts(p, r, called.calls);
    hide CallOk, Planned, Counted, Reported, Logged, CallsOk;
    CheckKept(p, next);
    hide Check;
    assert ProgressOk(next, called.calls);
  }

  function ReviewerLaunch(p: Progress, v: Review): Call
    requires p.reservations != [] && p.candidate.Some?
  {
    ReviewerCall(Last(p.reservations), p.candidate.value, AnswerOf(p, v))
  }

  lemma ReviewerCallStep(w: World, reserved: Saved, v: Review)
    requires Inv(w) && w.durable == Some(reserved) && reserved.progress.stage.ReviewerReserved? && NotLaunched(w)
    ensures reserved.progress.candidate.Some?
    ensures var called := w.(calls := w.calls + [ReviewerLaunch(reserved.progress, v)]);
            Inv(called) && Allowed(w, called)
  {
    var p := reserved.progress;
    assert CandidateOk(p, w.calls, |p.reservations| - 1);
    var call := ReviewerLaunch(p, v);
    assert CallOk(p.task.baseCommit, w.calls + [call], |w.calls|);
    CallAppend(p.task.baseCommit, w.calls, call);
    assert CandidateOk(p, w.calls + [call], |p.reservations| - 1);
  }

  /** A response always carries the JSON text of its findings list. */
  predicate ValidReview(v: Review) {
    v.response.Some? ==> v.response.value.findings != ""
  }

  lemma ReviewCounts(p: Progress, v: Review, calls: seq<Call>)
    requires p.stage.ReviewerReserved? && p.reservations != [] && p.candidate.Some? && ValidReview(v)
    requires Counted(p) && Reported(p) && |calls| == |p.reservations| && Last(calls) == ReviewerLaunch(p, v)
    ensures var next := AfterReview(p, Last(p.reservations), v);
            Counted(next) && Reported(next) && Logged(next, calls) && Kept(next) && Clean(next.outcome)
  {
    var next := AfterReview(p, Last(p.reservations), v);
    assert next.reports == p.reservations;
  }

  /** Recording a review is refused only for overlong findings. */
  lemma ReviewerRecordStep(called: World, reserved: Saved, v: Review)
    requires Inv(called) && called.durable == Some(reserved) && reserved.progress.stage.ReviewerReserved?
    requires reserved.progress.candidate.Some? && called.calls != [] && !NotLaunched(called)
    requires Last(called.calls) == ReviewerLaunch(reserved.progress, v) && ValidReview(v)
    ensures var next := AfterReview(reserved.progress, Last(reserved.progress.reservations), v);
            var after := called.(durable := Some(Saved(next, Some(reserved))));
            && (Check(next).None? ==> Inv(after) && Allowed(called, after))
            && (Check(next) == None || Check(next) == Some(FindingsTooLong))
  {
    var p := reserved.progress;
    var next := AfterReview(p, Last(p.reservations), v);
    ReviewCounts(p, v, called.calls);
    ReviewChecks(p, next);
    var after := called.(durable := Some(Saved(next, Some(reserved))));
    assert next.reservations == p.reservations && next.task == p.task;
    if Check(next).None? {
      assert ProgressOk(next, called.calls);
    }
  }

  lemma ReviewChecks(p: Progress, next: Progress)
    requires Check(p).None? && next.task == p.task && next.reservations == p.reservations
    requires next.correctionsUsed <= MAX_CORRECTIONS && |next.reports| <= MAX_REPORTS
    ensures Check(next) == None || Check(next) == Some(FindingsTooLong)
  {
    assert forall k | 0 <= k < |p.reservations| :: IdLength(p.task, p.reservations[k]) <= MAX_IDENTIFIER;
  }

  // ---------------------------------------------------------------- phases

  /** What a caller is told at the end of a handler call. */
  ghost predicate ResultOk(result: Result, last: World) {
    match result
    case Result(disposition, _, outcome, _) =>
      && Clean(outcome)
      && (disposition.CompletedTask? ==>
            && last.durable.Some?
            && (last.durable.value.progress.stage.Accepted? || last.durable.value.progress.stage.Exported?))
    case RaisedBy(refusal) =>
      && !refusal.CountsRefused?
      && (refusal.IdentifierTooLong? ==>
            last.durable.Some? && |last.durable.value.progress.task.id| > LONGEST_TASK_ID)
    case RaisedAssertion => false
    case _ => true
  }

  ghost predicate HandledGood(w: World, h: Handled) {
    GoodTrace(h.trace) && h.trace[0] == w && ResultOk(h.result, Last(h.trace))
  }

  ghost predicate PhaseGood(w: World, phase: Phase) {
    match phase
    case Stop(h) => HandledGood(w, h)
    case Go(trace, saved, _) =>
      GoodTrace(trace) && trace[0] == w && |trace| > 1 && Last(trace).durable == Some(saved)
  }

  lemma PersistGood(w: World, p: Progress, expected: Option<Saved>, fault: Fault)
    requires Inv(w) && w.durable == expected
    requires var after := w.(durable := Some(Saved(p, expected))); Inv(after) && Allowed(w, after)
    ensures var (ok, after) := Persist(w, p, expected, fault);
            && GoodTrace([w, after]) && after.calls == w.calls
            && (ok ==> after.durable == Some(Saved(p, expected)))
  {
    var (ok, after) := Persist(w, p, expected, fault);
    assert Allowed(w, after);
  }

  lemma StopGood(w: World, saved: Saved, reason: StopReason, fault: Fault, invoked: bool)
    requires Inv(w) && w.durable == Some(saved) && AtHead(saved.progress.stage) && Clean(StoppedBy(reason))
    ensures HandledGood(w, StopAt(w, saved, reason, fault, invoked))
  {
    StopStep(w, saved, reason);
    PersistGood(w, saved.progress.(stage := Failed, outcome := StoppedBy(reason)), Some(saved), fault);
  }

  lemma ReserveGood(w: World, saved: Saved, role: Role, fault: Fault, invoked: bool)
    requires Inv(w) && w.durable == Some(saved)
    requires Reservable(saved.progress.stage, role)
    ensures |saved.progress.reservations| < saved.progress.task.maximumInvocations
    ensures var phase := ReservePhase(w, saved, role, fault, invoked);
            PhaseGood(w, phase) && (phase.Go? ==> NotLaunched(Last(phase.trace)))
  {
    ReserveStep(w, saved, role);
    var next := Reserve(saved.progress, role);
    if Check(next).None? {
      PersistGood(w, next, Some(saved), fault);
      assert |w.calls| == |saved.progress.reservations|;
    }
  }

  lemma PhaseThen(w: World, trace: seq<World>, phase: Phase)
    requires GoodTrace(trace) && trace[0] == w && PhaseGood(Last(trace), phase)
    ensures PhaseGood(w, Then(trace, phase))
  {
    GoodJoin(trace, if phase.Stop? then phase.handled.trace else phase.trace);
  }

  lemma KeptFindings(w: World, reserved: Saved)
    requires Inv(w) && w.durable == Some(reserved) && reserved.progress.stage.ImplementerReserved?
    ensures var p := reserved.progress;
            && p.reservations != [] && p.task.timeoutSeconds >= 1
            && (p.correctionsUsed > 0 ==> p.findings.Some? && p.findings.value != "" && p.reviewEvidence.Some?)
  {
  }

  lemma LaunchImplementerGood(w: World, reserved: Saved, correction: bool, r: Round, invoked: bool)
    requires Inv(w) && w.durable == Some(reserved) && reserved.progress.stage.ImplementerReserved? && NotLaunched(w)
    requires correction ==> reserved.progress.correctionsUsed > 0
    ensures PhaseGood(w, LaunchImplementer(w, reserved, correction, r, invoked))
  {
    hide Inv, Allowed, Check, AfterImplementation, Persist, EvidenceOf;
    KeptFindings(w, reserved);
    ImplementerTrace(w, reserved, r);
    hide GoodTrace;
    GoodOne(w);
  }

  /** The worlds of a launch, and what the last one may report. */
  lemma ImplementerTrace(w: World, reserved: Saved, r: Round)
    requires Inv(w) && w.durable == Some(reserved) && reserved.progress.stage.ImplementerReserved? && NotLaunched(w)
    ensures reserved.progress.reservations != []
    ensures var p := reserved.progress;
            var called := w.(calls := w.calls + [ImplementerLaunch(p, r.implementation)]);
            var next := AfterImplementation(p, Last(p.reservations), r.implementation);
            var (ok, after) := Persist(called, next, Some(reserved), r.candidateWrite);
            && GoodTrace([w, called, after]) && Check(next).None? && Clean(next.outcome)
            && next.stage in {CandidateReady, Failed, Unresolved}
            && (ok ==> after.durable == Some(Saved(next, Some(reserved))))
  {
    var p := reserved.progress;
    var called := w.(calls := w.calls + [ImplementerLaunch(p, r.implementation)]);
    ImplementerCallStep(w, reserved, r.implementation);
    ImplementerRecordStep(called, reserved, r.implementation);
    var next := AfterImplementation(p, Last(p.reservations), r.implementation);
    CleanRecord(called, next, reserved);
    PersistGood(called, next, Some(reserved), r.candidateWrite);
    hide Allowed, Inv, Check, Persist;
    var after := Persist(called, next, Some(reserved), r.candidateWrite).1;
    GoodOne(w);
    GoodStep([w], called);
    GoodJoin([w, called], [called, after]);
    assert Join([w, called], [called, after]) == [w, called, after];
  }

  lemma CleanRecord(called: World, next: Progress, reserved: Saved)
    requires Inv(called.(durable := Some(Saved(next, Some(reserved)))))
    ensures Clean(next.outcome)
  {
  }

  lemma ImplementGood(w: World, saved: Saved, r: Round, invoked: bool)
    requires Inv(w) && w.durable == Some(saved)
    requires saved.progress.stage.Imported? || saved.progress.stage.CorrectionPending?
    ensures PhaseGood(w, ImplementPhase(w, saved, r, invoked))
  {
    StopGood(w, saved, ElapsedBudget, r.stopWrite, invoked);
    ReserveGood(w, saved, Implementer, r.reserveWrite, invoked);
    var phase := ReservePhase(w, saved, Implementer, r.reserveWrite, invoked);
    if phase.Go? {
      var correction := saved.progress.stage.CorrectionPending?;
      LaunchImplementerGood(Last(phase.trace), phase.saved, correction, r, invoked);
      PhaseThen(w, phase.trace, LaunchImplementer(Last(phase.trace), phase.saved, correction, r, invoked));
    }
  }

  lemma ReviewerTraces(w: World, reserved: Saved, r: Round)
    requires Inv(w) && w.durable == Some(reserved) && reserved.progress.stage.ReviewerReserved? && NotLaunched(w)
    requires reserved.progress.candidate.Some? && ValidReview(r.review)
    ensures var called := w.(calls := w.calls + [ReviewerLaunch(reserved.progress, r.review)]);
            var next := AfterReview(reserved.progress, Last(reserved.progress.reservations), r.review);
            var (ok, after) := Persist(called, next, Some(reserved), r.reviewWrite);
            && GoodTrace([w, called])
            && (if Check(next).Some? then Check(next) == Some(FindingsTooLong)
                else GoodTrace([w, called, after]) && (ok ==> after.durable == Some(Saved(next, Some(reserved)))))
  {
    var p := reserved.progress;
    var called := w.(calls := w.calls + [ReviewerLaunch(p, r.review)]);
    ReviewerCallStep(w, reserved, r.review);
    ReviewerRecordStep(called, reserved, r.review);
    GoodOne(w);
    GoodStep([w], called);
    var next := AfterReview(p, Last(p.reservations), r.review);
    if Check(next).None? {
      PersistGood(called, next, Some(reserved), r.reviewWrite);
      var after := Persist(called, next, Some(reserved), r.reviewWrite).1;
      GoodJoin([w, called], [called, after]);
      assert Join([w, called], [called, after]) == [w, called, after];
    }
  }

  lemma ReviewResult(p: Progress, next: Progress, v: Review, last: World, invoked: bool)
    requires p.reservations != [] && next == AfterReview(p, Last(p.reservations), v) && p.stage.ReviewerReserved?
    requires AnswerOf(p, v).Some? && !next.stage.CorrectionPending? ==>
               last.durable.Some? && last.durable.value.progress == next
    ensures !next.stage.CorrectionPending? ==> ResultOk(ResultFor(next, invoked), last)
  {
  }

  lemma EarlyStopGood(w: World, trace: seq<World>, saved: Saved, fault: Fault, invoked: bool)
    requires GoodTrace(trace) && trace[0] == w && Last(trace).durable == Some(saved)
    requires saved.progress.stage.CorrectionPending?
    ensures PhaseGood(
              w, Then(trace, Stop(StopAt(Last(trace), saved, ElapsedBeforeCorrection, fault, invoked))))
  {
    StopGood(Last(trace), saved, ElapsedBeforeCorrection, fault, invoked);
    PhaseThen(w, trace, Stop(StopAt(Last(trace), saved, ElapsedBeforeCorrection, fault, invoked)));
  }

  /** What the answer decides once it is recorded. */
  lemma AnswerGood(
    w: World, called: World, ok: bool, after: World, p: Progress, saved: Saved, r: Round, invoked: bool, phase: Phase)
    requires GoodTrace([w, called, after]) && (ok ==> after.durable == Some(saved))
    requires p.reservations != [] && p.stage.ReviewerReserved? && Clean(p.outcome)
    requires saved.progress == AfterReview(p, Last(p.reservations), r.review)
    requires phase ==
      if AnswerOf(p, r.review).None? then Stop(Handled([w, called, after], ResultFor(saved.progress, invoked)))
      else if !ok then Stop(Handled([w, called, after], Unpersisted(saved.progress, invoked)))
      else if !saved.progress.stage.CorrectionPending? then
        Stop(Handled([w, called, after], ResultFor(saved.progress, invoked)))
      else if r.secondsAfterReview < 1 then
        Then([w, called, after], Stop(StopAt(after, saved, ElapsedBeforeCorrection, r.stopWrite, invoked)))
      else Go([w, called, after], saved, invoked)
    ensures PhaseGood(w, phase)
  {
    if AnswerOf(p, r.review).None? || (ok && !saved.progress.stage.CorrectionPending?) {
      ReviewResult(p, saved.progress, r.review, after, invoked);
    } else if ok && r.secondsAfterReview < 1 {
      EarlyStopGood(w, [w, called, after], saved, r.stopWrite, invoked);
    }
  }

  lemma LaunchReviewerGood(w: World, reserved: Saved, r: Round, invoked: bool)
    requires Inv(w) && w.durable == Some(reserved) && reserved.progress.stage.ReviewerReserved? && NotLaunched(w)
    requires reserved.progress.candidate.Some? && ValidReview(r.review)
    ensures PhaseGood(w, LaunchReviewer(w, reserved, r, invoked))
  {
    var p := reserved.progress;
    ReviewerTraces(w, reserved, r);
    var called := w.(calls := w.calls + [ReviewerLaunch(p, r.review)]);
    var next := AfterReview(p, Last(p.reservations), r.review);
    if Check(next).None? {
      var (ok, after) := Persist(called, next, Some(reserved), r.reviewWrite);
      AnswerGood(w, called, ok, after, p, Saved(next, Some(reserved)), r, invoked || r.review.processStarted,
                 LaunchReviewer(w, reserved, r, invoked));
    }
  }

  lemma ReviewGood(w: World, saved: Saved, r: Round, invoked: bool)
    requires Inv(w) && w.durable == Some(saved) && saved.progress.stage.CandidateReady? && ValidReview(r.review)
    ensures PhaseGood(w, ReviewPhase(w, saved, r, invoked))
  {
    assert CandidateOk(saved.progress, w.calls, |saved.progress.reservations|);
    StopGood(w, saved, ElapsedBeforeReview, r.stopWrite, invoked);
    ReserveGood(w, saved, Reviewer, r.reviewReserveWrite, invoked);
    var phase := ReservePhase(w, saved, Reviewer, r.reviewReserveWrite, invoked);
    if phase.Go? {
      LaunchReviewerGood(Last(phase.trace), phase.saved, r, invoked);
      PhaseThen(w, phase.trace, LaunchReviewer(Last(phase.trace), phase.saved, r, invoked));
    }
  }

  lemma PassGood(w: World, saved: Saved, r: Round, invoked: bool)
    requires Inv(w) && w.durable == Some(saved) && LoopHead(saved.progress) && ValidReview(r.review)
    ensures PhaseGood(w, Pass(w, saved, r, invoked))
  {
    if saved.progress.stage.CandidateReady? {
      ReviewGood(w, saved, r, invoked);
    } else {
      ImplementGood(w, saved, r, invoked);
      var phase := ImplementPhase(w, saved, r, invoked);
      if phase.Go? {
        ReviewGood(Last(phase.trace), phase.saved, r, phase.invoked);
        PhaseThen(w, phase.trace, ReviewPhase(Last(phase.trace), phase.saved, r, phase.invoked));
      }
    }
  }

  ghost predicate ValidRounds(rounds: nat -> Round) {
    forall n: nat :: ValidReview(rounds(n).review)
  }

  lemma {:induction false} LoopGood(w: World, saved: Saved, rounds: nat -> Round, n: nat, invoked: bool)
    requires Inv(w) && w.durable == Some(saved) && LoopHead(saved.progress) && ValidRounds(rounds)
    ensures HandledGood(w, Loop(w, saved, rounds, n, invoked))
    decreases Measure(saved.progress)
  {
    PassGood(w, saved, rounds(n), invoked);
    var phase := Pass(w, saved, rounds(n), invoked);
    if phase.Go? {
      LoopGood(Last(phase.trace), phase.saved, rounds, n + 1, phase.invoked);
      GoodJoin(phase.trace, Loop(Last(phase.trace), phase.saved, rounds, n + 1, phase.invoked).trace);
    }
  }

  lemma ResumeGood(w: World, saved: Saved, i: HandlerInput)
    requires Inv(w) && w.durable == Some(saved) && ValidRounds(i.rounds)
    ensures HandledGood(w, Resume(w, saved, i))
  {
    var p := saved.progress;
    GoodOne(w);
    if !Terminal(p.stage) && !Reserved(p.stage) {
      if i.secondsAtStart < 1 {
        StopGood(w, saved, ElapsedBudget, i.startWrite, false);
      } else {
        LoopGood(w, saved, i.rounds, 0, false);
      }
    }
  }

  lemma ImportGood(w: World, task: Task, authority: string, i: HandlerInput)
    requires Inv(w) && w.durable.None? && ValidTask(task) && ValidRounds(i.rounds)
    ensures HandledGood(w, Import(w, task, authority, i))
  {
    var p := Fresh(task, authority);
    PersistGood(w, p, None, i.importWrite);
    var (ok, after) := Persist(w, p, None, i.importWrite);
    if ok {
      ResumeGood(after, Saved(p, None), i);
      GoodJoin([w, after], Resume(after, Saved(p, None), i).trace);
    }
  }

  lemma HandleGood(w: World, task: Task, authority: string, i: HandlerInput)
    requires Inv(w) && ValidTask(task) && ValidRounds(i.rounds)
    ensures HandledGood(w, Handle(w, task, authority, i))
  {
    GoodOne(w);
    if i.active && i.messageSelected && i.taskMatches && !i.loadFails {
      if w.durable.None? {
        ImportGood(w, task, authority, i);
      } else {
        ResumeGood(w, w.durable.value, i);
      }
    }
  }

  lemma ExportGood(w: World, reply: string, fault: Fault)
    requires Inv(w)
    ensures GoodTrace(Export(w, reply, fault).1) && Export(w, reply, fault).1[0] == w
  {
    GoodOne(w);
    if w.durable.Some? {
      var saved := w.durable.value;
      var p := saved.progress;
      var next := p.(stage := if p.stage.Accepted? then Exported else p.stage, replyState := Some(reply));
      CheckKept(p, next);
      PersistGood(w, next, Some(saved), fault);
    }
  }

  // ---------------------------------------------------------------- runs

  /** One handler call or export, and the point of its trace at which the process stopped or died. */
  datatype Action =
    | Invoking(task: Task, authority: string, input: HandlerInput, cut: nat)
    | Exporting(reply: string, fault: Fault, cut: nat)

  ghost predicate ValidAction(a: Action) {
    a.Invoking? ==> ValidTask(a.task) && ValidRounds(a.input.rounds)
  }

  function TraceOf(w: World, a: Action): seq<World> {
    match a
    case Invoking(task, authority, i, _) => Handle(w, task, authority, i).trace
    case Exporting(reply, fault, _) => Export(w, reply, fault).1
  }

  function After(w: World, a: Action): World {
    var trace := TraceOf(w, a);
    if trace == [] then w else if a.cut < |trace| then trace[a.cut] else Last(trace)
  }

  ghost predicate IsRun(ws: seq<World>, actions: seq<Action>) {
    && |ws| == |actions| + 1
    && ws[0] == World(None, [])
    && (forall k | 0 <= k < |actions| :: ValidAction(actions[k]))
    && (forall k | 0 <= k < |actions| :: ws[k + 1] == After(ws[k], actions[k]))
  }

  lemma {:induction false} TraceExtends(trace: seq<World>, k: nat)
    requires GoodTrace(trace) && k < |trace|
    ensures Extends(trace[0], trace[k])
  {
    if k > 0 {
      TraceExtends(trace, k - 1);
      assert Allowed(trace[k - 1], trace[k]);
      ExtendsTransitive(trace[0], trace[k - 1], trace[k]);
    }
  }

  lemma ActionGood(w: World, a: Action)
    requires Inv(w) && ValidAction(a)
    ensures GoodTrace(TraceOf(w, a)) && Inv(After(w, a)) && Extends(w, After(w, a))
  {
    match a {
      case Invoking(task, authority, i, _) => HandleGood(w, task, authority, i);
      case Exporting(reply, fault, _) => ExportGood(w, reply, fault);
    }
    var trace := TraceOf(w, a);
    TraceExtends(trace, if a.cut < |trace| then a.cut else |trace| - 1);
  }

  lemma {:induction false} RunKeepsInv(ws: seq<World>, actions: seq<Action>, k: nat)
    requires IsRun(ws, actions) && k < |ws|
    ensures Inv(ws[k])
  {
    if k > 0 {
      RunKeepsInv(ws, actions, k - 1);
      ActionGood(ws[k - 1], actions[k - 1]);
    }
  }

  /** Over any run the log and the reservations only extend, and a terminal stage is left at most by export. */
  lemma {:induction false} RunOnlyExtends(ws: seq<World>, actions: seq<Action>, j: nat, k: nat)
    requires IsRun(ws, actions) && j <= k < |ws|
    ensures Extends(ws[j], ws[k])
    decreases k
  {
    if j < k {
      RunOnlyExtends(ws, actions, j, k - 1);
      RunKeepsInv(ws, actions, k - 1);
      ActionGood(ws[k - 1], actions[k - 1]);
      ExtendsTransitive(ws[j], ws[k - 1], ws[k]);
    }
  }

  /**
   Exact accounting: at every durable point of every run the stage fixes the number of reservations,
   every finished invocation has one report, and neither exceeds the declared budget.
   */
  lemma AccountingIsExact(ws: seq<World>, actions: seq<Action>, k: nat)
    requires IsRun(ws, actions) && k < |ws| && ws[k].durable.Some?
    ensures var p := ws[k].durable.value.progress;
            && Counted(p) && Planned(p.reservations) && Reported(p)
            && |p.reports| <= |p.reservations| <= p.task.maximumInvocations <= MAX_REPORTS
  {
    RunKeepsInv(ws, actions, k);
  }

  /**
   No handler call ends in the invocation-budget or missing-findings stops or in the assertion on the
   candidate, none is refused for its counts, and completion is reported only for a durable ACCEPTED or
   EXPORTED snapshot.
   */
  lemma BudgetStopsAreUnreachable(ws: seq<World>, actions: seq<Action>, k: nat)
    requires IsRun(ws, actions) && k < |actions| && actions[k].Invoking?
    ensures var h := Handle(ws[k], actions[k].task, actions[k].authority, actions[k].input);
            HandledGood(ws[k], h)
  {
    RunKeepsInv(ws, actions, k);
    HandleGood(ws[k], actions[k].task, actions[k].authority, actions[k].input);
  }

  function CallIds(calls: seq<Call>): (ids: seq<Reservation>)
    ensures |ids| == |calls| && forall k | 0 <= k < |calls| :: ids[k] == calls[k].id
  {
    seq(|calls|, k requires 0 <= k < |calls| => calls[k].id)
  }

  /**
   Every launch is reserved first and no reservation is launched twice, also inside calls that die: at
   every durable point the logged calls are the first reservations, in order, all but at most the last.
   */
  lemma OneLaunchPerReservation(ws: seq<World>, actions: seq<Action>, k: nat, j: nat)
    requires IsRun(ws, actions) && k < |actions| && j < |TraceOf(ws[k], actions[k])|
    ensures var w := TraceOf(ws[k], actions[k])[j];
            && NoDup(CallIds(w.calls))
            && match w.durable
               case None => w.calls == []
               case Some(saved) =>
                 && CallIds(w.calls) <= saved.progress.reservations
                 && |saved.progress.reservations| <= |w.calls| + 1
  {
    RunKeepsInv(ws, actions, k);
    ActionGood(ws[k], actions[k]);
    var w := TraceOf(ws[k], actions[k])[j];
    if w.durable.Some? {
      var p := w.durable.value.progress;
      forall n | 0 <= n < |w.calls| ensures CallIds(w.calls)[n] == p.reservations[n] {
        assert CallOk(p.task.baseCommit, w.calls, n);
      }
    }
  }

  /**
   The review that led to a durable ACCEPTED or EXPORTED answered no_findings for exactly the durable
   candidate, which the implementer call before it produced.
   */
  lemma AcceptedMeansReviewed(ws: seq<World>, actions: seq<Action>, k: nat)
    requires IsRun(ws, actions) && k < |ws| && ws[k].durable.Some?
    requires ws[k].durable.value.progress.stage.Accepted? || ws[k].durable.value.progress.stage.Exported?
    ensures var p, calls := ws[k].durable.value.progress, ws[k].calls;
            && |calls| >= 2 && p.candidate.Some? && p.reservations != []
            && Last(calls) == ReviewerCall(Last(p.reservations), p.candidate.value, Some(NoFindings))
            && calls[|calls| - 2].ImplementerCall? && calls[|calls| - 2].produced == p.candidate
  {
    RunKeepsInv(ws, actions, k);
    var p, calls := ws[k].durable.value.progress, ws[k].calls;
    assert CallOk(p.task.baseCommit, calls, |calls| - 1);
  }

  /** EXPORTED is entered only from ACCEPTED, by a single durable step that keeps the candidate. */
  lemma ExportFollowsAcceptance(ws: seq<World>, actions: seq<Action>, k: nat, j: nat)
    requires IsRun(ws, actions) && k < |actions| && j + 1 < |TraceOf(ws[k], actions[k])|
    ensures ExportsAccepted(TraceOf(ws[k], actions[k])[j], TraceOf(ws[k], actions[k])[j + 1])
  {
    RunKeepsInv(ws, actions, k);
    ActionGood(ws[k], actions[k]);
    assert Allowed(TraceOf(ws[k], actions[k])[j], TraceOf(ws[k], actions[k])[j + 1]);
  }

  /**
   What each runner is given: the first implementer starts from the base commit, every later one from the
   candidate its predecessor was faulted for, and a reviewer sees the candidate just produced.
   */
  lemma CorrectionsBuildOnTheCandidate(ws: seq<World>, actions: seq<Action>, k: nat, n: nat)
    requires IsRun(ws, actions) && k < |ws| && n < |ws[k].calls|
    ensures ws[k].durable.Some?
    ensures CallOk(ws[k].durable.value.progress.task.baseCommit, ws[k].calls, n)
  {
    RunKeepsInv(ws, actions, k);
  }

  /** No new call, and the same record but for the reply it may have imported. */
  ghost predicate Frozen(w: World, next: World) {
    && next.calls == w.calls && w.durable.Some? && next.durable.Some?
    && var p, q := w.durable.value.progress, next.durable.value.progress;
       q == p.(replyState := q.replyState)
  }

  /** An invocation in flight when its process died is never launched again: the record stays as it is. */
  lemma {:induction false} ReservedIsForever(ws: seq<World>, actions: seq<Action>, j: nat, k: nat)
    requires IsRun(ws, actions) && j <= k < |ws|
    requires ws[j].durable.Some? && Reserved(ws[j].durable.value.progress.stage)
    ensures Frozen(ws[j], ws[k])
    decreases k
  {
    if j < k {
      ReservedIsForever(ws, actions, j, k - 1);
      var w, a, next := ws[k - 1], actions[k - 1], ws[k];
      assert next == After(w, a);
      hide After, IsRun;
      ReservedStep(w, a, next);
    }
  }

  lemma ReservedStep(w: World, a: Action, next: World)
    requires w.durable.Some? && Reserved(w.durable.value.progress.stage) && next == After(w, a)
    ensures Frozen(w, next)
  {
    hide Loop, Import;
  }

  /** A task whose ID has more than 114 characters is imported but can never be worked on. */
  lemma OverlongTaskNeverStarts(ws: seq<World>, actions: seq<Action>, k: nat)
    requires IsRun(ws, actions) && k < |ws| && ws[k].durable.Some?
    requires |ws[k].durable.value.progress.task.id| > LONGEST_TASK_ID
    ensures ws[k].calls == [] && ws[k].durable.value.progress.reservations == []
  {
    RunKeepsInv(ws, actions, k);
    var p := ws[k].durable.value.progress;
    if p.reservations != [] {
      PlannedLengths(p.task, p.reservations);
      assert false;
    }
  }

  /** With time left, the attempt to start such a task raises; a shorter ID is always reserved. */
  lemma FirstReservationFits(w: World, saved: Saved, i: HandlerInput)
    requires Inv(w) && w.durable == Some(saved) && saved.progress.stage.Imported?
    requires i.secondsAtStart >= 1 && i.rounds(0).secondsAtHead >= 1 && ValidRounds(i.rounds)
    ensures |saved.progress.task.id| > LONGEST_TASK_ID
            <==> Resume(w, saved, i) == Handled([w], RaisedBy(IdentifierTooLong))
  {
    ReserveStep(w, saved, Implementer);
    var r, h := i.rounds(0), Resume(w, saved, i);
    if |saved.progress.task.id| <= LONGEST_TASK_ID {
      ResumeGood(w, saved, i);
      TraceExtends(h.trace, |h.trace| - 1);
    } else {
      assert ImplementPhase(w, saved, r, false) == Stop(Handled([w], RaisedBy(IdentifierTooLong)));
    }
  }
}
