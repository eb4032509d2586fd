/**
 One call of `run_with_execution_provenance`, statement by statement, while other processes move in
 between: what its returned observations say about the durable evidence.
 */
module ProvenanceCall {
  import opened Common
  import opened Refs
  import opened Provenance
  import Admission

  /**
   The environment of one call: what every statement meets, and what the others do before it. A write that
   raises may do so with an exception the call does not handle, such as a keyboard interrupt.
   */
  datatype Plan = Plan(
    lockFails: bool, resolves: bool, rejectionFault: Fault, startFault: Fault, startInterrupted: bool, ending: Ending,
    terminalBound: bool, terminalFault: Fault, terminalInterrupted: bool, giving: Giving, others: nat -> seq<Move>)

  /** An admission handed to the caller, and whether it still owns its descriptor. */
  datatype Handle = Handle(owns: bool)

  datatype Report =
    | AdmissionRaised
    | Refused(recorded: bool)
    | Reported(taskStarted: bool, startRecorded: bool, terminalCommitted: bool, retained: Option<Handle>)
    | RaisedThrough(retained: Option<Handle>)

  /** How giving back fares at the operating system. */
  function ReleaseFaultOf(giving: Giving): Admission.ReleaseFault {
    match giving
    case GivesBack => Admission.Clean
    case UnlockFails => Admission.UnlockFails
    case CloseFails => Admission.CloseFails(false)
  }

  predicate Raises(ending: Ending) {
    ending.OwnershipUnresolved? || ending.Interrupted?
  }

  /** The `except AdmissionError` of the final release: any failure retains the handle, whatever it still owns. */
  function AfterRelease(giving: Giving): Option<Handle> {
    match giving
    case GivesBack => None
    case UnlockFails => Some(Handle(true))
    case CloseFails => Some(Handle(false))
  }

  /** What reaches the caller: an unresolved task carries the admission, any other exception loses the local. */
  function RetainedFor(ending: Ending, giving: Giving): Option<Handle> {
    if ending.OwnershipUnresolved? then Some(Handle(true))
    else if ending.Interrupted? then None
    else AfterRelease(giving)
  }

  ghost predicate OthersOnly(plan: Plan, me: nat) {
    forall at: nat, k | 0 <= k < |plan.others(at)| :: plan.others(at)[k].process != me
  }

  /** What no step of another process changes for a call. */
  ghost predicate Undisturbed(before: World, after: World, me: nat)
    requires me < |before.processes|
  {
    && me < |after.processes| && after.processes[me] == before.processes[me]
    && (me in after.ran <==> me in before.ran)
    && var id := IdOf(before.processes[me].start);
       RefOf(before, id).Some? && RefOf(before, id).value.TerminalRecord? ==> RefOf(after, id) == RefOf(before, id)
  }

  lemma OtherStep(w: World, m: Move, me: nat)
    requires Inv(w) && me < |w.processes| && m.process != me
    ensures Inv(Step(w, m.process, m.event)) && Undisturbed(w, Step(w, m.process, m.event), me)
  {
    StepKeepsInv(w, m.process, m.event);
    OthersStay(w, m.process, m.event, me);
    if m.process < |w.processes| {
      StepShape(w, m.process, m.event);
    }
  }

  /** How one own step moves the call itself. */
  ghost predicate Moved(before: World, after: World, me: nat, phase: Phase)
    requires me < |before.processes|
  {
    && me < |after.processes| && after.processes[me].start == before.processes[me].start
    && after.processes[me].phase == phase
  }

  lemma LockStep(w: World, me: nat, fails: bool)
    requires me < |w.processes| && w.processes[me].phase.Begin?
    ensures var after, r := Step(w, me, TryLock(fails)), ResourceOf(w.processes[me].start);
            && Moved(w, after, me, if fails || !Lockable(w.processes[me].start) then Over
                                   else if r in w.locks then Rejected else Admitted)
            && after.refs == w.refs && after.ran == w.ran && after.processes[me].store == w.processes[me].store
  {
  }

  lemma RejectionStep(w: World, me: nat, resolves: bool, fault: Fault)
    requires Inv(w) && me < |w.processes| && w.processes[me].phase.Rejected?
    ensures var after, p := Step(w, me, WriteRejection(resolves, fault)), w.processes[me];
            var written := Cas(RefOf(w, IdOf(p.start)), None, RejectedAttempt(p.start), fault);
            && Moved(w, after, me, Over) && after.ran == w.ran && me !in w.ran
            && (written.0 && Admissible(p, resolves) ==>
                  RefOf(after, IdOf(p.start)) == Some(RejectedAttempt(p.start)))
  {
    assert !w.processes[me].evidence;
  }

  lemma EnterStep(w: World, me: nat)
    requires me < |w.processes| && w.processes[me].phase.Started?
    ensures Moved(w, Step(w, me, EnterTask), me, Running) && me in Step(w, me, EnterTask).ran
  {
  }

  lemma LeaveStep(w: World, me: nat, ending: Ending)
    requires me < |w.processes| && w.processes[me].phase.Running?
    ensures var after := Step(w, me, LeaveTask(ending));
            && after.ran == w.ran
            && Moved(w, after, me, if ending.OwnershipUnresolved? then Unresolved
                                   else if ending.Returned? && ending.record.start == w.processes[me].start then
                                     Phase.Recorded(ending.record)
                                   else Leaving)
  {
  }

  lemma TerminalStep(w: World, me: nat, bound: bool, fault: Fault)
    requires Inv(w) && me < |w.processes| && w.processes[me].phase.Recorded?
    ensures var after := Step(w, me, WriteTerminal(bound, fault));
            && Moved(w, after, me, Leaving) && after.ran == w.ran
            && (bound && fault.Healthy? ==> HasTerminal(after, me) && TerminalOf(after, me) == w.processes[me].phase.record)
  {
    assert RefOf(w, IdOf(w.processes[me].start)) == Some(StartedAttempt(w.processes[me].start));
  }

  lemma GiveBackStep(w: World, me: nat, giving: Giving)
    requires me < |w.processes| && w.processes[me].phase.Leaving?
    ensures var after := Step(w, me, GiveBack(giving));
            Moved(w, after, me, if giving.UnlockFails? then Unreleased else Over) && after.ran == w.ran && after.refs == w.refs
  {
  }

  lemma StartStep(w: World, me: nat, resolves: bool, fault: Fault)
    requires me < |w.processes| && w.processes[me].phase.Admitted?
    ensures var after := Step(w, me, WriteStart(resolves, fault));
            (Moved(w, after, me, Started) || Moved(w, after, me, Leaving)) && after.ran == w.ran
  {
  }

  /** The task leaves a usable record of this very start. */
  predicate RecordsOwn(ending: Ending, start: Start) {
    ending.Returned? && ending.record.start == start
  }

  predicate Commits(plan: Plan, start: Start) {
    RecordsOwn(plan.ending, start) && plan.terminalBound && plan.terminalFault.Healthy?
  }

  /** The starting State belongs to the store and resolves there, and its identity has no record of any kind. */
  predicate Unrecorded(w: World, me: nat, plan: Plan)
    requires me < |w.processes|
  {
    var p := w.processes[me];
    p.store == p.start.repository && plan.resolves && IdOf(p.start) !in w.refs
  }

  predicate Startable(w: World, me: nat, plan: Plan)
    requires me < |w.processes|
  {
    Unrecorded(w, me, plan) && plan.startFault.Healthy?
  }

  /** What a call with nobody else about reports, told by the world it starts in. */
  predicate QuietReport(w: World, me: nat, plan: Plan, report: Report)
    requires me < |w.processes|
  {
    var start := w.processes[me].start;
    var asked := !plan.lockFails && Lockable(start);
    var admitted := asked && ResourceOf(start) !in w.locks;
    && (report.AdmissionRaised? <==> !asked)
    && (report.Refused? <==> asked && ResourceOf(start) in w.locks)
    && (report.Refused? ==> (report.recorded <==> Unrecorded(w, me, plan) && plan.rejectionFault.Healthy?))
    && (admitted ==> AdmittedReport(Startable(w, me, plan), plan, start, report))
  }

  /** What an admitted call reports, given whether its start record can be written. */
  predicate AdmittedReport(started: bool, plan: Plan, start: Start, report: Report) {
    && (report.Reported? && report.taskStarted <==>
          started && !Raises(plan.ending)
          && !(RecordsOwn(plan.ending, start) && !Commits(plan, start) && plan.terminalInterrupted))
    && (report.Reported? && !report.taskStarted <==> !started && !plan.startInterrupted)
    && (report.RaisedThrough? || report.Reported?)
  }

  class Call {
    var world: World
    ghost var moves: seq<Move>
    ghost var worlds: seq<World>

    /** The recorded worlds are a run, and this is where it stands. */
    ghost predicate Recorded()
      reads this
    {
      IsRun(worlds, moves) && Last(worlds) == world
    }

    method Perform(me: nat, event: Event)
      requires Recorded()
      modifies this
      ensures Recorded() && world == Step(old(world), me, event)
    {
      ghost var before := worlds;
      world := Step(world, me, event);
      moves, worlds := moves + [Move(me, event)], worlds + [world];
      assert forall k | 0 <= k < |before| :: worlds[k] == before[k];
    }

    method Meanwhile(theirs: seq<Move>, me: nat)
      requires Recorded() && me < |world.processes|
      requires forall k | 0 <= k < |theirs| :: theirs[k].process != me
      modifies this
      ensures Recorded() && Undisturbed(old(world), world, me)
      ensures theirs == [] ==> world == old(world)
    {
      for k := 0 to |theirs|
        invariant Recorded() && Undisturbed(old(world), world, me)
        invariant theirs == [] ==> world == old(world)
      {
        RunKeepsInv(worlds, moves, |worlds| - 1);
        OtherStep(world, theirs[k], me);
        Perform(theirs[k].process, theirs[k].event);
      }
    }

    /** Write the start record; the task may be entered exactly if the write is reported done. */
    method WriteStartRecord(me: nat, plan: Plan) returns (ok: bool)
      requires Recorded() && me < |world.processes| && world.processes[me].phase.Admitted? && OthersOnly(plan, me)
      modifies this
      ensures Recorded() && me < |world.processes| && world.processes[me].start == old(world.processes[me].start)
      ensures world.processes[me].phase == (if ok then Started else Leaving) && me !in world.ran
      ensures plan.others(1) == [] ==> (ok <==> Startable(old(world), me, plan))
    {
      RunKeepsInv(worlds, moves, |worlds| - 1);
      Meanwhile(plan.others(1), me);
      StartStep(world, me, plan.resolves, plan.startFault);
      Perform(me, WriteStart(plan.resolves, plan.startFault));
      ok := world.processes[me].phase.Started?;
    }

    /** Run the task and decide what to do with what it leaves. */
    method RunTask(me: nat, plan: Plan)
      requires Recorded() && me < |world.processes| && world.processes[me].phase.Started? && OthersOnly(plan, me)
      modifies this
      ensures Recorded() && me < |world.processes| && world.processes[me].start == old(world.processes[me].start)
      ensures me in world.ran
      ensures var p := world.processes[me].phase;
              if plan.ending.OwnershipUnresolved? then p.Unresolved? else p.Recorded? || p.Leaving?
      ensures world.processes[me].phase.Recorded? <==> RecordsOwn(plan.ending, world.processes[me].start)
      ensures world.processes[me].phase.Recorded? ==> world.processes[me].phase.record == plan.ending.record
    {
      Meanwhile(plan.others(2), me);
      EnterStep(world, me);
      Perform(me, EnterTask);
      Meanwhile(plan.others(3), me);
      LeaveStep(world, me, plan.ending);
      Perform(me, LeaveTask(plan.ending));
    }

    /** Write the terminal record, still admitted. */
    method WriteTerminalRecord(me: nat, plan: Plan) returns (committed: bool)
      requires Recorded() && me < |world.processes| && world.processes[me].phase.Recorded? && OthersOnly(plan, me)
      requires me in world.ran && plan.ending.Returned? && world.processes[me].phase.record == plan.ending.record
      modifies this
      ensures Recorded() && me < |world.processes| && world.processes[me].start == old(world.processes[me].start)
      ensures world.processes[me].phase.Leaving? && me in world.ran
      ensures committed <==> plan.terminalBound && plan.terminalFault.Healthy?
      ensures committed ==> HasTerminal(world, me) && TerminalOf(world, me) == plan.ending.record
    {
      Meanwhile(plan.others(4), me);
      RunKeepsInv(worlds, moves, |worlds| - 1);
      TerminalStep(world, me, plan.terminalBound, plan.terminalFault);
      committed := plan.terminalBound && plan.terminalFault.Healthy?;
      Perform(me, WriteTerminal(plan.terminalBound, plan.terminalFault));
    }

    /** `finally`: give the lock back; any failure retains the handle, only a failed unlock keeps the admission. */
    method Leave(me: nat, plan: Plan) returns (retained: Option<Handle>)
      requires Recorded() && me < |world.processes| && world.processes[me].phase.Leaving? && OthersOnly(plan, me)
      modifies this
      ensures Recorded() && me < |world.processes| && world.processes[me].start == old(world.processes[me].start)
      ensures me in world.ran <==> old(me in world.ran)
      ensures (retained.Some? <==> !plan.giving.GivesBack?) && (Holding(world.processes[me].phase) <==> plan.giving.UnlockFails?)
      ensures retained.Some? ==> (retained.value.owns <==> Holding(world.processes[me].phase))
      ensures old(HasTerminal(world, me)) ==> HasTerminal(world, me) && TerminalOf(world, me) == old(TerminalOf(world, me))
    {
      Meanwhile(plan.others(5), me);
      GiveBackStep(world, me, plan.giving);
      Perform(me, GiveBack(plan.giving));
      retained := AfterRelease(plan.giving);
    }

    /** The refused call records its attempt and nothing else. */
    method RecordRefusal(me: nat, plan: Plan) returns (recorded: bool)
      requires Recorded() && me < |world.processes| && world.processes[me].phase.Rejected? && OthersOnly(plan, me)
      modifies this
      ensures Recorded() && me < |world.processes| && me !in world.ran && !Holding(world.processes[me].phase)
      ensures world.processes[me].start == old(world.processes[me].start)
      ensures recorded ==> RefOf(world, IdOf(world.processes[me].start)) == Some(RejectedAttempt(world.processes[me].start))
      ensures plan.others(1) == [] ==>
                (recorded <==> Unrecorded(old(world), me, plan) && plan.rejectionFault.Healthy?)
    {
      hide Step, Inv;
      Meanwhile(plan.others(1), me);
      var p := world.processes[me];
      var result := Cas(RefOf(world, IdOf(p.start)), None, RejectedAttempt(p.start), plan.rejectionFault);
      recorded := result.0 && Admissible(p, plan.resolves);
      RunKeepsInv(worlds, moves, |worlds| - 1);
      RejectionStep(world, me, plan.resolves, plan.rejectionFault);
      Perform(me, WriteRejection(plan.resolves, plan.rejectionFault));
    }

    /** With the lock held: start record, task, terminal record, release. */
    method ExecuteAdmitted(me: nat, plan: Plan) returns (report: Report)
      requires Recorded() && me < |world.processes| && world.processes[me].phase.Admitted? && OthersOnly(plan, me)
      modifies this
      ensures Recorded() && me < |world.processes| && world.processes[me].start == old(world.processes[me].start)
      ensures (report.Reported? || report.RaisedThrough?) && Truthful(world, me, plan, report)
      ensures Told(world, me, plan, report)
      ensures plan.others(1) == [] ==> AdmittedReport(Startable(old(world), me, plan), plan, world.processes[me].start, report)
    {
      hide Step, Undisturbed, Inv, Provenance.IsRun;
      var retained: Option<Handle>;
      var ok := WriteStartRecord(me, plan);
      if !ok {
        retained := Leave(me, plan);
        return if plan.startInterrupted then RaisedThrough(None) else Reported(false, false, false, retained);
      }
      RunTask(me, plan);
      if world.processes[me].phase.Unresolved? {
        return RaisedThrough(Some(Handle(true)));
      }
      var committed, interrupted := false, plan.ending.Interrupted?;
      if world.processes[me].phase.Recorded? {
        committed := WriteTerminalRecord(me, plan);
        interrupted := !committed && plan.terminalInterrupted;
      }
      retained := Leave(me, plan);
      report := if interrupted then RaisedThrough(None) else Reported(true, true, committed, retained);
    }

    /**
     `run_with_execution_provenance`: whatever the others do, task_started tells whether the task was
     entered and a reported terminal commit is durable evidence of this very start, reported exactly if the
     task left its own record and the write succeeded. A call that returns reports every admission it keeps,
     and one it does not keep exactly if only the close failed; an interrupted call reports nothing, and
     keeps the admission exactly if the unlock failed.
     */
    method Execute(me: nat, plan: Plan) returns (report: Report)
      requires Recorded() && me < |world.processes| && world.processes[me].phase.Begin? && OthersOnly(plan, me)
      modifies this
      ensures Recorded() && me < |world.processes| && world.processes[me].start == old(world.processes[me].start)
      ensures Truthful(world, me, plan, report) && Told(world, me, plan, report)
      ensures (forall at: nat :: plan.others(at) == []) ==> QuietReport(old(world), me, plan, report)
    {
      RunKeepsInv(worlds, moves, |worlds| - 1);
      Meanwhile(plan.others(0), me);
      LockStep(world, me, plan.lockFails);
      Perform(me, TryLock(plan.lockFails));
      if world.processes[me].phase.Over? {
        return AdmissionRaised;
      }
      if world.processes[me].phase.Rejected? {
        var refused := RecordRefusal(me, plan);
        return Refused(refused);
      }
      report := ExecuteAdmitted(me, plan);
    }
  }

  /** What a report says about the task and about the admission, for every outcome. */
  ghost predicate Truthful(w: World, me: nat, plan: Plan, report: Report)
    requires me < |w.processes|
  {
    var holding := Holding(w.processes[me].phase);
    match report
    case AdmissionRaised => me !in w.ran && !holding
    case Refused(_) => me !in w.ran && !holding
    case Reported(started, recorded, committed, retained) =>
      && (started <==> me in w.ran) && (started <==> recorded)
      && (holding <==> retained.Some? && retained.value.owns)
      && ((retained.Some? <==> holding) <==> !plan.giving.CloseFails?)
      && (started ==> !Raises(plan.ending))
    case RaisedThrough(retained) =>
      && (me in w.ran ==> Raises(plan.ending) || plan.terminalInterrupted)
      && (me !in w.ran ==> plan.startInterrupted)
      && (retained.Some? <==> me in w.ran && plan.ending.OwnershipUnresolved?)
      && (retained.Some? ==> holding && retained.value.owns)
      && (retained.None? ==> (holding <==> plan.giving.UnlockFails?))
  }

  /** What a report says about the evidence. */
  ghost predicate Told(w: World, me: nat, plan: Plan, report: Report)
    requires me < |w.processes|
  {
    match report
    case Reported(started, _, committed, _) =>
      && (committed <==> started && Commits(plan, w.processes[me].start))
      && (committed ==> HasTerminal(w, me) && TerminalOf(w, me) == plan.ending.record)
    case Refused(recorded) =>
      recorded ==> RefOf(w, IdOf(w.processes[me].start)) == Some(RejectedAttempt(w.processes[me].start))
    case _ => true
  }

  /** The durable terminal evidence of a call's own start. */
  ghost predicate HasTerminal(w: World, me: nat)
    requires me < |w.processes|
  {
    var s := w.processes[me].start;
    RefOf(w, IdOf(s)).Some? && RefOf(w, IdOf(s)).value.TerminalRecord? && RefOf(w, IdOf(s)).value.record.start == s
  }

  /** What that evidence holds. */
  ghost function TerminalOf(w: World, me: nat): Record
    requires me < |w.processes| && HasTerminal(w, me)
  {
    RefOf(w, IdOf(w.processes[me].start)).value.record
  }

  // ---------------------------------------------------------------- what retention tells

  /** The handle after a failed or successful release is the one `ExecutionAdmission.release` leaves. */
  lemma ReleaseAsAdmission(s: Admission.System, fd: Admission.Fd, giving: Giving)
    requires fd in s.files && s.files[fd] in s.locks
    ensures var (release, keeps, after) := Admission.Give(s, fd, ReleaseFaultOf(giving));
            && (AfterRelease(giving).Some? <==> release.ReleaseFailed?)
            && (AfterRelease(giving).Some? ==> (AfterRelease(giving).value.owns <==> keeps))
            && (keeps <==> s.files[fd] in after.locks)
  {
  }

  /** How a task ends and its admission is given back, with nothing left to record. */
  function Left(w: World, me: nat, ending: Ending, giving: Giving): World {
    Step(Step(w, me, LeaveTask(ending)), me, GiveBack(giving))
  }

  /**
   Exactness over every ending without a record: the caller is told of a retained admission exactly when
   the lock is kept, except for a close that failed after the unlock (told, not kept) and an interruption
   with a failed unlock (kept, not told).
   */
  lemma RetentionIsExact(w: World, me: nat, ending: Ending, giving: Giving)
    requires Inv(w) && me < |w.processes| && w.processes[me].phase.Running?
    requires ending.Returned? ==> ending.record.start != w.processes[me].start
    ensures var after, r := Left(w, me, ending, giving), ResourceOf(w.processes[me].start);
            var told, kept := RetainedFor(ending, giving).Some?, r in after.locks;
            && me < |after.processes| && (kept <==> Holding(after.processes[me].phase))
            && (told && !kept <==> !Raises(ending) && giving.CloseFails?)
            && (kept && !told <==> ending.Interrupted? && giving.UnlockFails?)
            && (!ending.Interrupted? ==> (kept <==> told && RetainedFor(ending, giving).value.owns))
  {
    hide Inv, Step;
    var left := Step(w, me, LeaveTask(ending));
    LeaveStep(w, me, ending);
    LockFollowsHolding(w, me, LeaveTask(ending));
    StepKeepsInv(w, me, LeaveTask(ending));
    LockFollowsHolding(left, me, GiveBack(giving));
    if ending.OwnershipUnresolved? {
      UnresolvedStays(left, me, giving);
    } else {
      GiveBackStep(left, me, giving);
    }
  }

  lemma UnresolvedStays(w: World, me: nat, giving: Giving)
    requires me < |w.processes| && w.processes[me].phase.Unresolved?
    ensures Step(w, me, GiveBack(giving)) == w
  {
  }

  /** The lock of a process that holds admission stays exactly as long as it does. */
  lemma LockFollowsHolding(w: World, me: nat, event: Event)
    requires Inv(w) && me < |w.processes| && Holding(w.processes[me].phase)
    ensures var after, r := Step(w, me, event), ResourceOf(w.processes[me].start);
            && me < |after.processes| && after.processes[me].start == w.processes[me].start
            && (r in after.locks <==> Holding(after.processes[me].phase))
  {
    StepShape(w, me, event);
    hide Step, StartShape, OtherShape, EvidenceOk, RanOk, EarlyOk;
  }

  /** One process that is admitted, writes its start record and enters its task, with nobody else about. */
  function RunAlone(start: Start): seq<World> {
    var w0 := World(map[], map[], [Process(start, start.repository, Begin, false), Process(start, start.repository, Begin, false)], []);
    var w1 := Step(w0, 0, TryLock(false));
    var w2 := Step(w1, 0, WriteStart(true, Healthy));
    [w0, w1, w2, Step(w2, 0, EnterTask)]
  }

  function MovesAlone(): seq<Move> {
    [Move(0, TryLock(false)), Move(0, WriteStart(true, Healthy)), Move(0, EnterTask)]
  }

  lemma RunningAlone(start: Start)
    requires Lockable(start)
    ensures var w := RunAlone(start)[3];
            && IsRun(RunAlone(start), MovesAlone()) && Inv(w)
            && |w.processes| == 2 && w.processes[0].phase.Running? && w.processes[1] == Process(start, start.repository, Begin, false)
            && w.processes[0].start == start
  {
    RunKeepsInv(RunAlone(start), MovesAlone(), 3);
  }

  /** Reported but free: after a returned call whose close failed, the next attempt is admitted at once. */
  lemma ReportedButFree(start: Start)
    requires Lockable(start)
    ensures var after := Left(RunAlone(start)[3], 0, NoRecord, CloseFails);
            && RetainedFor(NoRecord, CloseFails) == Some(Handle(false))
            && Step(after, 1, TryLock(false)).processes[1].phase.Admitted?
  {
    RunningAlone(start);
    var w := RunAlone(start)[3];
    RetentionIsExact(w, 0, NoRecord, CloseFails);
    StaysBegin(w, NoRecord, CloseFails);
  }

  /** Kept but unreported: after an interrupted task and a failed unlock nobody is told, and others stay refused. */
  lemma KeptButUnreported(start: Start)
    requires Lockable(start)
    ensures var after := Left(RunAlone(start)[3], 0, Interrupted, UnlockFails);
            && RetainedFor(Interrupted, UnlockFails) == None
            && Step(after, 1, TryLock(false)).processes[1].phase.Rejected?
  {
    RunningAlone(start);
    var w := RunAlone(start)[3];
    RetentionIsExact(w, 0, Interrupted, UnlockFails);
    StaysBegin(w, Interrupted, UnlockFails);
  }

  lemma StaysBegin(w: World, ending: Ending, giving: Giving)
    requires |w.processes| == 2 && w.processes[1].phase.Begin?
    ensures var after := Left(w, 0, ending, giving); |after.processes| == 2 && after.processes[1] == w.processes[1]
  {
    OthersStay(w, 0, LeaveTask(ending), 1);
    OthersStay(Step(w, 0, LeaveTask(ending)), 0, GiveBack(giving), 1);
    StepShape(w, 0, LeaveTask(ending));
    StepShape(Step(w, 0, LeaveTask(ending)), 0, GiveBack(giving));
  }
}
