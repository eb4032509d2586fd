/**
 Running one task under admission with evidence: try the lock, write the attempt, run the task, write the
 terminal record, give the lock back. Any number of processes do this at the same time and may die at any
 point; the world moves in single steps of single processes.
 */
module Provenance {
  import opened Common
  import opened Refs

  datatype Start = Start(repository: string, environment: string, instance: string, execution: string, inputs: string)

  /** What the attempt ref is named after; the digest text is injective (module Admission). */
  datatype Identity = Identity(repository: string, environment: string, instance: string, execution: string)

  datatype Resource = Resource(environment: string, instance: string)

  function IdOf(s: Start): Identity {
    Identity(s.repository, s.environment, s.instance, s.execution)
  }

  function ResourceOf(s: Start): Resource {
    Resource(s.environment, s.instance)
  }

  const MAX_IDENTITY := 256

  /** Admission bounds the identities it locks for; a start record does not. */
  predicate Lockable(s: Start) {
    |s.environment| <= MAX_IDENTITY && |s.instance| <= MAX_IDENTITY && |s.execution| <= MAX_IDENTITY
  }

  datatype Record = Record(start: Start, failed: bool, content: string)

  datatype Evidence = RejectedAttempt(start: Start) | StartedAttempt(start: Start) | TerminalRecord(record: Record)

  /** Where one call of `run_with_execution_provenance` stands. */
  datatype Phase =
    | Begin | Rejected | Admitted | Started | Running | Recorded(record: Record) | Leaving
    | Unresolved   // the task left ownership unresolved; the lock is kept
    | Unreleased   // the lock could not be given back
    | Over | Dead

  /**
   One call: its start, the repository of its evidence store, where it stands, and whether it wrote the
   attempt record itself. The `repository` of a start is that of its starting State.
   */
  datatype Process = Process(start: Start, store: string, phase: Phase, evidence: bool)

  /** `ran` lists the processes that entered their task. */
  datatype World = World(locks: map<Resource, nat>, refs: map<Identity, Evidence>, processes: seq<Process>, ran: seq<nat>)

  /** How a task ends: with a record, without a usable one, with unresolved ownership, or by another raise. */
  datatype Ending = Returned(record: Record) | NoRecord | OwnershipUnresolved | Interrupted

  datatype Giving = GivesBack | UnlockFails | CloseFails

  datatype Event =
    | TryLock(fails: bool) | WriteRejection(resolves: bool, fault: Fault) | WriteStart(resolves: bool, fault: Fault) | EnterTask
    | LeaveTask(ending: Ending) | WriteTerminal(bound: bool, fault: Fault) | GiveBack(giving: Giving)
    | ReleaseRetained(works: bool) | Die

  datatype Move = Move(process: nat, event: Event)

  predicate Holding(p: Phase) {
    p.Admitted? || p.Started? || p.Running? || p.Recorded? || p.Leaving? || p.Unresolved? || p.Unreleased?
  }

  function At(w: World, i: nat, phase: Phase): World
    requires i < |w.processes|
  {
    w.(processes := w.processes[i := w.processes[i].(phase := phase)])
  }

  function Unlock(w: World, i: nat): World
    requires i < |w.processes|
  {
    w.(locks := w.locks - {ResourceOf(w.processes[i].start)})
  }

  function WriteRef(w: World, id: Identity, value: Option<Evidence>): World {
    if value.None? then w else w.(refs := w.refs[id := value.value])
  }

  function RefOf(w: World, id: Identity): Option<Evidence> {
    if id in w.refs then Some(w.refs[id]) else None
  }

  /** `persist_attempt` before it writes: the starting State must belong to the store, and resolve there. */
  predicate Admissible(p: Process, resolves: bool) {
    p.store == p.start.repository && resolves
  }

  /** One step of one process; an event that does not fit its phase changes nothing. */
  function Step(w: World, i: nat, event: Event): World {
    if i >= |w.processes| then w
    else
      var p := w.processes[i];
      var id, resource := IdOf(p.start), ResourceOf(p.start);
      match (event, p.phase)
      case (TryLock(fails), Begin) =>
        if fails || !Lockable(p.start) then At(w, i, Over)
        else if resource in w.locks then At(w, i, Rejected)
        else At(w.(locks := w.locks[resource := i]), i, Admitted)
      case (WriteRejection(resolves, fault), Rejected) =>
        if !Admissible(p, resolves) then At(w, i, Over)
        else At(WriteRef(w, id, Cas(RefOf(w, id), None, RejectedAttempt(p.start), fault).1), i, Over)
      case (WriteStart(resolves, fault), Admitted) =>
        if !Admissible(p, resolves) then At(w, i, Leaving)
        else
          var (ok, value) := Cas(RefOf(w, id), None, StartedAttempt(p.start), fault);
          var written := WriteRef(w, id, value);
          if ok then written.(processes := w.processes[i := Process(p.start, p.store, Started, true)])
          else At(written, i, Leaving)
      case (EnterTask, Started) => At(w.(ran := w.ran + [i]), i, Running)
      case (LeaveTask(Returned(record)), Running) =>
        At(w, i, if record.start == p.start then Phase.Recorded(record) else Leaving)
      case (LeaveTask(OwnershipUnresolved), Running) => At(w, i, Unresolved)
      case (LeaveTask(_), Running) => At(w, i, Leaving)
      case (WriteTerminal(bound, fault), Recorded(record)) =>
        if !bound then At(w, i, Leaving)
        else
          At(WriteRef(w, id, Cas(RefOf(w, id), Some(StartedAttempt(p.start)), TerminalRecord(record), fault).1), i, Leaving)
      case (GiveBack(giving), Leaving) =>
        if giving.UnlockFails? then At(w, i, Unreleased) else At(Unlock(w, i), i, Over)
      case (ReleaseRetained(works), Unresolved) => if works then At(Unlock(w, i), i, Over) else w
      case (ReleaseRetained(works), Unreleased) => if works then At(Unlock(w, i), i, Over) else w
      case (Die, Over) => w
      case (Die, _) => At(if Holding(p.phase) then Unlock(w, i) else w, i, Dead)
      case _ => w
  }

  // ---------------------------------------------------------------- the invariant

  ghost predicate LocksOk(w: World) {
    && (forall i | 0 <= i < |w.processes| && Holding(w.processes[i].phase) ::
          ResourceOf(w.processes[i].start) in w.locks && w.locks[ResourceOf(w.processes[i].start)] == i)
    && (forall r | r in w.locks ::
          && w.locks[r] < |w.processes| && ResourceOf(w.processes[w.locks[r]].start) == r
          && Holding(w.processes[w.locks[r]].phase))
  }

  predicate Working(p: Phase) {
    p.Started? || p.Running? || p.Recorded?
  }

  predicate OwnRecord(e: Evidence, s: Start) {
    e == StartedAttempt(s) || (e.TerminalRecord? && e.record.start == s)
  }

  ghost predicate EvidenceOk(w: World) {
    && (forall i | 0 <= i < |w.processes| && w.processes[i].evidence ::
          IdOf(w.processes[i].start) in w.refs && OwnRecord(w.refs[IdOf(w.processes[i].start)], w.processes[i].start))
    && (forall i, j | 0 <= i < |w.processes| && 0 <= j < |w.processes|
                      && w.processes[i].evidence && w.processes[j].evidence
                      && IdOf(w.processes[i].start) == IdOf(w.processes[j].start) :: i == j)
    && (forall i | 0 <= i < |w.processes| && Working(w.processes[i].phase) ::
          && w.processes[i].evidence && IdOf(w.processes[i].start) in w.refs
          && w.refs[IdOf(w.processes[i].start)] == StartedAttempt(w.processes[i].start))
  }

  ghost predicate RanOk(w: World) {
    && NoDup(w.ran)
    && (forall i | i in w.ran :: i < |w.processes| && w.processes[i].evidence)
    && forall i | 0 <= i < |w.processes| && (w.processes[i].phase.Started? || w.processes[i].phase.Admitted?) :: i !in w.ran
  }

  ghost predicate EarlyOk(w: World) {
    forall i | 0 <= i < |w.processes| :: var p := w.processes[i];
      && (p.phase.Begin? || p.phase.Rejected? || p.phase.Admitted? ==> !p.evidence)
      && (p.phase.Recorded? ==> p.phase.record.start == p.start)
  }

  ghost predicate Inv(w: World) {
    LocksOk(w) && EvidenceOk(w) && RanOk(w) && EarlyOk(w)
  }

  // ---------------------------------------------------------------- what one step can change

  ghost predicate OnlyOne(w: World, after: World, i: nat) {
    && i < |w.processes| && |after.processes| == |w.processes|
    && (forall j | 0 <= j < |w.processes| && j != i :: after.processes[j] == w.processes[j])
    && after.processes[i].start == w.processes[i].start && after.processes[i].store == w.processes[i].store
  }

  /** The lock is taken, given up, or left, exactly as the phase says. */
  predicate LockShape(w: World, after: World, i: nat)
    requires i < |w.processes| && |after.processes| == |w.processes|
  {
    var p, q, r := w.processes[i], after.processes[i], ResourceOf(w.processes[i].start);
    if Holding(p.phase) == Holding(q.phase) then after.locks == w.locks
    else if Holding(q.phase) then r !in w.locks && after.locks == w.locks[r := i]
    else after.locks == w.locks - {r}
  }

  /** The own start record is created from absence, and only by an admitted process that goes on to its task. */
  predicate StartShape(w: World, after: World, i: nat)
    requires i < |w.processes| && |after.processes| == |w.processes|
  {
    var p, q, id := w.processes[i], after.processes[i], IdOf(w.processes[i].start);
    p.phase.Admitted? && q.phase.Started? && q.evidence && id !in w.refs
    && after.refs == w.refs[id := StartedAttempt(p.start)] && after.ran == w.ran
  }

  /** Any other change of a ref: an absent one is filled, or the own start record becomes the terminal one. */
  predicate OtherShape(w: World, after: World, i: nat)
    requires i < |w.processes| && |after.processes| == |w.processes|
  {
    var p, q, id := w.processes[i], after.processes[i], IdOf(w.processes[i].start);
    && q.evidence == p.evidence
    && (|| after.refs == w.refs
        || (id !in w.refs && id in after.refs && after.refs == w.refs[id := after.refs[id]] && !Working(q.phase)
            && (p.phase.Rejected? || p.phase.Admitted?) && !after.refs[id].TerminalRecord?)
        || (p.phase.Recorded? && q.phase.Leaving? && id in w.refs && w.refs[id] == StartedAttempt(p.start)
            && after.refs == w.refs[id := TerminalRecord(p.phase.record)]))
    && (Working(q.phase) ==> Working(p.phase))
    && (|| (after.ran == w.ran && (q.phase.Started? ==> p.phase.Started?) && (q.phase.Running? ==> p.phase.Running?)
            && (q.phase.Admitted? ==> p.phase.Admitted? || p.phase.Begin?))
        || (p.phase.Started? && q.phase.Running? && after.ran == w.ran + [i] && after.refs == w.refs))
    && (q.phase.Begin? || q.phase.Rejected? || q.phase.Admitted? ==> p.phase.Begin? || q.phase == p.phase)
    && (q.phase.Recorded? ==> p.phase == q.phase || q.phase.record.start == p.start)
  }

  ghost predicate Shape(w: World, after: World, i: nat) {
    OnlyOne(w, after, i) && LockShape(w, after, i) && (StartShape(w, after, i) || OtherShape(w, after, i))
  }

  ghost predicate Shaped(w: World, i: nat, event: Event)
    requires i < |w.processes|
  {
    Step(w, i, event) == w || Shape(w, Step(w, i, event), i)
  }

  lemma LockingShape(w: World, i: nat, fails: bool)
    requires i < |w.processes|
    ensures Shaped(w, i, TryLock(fails))
  {
  }

  lemma RejectionShape(w: World, i: nat, resolves: bool, fault: Fault)
    requires i < |w.processes|
    ensures Shaped(w, i, WriteRejection(resolves, fault))
  {
    var id := IdOf(w.processes[i].start);
    assert id in w.refs ==> w.refs == w.refs[id := w.refs[id]];
  }

  lemma StartingShape(w: World, i: nat, resolves: bool, fault: Fault)
    requires i < |w.processes|
    ensures Shaped(w, i, WriteStart(resolves, fault))
  {
    var id := IdOf(w.processes[i].start);
    assert id in w.refs ==> w.refs == w.refs[id := w.refs[id]];
    var after := Step(w, i, WriteStart(resolves, fault));
    if after != w {
      assert OnlyOne(w, after, i) && LockShape(w, after, i);
      hide OnlyOne, LockShape;
      assert StartShape(w, after, i) || OtherShape(w, after, i);
    }
  }

  lemma TaskShape(w: World, i: nat, event: Event)
    requires i < |w.processes| && (event.EnterTask? || event.LeaveTask?)
    ensures Shaped(w, i, event)
  {
  }

  lemma TerminalShape(w: World, i: nat, bound: bool, fault: Fault)
    requires i < |w.processes|
    ensures Shaped(w, i, WriteTerminal(bound, fault))
  {
    var id := IdOf(w.processes[i].start);
    assert id in w.refs ==> w.refs == w.refs[id := w.refs[id]];
  }

  lemma EndingShape(w: World, i: nat, event: Event)
    requires i < |w.processes| && (event.GiveBack? || event.ReleaseRetained? || event.Die?)
    ensures Shaped(w, i, event)
  {
  }

  lemma StepShape(w: World, i: nat, event: Event)
    requires i < |w.processes|
    ensures Step(w, i, event) == w || Shape(w, Step(w, i, event), i)
  {
    match event {
      case TryLock(fails) => LockingShape(w, i, fails);
      case WriteRejection(resolves, fault) => RejectionShape(w, i, resolves, fault);
      case WriteStart(resolves, fault) => StartingShape(w, i, resolves, fault);
      case EnterTask => TaskShape(w, i, event);
      case LeaveTask(_) => TaskShape(w, i, event);
      case WriteTerminal(bound, fault) => TerminalShape(w, i, bound, fault);
      case GiveBack(_) => EndingShape(w, i, event);
      case ReleaseRetained(_) => EndingShape(w, i, event);
      case Die => EndingShape(w, i, event);
    }
    assert Shaped(w, i, event);
  }

  lemma ShapeKeepsLocks(w: World, after: World, i: nat)
    requires LocksOk(w) && OnlyOne(w, after, i) && LockShape(w, after, i)
    ensures LocksOk(after)
  {
  }

  lemma ShapeKeepsEvidence(w: World, after: World, i: nat)
    requires EvidenceOk(w) && EarlyOk(w) && OnlyOne(w, after, i) && (StartShape(w, after, i) || OtherShape(w, after, i))
    ensures EvidenceOk(after)
  {
  }

  lemma ShapeKeepsRan(w: World, after: World, i: nat)
    requires EvidenceOk(w) && RanOk(w) && EarlyOk(w)
    requires OnlyOne(w, after, i) && (StartShape(w, after, i) || OtherShape(w, after, i))
    ensures RanOk(after) && EarlyOk(after)
  {
  }

  lemma StepKeepsInv(w: World, i: nat, event: Event)
    requires Inv(w)
    ensures Inv(Step(w, i, event))
  {
    var after := Step(w, i, event);
    if i < |w.processes| {
      StepShape(w, i, event);
      if after != w {
        ShapeKeepsLocks(w, after, i);
        ShapeKeepsEvidence(w, after, i);
        ShapeKeepsRan(w, after, i);
      }
    }
  }

  // ---------------------------------------------------------------- runs

  /** Nobody has started yet; earlier executions may have left any evidence. */
  predicate Initial(w: World) {
    && w.locks == map[] && w.ran == []
    && forall i | 0 <= i < |w.processes| :: w.processes[i].phase.Begin? && !w.processes[i].evidence
  }

  ghost predicate IsRun(ws: seq<World>, moves: seq<Move>) {
    && |ws| == |moves| + 1 && Initial(ws[0])
    && forall k | 0 <= k < |moves| :: ws[k + 1] == Step(ws[k], moves[k].process, moves[k].event)
  }

  lemma {:induction false} RunKeepsInv(ws: seq<World>, moves: seq<Move>, k: nat)
    requires IsRun(ws, moves) && k < |ws|
    ensures Inv(ws[k])
  {
    if k > 0 {
      RunKeepsInv(ws, moves, k - 1);
      StepKeepsInv(ws[k - 1], moves[k - 1].process, moves[k - 1].event);
    }
  }

  /** In every interleaving at most one call per environment and Instance is admitted, so at most one task runs. */
  lemma OneAdmittedPerInstance(ws: seq<World>, moves: seq<Move>, k: nat, i: nat, j: nat)
    requires IsRun(ws, moves) && k < |ws| && i < |ws[k].processes| && j < |ws[k].processes|
    requires Holding(ws[k].processes[i].phase) && Holding(ws[k].processes[j].phase)
    requires ResourceOf(ws[k].processes[i].start) == ResourceOf(ws[k].processes[j].start)
    ensures i == j
  {
    RunKeepsInv(ws, moves, k);
  }

  /** A running task has its start evidence committed; one that ever ran has its own evidence there for good. */
  lemma EvidencePrecedesTask(ws: seq<World>, moves: seq<Move>, k: nat, i: nat)
    requires IsRun(ws, moves) && k < |ws| && i in ws[k].ran
    ensures i < |ws[k].processes|
    ensures var p := ws[k].processes[i];
            && RefOf(ws[k], IdOf(p.start)).Some? && OwnRecord(RefOf(ws[k], IdOf(p.start)).value, p.start)
            && (p.phase.Running? ==> RefOf(ws[k], IdOf(p.start)) == Some(StartedAttempt(p.start)))
  {
    RunKeepsInv(ws, moves, k);
  }

  /** Each (repository, environment, Instance, execution ID) enters a task at most once, ever. */
  lemma AtMostOneTaskPerIdentity(ws: seq<World>, moves: seq<Move>, k: nat, a: nat, b: nat)
    requires IsRun(ws, moves) && k < |ws| && a < b < |ws[k].ran|
    ensures ws[k].ran[a] < |ws[k].processes| && ws[k].ran[b] < |ws[k].processes|
    ensures IdOf(ws[k].processes[ws[k].ran[a]].start) != IdOf(ws[k].processes[ws[k].ran[b]].start)
  {
    RunKeepsInv(ws, moves, k);
    assert ws[k].ran[a] in ws[k].ran && ws[k].ran[b] in ws[k].ran;
  }

  /** The terminal record replaces exactly the own start record, in a step of the process that still holds admission. */
  lemma TerminalWhileAdmitted(ws: seq<World>, moves: seq<Move>, k: nat, id: Identity)
    requires IsRun(ws, moves) && k < |moves|
    requires RefOf(ws[k], id).Some? && RefOf(ws[k + 1], id) != RefOf(ws[k], id)
    ensures var i := moves[k].process;
            && i < |ws[k].processes| && id == IdOf(ws[k].processes[i].start)
            && RefOf(ws[k], id) == Some(StartedAttempt(ws[k].processes[i].start))
            && RefOf(ws[k + 1], id).value.TerminalRecord? && RefOf(ws[k + 1], id).value.record.start == ws[k].processes[i].start
            && Holding(ws[k].processes[i].phase) && Holding(ws[k + 1].processes[i].phase)
  {
    RunKeepsInv(ws, moves, k);
    StepShape(ws[k], moves[k].process, moves[k].event);
  }

  /** Evidence is never lost: a ref once filled keeps its record, or turns its start into the terminal record. */
  lemma {:induction false} EvidenceOnlyAdvances(ws: seq<World>, moves: seq<Move>, j: nat, k: nat, id: Identity)
    requires IsRun(ws, moves) && j <= k < |ws| && RefOf(ws[j], id).Some?
    ensures RefOf(ws[k], id).Some?
    ensures Advances(RefOf(ws[j], id).value, RefOf(ws[k], id).value)
    decreases k
  {
    if j < k {
      EvidenceOnlyAdvances(ws, moves, j, k - 1, id);
      EvidenceStep(ws, moves, k - 1, id);
    }
  }

  predicate Advances(e: Evidence, f: Evidence) {
    f == e || (e.StartedAttempt? && f.TerminalRecord? && f.record.start == e.start)
  }

  lemma EvidenceStep(ws: seq<World>, moves: seq<Move>, k: nat, id: Identity)
    requires IsRun(ws, moves) && k < |moves| && RefOf(ws[k], id).Some?
    ensures RefOf(ws[k + 1], id).Some? && Advances(RefOf(ws[k], id).value, RefOf(ws[k + 1], id).value)
  {
    RunKeepsInv(ws, moves, k);
    if moves[k].process < |ws[k].processes| {
      StepShape(ws[k], moves[k].process, moves[k].event);
    }
  }

  /** The identity has a record, and no call is between writing it and entering its task. */
  ghost predicate Spent(w: World, id: Identity) {
    id in w.refs
    && forall i | 0 <= i < |w.processes| && IdOf(w.processes[i].start) == id :: !w.processes[i].phase.Started?
  }

  predicate RanFor(w: World, id: Identity, n: nat)
    requires n < |w.ran|
  {
    w.ran[n] < |w.processes| && IdOf(w.processes[w.ran[n]].start) == id
  }

  lemma SpentStep(w: World, i: nat, event: Event, id: Identity)
    requires Inv(w) && Spent(w, id)
    ensures var after := Step(w, i, event);
            && Spent(after, id)
            && (after.ran == w.ran || (after.ran == w.ran + [i] && i < |after.processes| && IdOf(after.processes[i].start) != id))
  {
    if i < |w.processes| {
      StepShape(w, i, event);
    }
  }

  /**
   A rejected attempt, a start record whose write was reported failed, or a process that died before its
   task use up the execution ID: no task of that identity is entered any more.
   */
  lemma {:induction false} SpentIdentityNeverRuns(
    ws: seq<World>, moves: seq<Move>, j: nat, k: nat, id: Identity, n: nat)
    requires IsRun(ws, moves) && j <= k < |ws| && Spent(ws[j], id)
    ensures Spent(ws[k], id) && ws[j].ran <= ws[k].ran
    ensures |ws[j].ran| <= n < |ws[k].ran| ==> !RanFor(ws[k], id, n)
    decreases k
  {
    if j < k {
      SpentIdentityNeverRuns(ws, moves, j, k - 1, id, n);
      RunKeepsInv(ws, moves, k - 1);
      var i := moves[k - 1].process;
      SpentStep(ws[k - 1], i, moves[k - 1].event, id);
      StartsStay(ws[k - 1], i, moves[k - 1].event);
    }
  }

  /** One process on its own: lock, start record, task. */
  function Launch(w: World, i: nat, resolves: bool): World {
    Step(Step(Step(w, i, TryLock(false)), i, WriteStart(resolves, Fault.Healthy)), i, EnterTask)
  }

  /**
   The exact condition: with the Instance free, and locks and Git working, a new call enters its task if and
   only if its identities have at most 256 characters, no record at all exists for its identity, and its
   starting State belongs to the evidence store and resolves there. A rejected attempt leaves a record.
   */
  lemma LaunchedExactly(w: World, i: nat, resolves: bool)
    requires Inv(w) && i < |w.processes| && w.processes[i].phase.Begin? && ResourceOf(w.processes[i].start) !in w.locks
    ensures var p := w.processes[i];
            i in Launch(w, i, resolves).ran
            <==> Lockable(p.start) && RefOf(w, IdOf(p.start)).None? && p.store == p.start.repository && resolves
  {
    var locked := Step(w, i, TryLock(false));
    LockedFree(w, i);
    var written := Step(locked, i, WriteStart(resolves, Fault.Healthy));
    if Lockable(w.processes[i].start) {
      WrittenExactly(locked, i, resolves);
    } else {
      assert written == locked;
    }
    hide Step;
    EntersIfStarted(written, i);
  }

  /**
   A call whose starting State is in another repository than its evidence store never enters its task and
   never writes a start record, whatever it meets and whoever moves in between.
   */
  lemma {:induction false} MismatchNeverRuns(ws: seq<World>, moves: seq<Move>, k: nat, i: nat)
    requires IsRun(ws, moves) && k < |ws| && i < |ws[k].processes|
    requires ws[k].processes[i].store != ws[k].processes[i].start.repository
    ensures i !in ws[k].ran && !ws[k].processes[i].evidence
    ensures !Working(ws[k].processes[i].phase) && !ws[k].processes[i].phase.Unresolved?
  {
    if k > 0 {
      var w, m := ws[k - 1], moves[k - 1];
      StartsStay(w, m.process, m.event);
      MismatchNeverRuns(ws, moves, k - 1, i);
      RunKeepsInv(ws, moves, k - 1);
      assert ws[k] == Step(w, m.process, m.event);
      MismatchStep(w, m.process, m.event, i);
    }
  }

  lemma MismatchStep(w: World, j: nat, event: Event, i: nat)
    requires i < |w.processes| && w.processes[i].store != w.processes[i].start.repository
    requires i !in w.ran && !w.processes[i].evidence
    requires !Working(w.processes[i].phase) && !w.processes[i].phase.Unresolved?
    ensures var after := Step(w, j, event);
            && i < |after.processes| && i !in after.ran && !after.processes[i].evidence
            && !Working(after.processes[i].phase) && !after.processes[i].phase.Unresolved?
  {
    if i != j {
      OthersStay(w, j, event, i);
      if j < |w.processes| {
        StepShape(w, j, event);
      }
    }
  }

  lemma LockedFree(w: World, i: nat)
    requires Inv(w) && i < |w.processes| && w.processes[i].phase.Begin? && ResourceOf(w.processes[i].start) !in w.locks
    ensures var after := Step(w, i, TryLock(false));
            && i < |after.processes| && after.refs == w.refs && i !in after.ran
            && after.processes[i] == w.processes[i].(phase := if Lockable(w.processes[i].start) then Admitted else Over)
  {
    assert !w.processes[i].evidence;
  }

  lemma WrittenExactly(w: World, i: nat, resolves: bool)
    requires i < |w.processes| && w.processes[i].phase.Admitted? && i !in w.ran
    ensures var after := Step(w, i, WriteStart(resolves, Fault.Healthy));
            && i < |after.processes| && i !in after.ran
            && after.processes[i].phase
               == if RefOf(w, IdOf(w.processes[i].start)).None? && Admissible(w.processes[i], resolves) then Started else Leaving
  {
  }

  lemma EntersIfStarted(w: World, i: nat)
    requires i < |w.processes| && i !in w.ran && !w.processes[i].phase.Begin?
    ensures i in Step(w, i, EnterTask).ran <==> w.processes[i].phase.Started?
  {
  }

  /** Starts never change. */
  lemma StartsStay(w: World, i: nat, event: Event)
    ensures |Step(w, i, event).processes| == |w.processes|
    ensures forall j | 0 <= j < |w.processes| ::
              Step(w, i, event).processes[j].start == w.processes[j].start
              && Step(w, i, event).processes[j].store == w.processes[j].store
  {
    if i < |w.processes| {
      StepShape(w, i, event);
    }
  }

  /** Kept ownership keeps others out until it is given back explicitly or its process ends. */
  lemma RetainedKeepsOut(ws: seq<World>, moves: seq<Move>, k: nat, i: nat, j: nat)
    requires IsRun(ws, moves) && k < |ws| && i < |ws[k].processes| && j < |ws[k].processes| && i != j
    requires ws[k].processes[i].phase.Unresolved? || ws[k].processes[i].phase.Unreleased?
    requires ResourceOf(ws[k].processes[i].start) == ResourceOf(ws[k].processes[j].start)
    ensures ws[k].processes[j].phase.Begin? ==>
              Step(ws[k], j, TryLock(false)).processes[j].phase == if Lockable(ws[k].processes[j].start) then Rejected else Over
    ensures k < |moves| && !(moves[k].process == i && (moves[k].event.ReleaseRetained? || moves[k].event.Die?)) ==>
              i < |ws[k + 1].processes| && ws[k + 1].processes[i] == ws[k].processes[i]
  {
    RunKeepsInv(ws, moves, k);
    if k < |moves| && moves[k].process != i {
      OthersStay(ws[k], moves[k].process, moves[k].event, i);
    }
  }

  /** Kept ownership ends when its release works or its process dies, and leaves the lock free and the evidence as it was. */
  lemma RetainedEnds(w: World, i: nat, event: Event)
    requires Inv(w) && i < |w.processes| && (w.processes[i].phase.Unresolved? || w.processes[i].phase.Unreleased?)
    requires event.ReleaseRetained? || event.Die?
    ensures var after, free := Step(w, i, event), event.Die? || event.works;
            && i < |after.processes| && after.refs == w.refs && after.ran == w.ran
            && (ResourceOf(w.processes[i].start) !in after.locks <==> free)
            && after.processes[i].phase
               == (if event.Die? then Dead else if event.works then Over else w.processes[i].phase)
  {
  }

  lemma OthersStay(w: World, j: nat, event: Event, i: nat)
    requires i < |w.processes| && i != j
    ensures i < |Step(w, j, event).processes| && Step(w, j, event).processes[i] == w.processes[i]
  {
    if j < |w.processes| {
      StepShape(w, j, event);
    }
  }
}
