/**
 One message-driven work cycle: a tick claims at most one addressed message, hands it to a local
 handler, checkpoints memory, publishes one reply and records the final disposition; an operator may
 later reconcile one unresolved task.

 The world is what survives a crash (the reader progress ref) together with the log of handler calls.
 A tick is described by the sequence of worlds it passes through, one element per durable write or
 handler call, so a crash at any point leaves exactly one element of that sequence behind.
 */
module WorkCycle {
  import opened Common
  import opened Refs
  import opened Inbox

  const MAX_RECORDS := 256
  const MAX_SOURCES := 8

  datatype Disposition = Claimed | Completed | Failed | Unresolved | Stopped

  datatype Cursor = Cursor(repository: string, refName: string, commit: string)

  datatype TaskProgress = TaskProgress(
    messageState: MessageState, messageId: string, taskId: string, disposition: Disposition,
    replyState: Option<string>, memoryState: Option<string>)

  datatype Reconciliation = Reconciliation(
    id: string, priorRepository: string, priorState: Saved, priorTask: TaskProgress, terminalCode: string,
    evidence: seq<string>, reconciledAt: int)

  datatype Progress = Progress(
    environment: string, instance: string, cursors: seq<Cursor>, tasks: seq<TaskProgress>,
    reconciliations: seq<Reconciliation>)

  /** A progress commit; its identity is its whole content, including the commit before it. */
  datatype Saved = Saved(progress: Progress, parent: Option<Saved>, savedAt: int)

  predicate IsBarrier(t: TaskProgress) {
    t.disposition.Claimed? || t.disposition.Unresolved? || t.disposition.Stopped?
  }

  function Ids(tasks: seq<TaskProgress>): seq<string> {
    seq(|tasks|, k requires 0 <= k < |tasks| => tasks[k].messageId)
  }

  function IdSet(tasks: seq<TaskProgress>): set<string> {
    set t | t in tasks :: t.messageId
  }

  function ReconciliationIds(rs: seq<Reconciliation>): seq<string> {
    seq(|rs|, k requires 0 <= k < |rs| => rs[k].id)
  }

  function CursorKeys(cursors: seq<Cursor>): seq<(string, string)> {
    seq(|cursors|, k requires 0 <= k < |cursors| => (cursors[k].repository, cursors[k].refName))
  }

  function Barriers(tasks: seq<TaskProgress>): seq<TaskProgress> {
    if tasks == [] then []
    else (if IsBarrier(tasks[0]) then [tasks[0]] else []) + Barriers(tasks[1..])
  }

  function Done(tasks: seq<TaskProgress>): nat {
    if tasks == [] then 0
    else Done(tasks[..|tasks| - 1])
         + if Last(tasks).disposition.Completed? || Last(tasks).disposition.Failed? then 1 else 0
  }

  /** The checks of the progress record's constructor. */
  predicate RecordChecks(p: Progress) {
    && |p.cursors| <= MAX_SOURCES
    && |p.tasks| <= MAX_RECORDS
    && NoDup(CursorKeys(p.cursors))
    && NoDup(Ids(p.tasks))
    && |p.reconciliations| <= MAX_RECORDS
    && NoDup(ReconciliationIds(p.reconciliations))
  }

  function Without(tasks: seq<TaskProgress>, id: string): seq<TaskProgress> {
    if tasks == [] then []
    else (if tasks[0].messageId == id then [] else [tasks[0]]) + Without(tasks[1..], id)
  }

  /** `_replace_progress`; None stands for the ValueError of a refused record. */
  function ReplaceProgress(
    p: Progress, cursors: Option<seq<Cursor>>, task: Option<TaskProgress>, reconciliation: Option<Reconciliation>)
    : Option<Progress>
  {
    var next := Progress(
                  p.environment, p.instance,
                  if cursors.Some? then cursors.value else p.cursors,
                  if task.Some? then Without(p.tasks, task.value.messageId) + [task.value] else p.tasks,
                  p.reconciliations + if reconciliation.Some? then [reconciliation.value] else []);
    if RecordChecks(next) then Some(next) else None
  }

  // ---------------------------------------------------------------- one tick

  datatype Route = Route(purpose: string, handler: string)
  datatype Policy = Policy(routes: seq<Route>, maximumCompleted: nat, allowStop: bool)

  /** The bounds a task policy is constructed with. */
  predicate ValidPolicy(p: Policy) {
    && 1 <= |p.routes| <= 16 && 1 <= p.maximumCompleted <= MAX_RECORDS
    && forall j, k | 0 <= j < k < |p.routes| :: p.routes[j].purpose != p.routes[k].purpose
  }

  function HandlerFor(routes: seq<Route>, purpose: string): Option<string> {
    if routes == [] then None
    else if routes[0].purpose == purpose then Some(routes[0].handler)
    else HandlerFor(routes[1..], purpose)
  }

  datatype HandlerResult = HandlerResult(disposition: Disposition, hasMemoryItems: bool, providerInvoked: bool)

  datatype SourceRead =
    | Read(repository: string, refName: string, tip: Option<string>, messages: seq<Published>)
    | Unreadable(code: string)

  datatype HandlerOutcome = Returns(result: HandlerResult) | RaisesException
  datatype MemoryOutcome = NoCheckpoint | Checkpointed(state: Option<string>) | CheckpointRaises
  datatype ReplyOutcome =
    | Verified(state: string)       // published and observed at the remote
    | NotVerified(state: string)    // committed locally, remote uncertain or failed
    | PublicationRaises
    | ReplyUnbuildable              // the reply record itself is refused

  /** Progress is kept in the local repository; the sources may be anywhere. */
  datatype Bindings = Bindings(environment: string, instance: string, localRepository: string)

  /** Everything one tick meets: local policy, peer histories, and the outcome of every effect. */
  datatype TickInput = TickInput(
    stopFile: bool, instanceBusy: bool, loadFails: bool,
    policy: Policy, registered: set<string>, sources: seq<SourceRead>,
    idleWrite: Fault, claimWrite: Fault, handler: HandlerOutcome, memory: MemoryOutcome,
    reply: ReplyOutcome, finalWrite: Fault, startedAt: int, finishedAt: int)

  /** Messages are read as States of their source's repository. */
  predicate OfItsSource(s: SourceRead) {
    s.Read? ==> forall p | p in s.messages :: p.state.repository == s.repository
  }

  predicate ValidInput(i: TickInput) {
    && ValidPolicy(i.policy)
    && (forall k | 0 <= k < |i.sources| :: OfItsSource(i.sources[k]))
    && 1 <= |i.sources| <= MAX_SOURCES
    && (i.handler.Returns? ==> !i.handler.result.disposition.Claimed?)
  }

  datatype World = World(progress: Option<Saved>, calls: seq<string>)

  datatype Code =
    | StopFile | Busy | StoppedHalt | UnresolvedHalt | ClaimedUnresolved | Exhausted | Idle
    | Refused(reason: string) | Final(disposition: Disposition) | FinalNotPersisted(disposition: Disposition)

  datatype Status =
    | Status(code: Code, workInvoked: bool, providerInvoked: bool, messageState: Option<MessageState>,
             replyState: Option<string>, memoryState: Option<string>, progressState: Option<Saved>)
    | Raised   // an exception left the tick; the caller gets no status

  datatype Ticked = Ticked(trace: seq<World>, status: Status)

  function Quiet(code: Code, progressState: Option<Saved>): Status {
    Status(code, false, false, None, None, None, progressState)
  }

  function FirstUnreadable(sources: seq<SourceRead>): Option<string> {
    if sources == [] then None
    else if sources[0].Unreadable? then Some(sources[0].code)
    else FirstUnreadable(sources[1..])
  }

  function Tips(sources: seq<SourceRead>): seq<Cursor> {
    if sources == [] then []
    else Tips(sources[..|sources| - 1])
         + match Last(sources)
           case Read(repository, refName, Some(tip), _) => [Cursor(repository, refName, tip)]
           case _ => []
  }

  /** Everything the readable sources hold for this environment, source by source. */
  function Received(environment: string, sources: seq<SourceRead>): seq<Published> {
    if sources == [] then []
    else Received(environment, sources[..|sources| - 1])
         + if Last(sources).Read? then Addressed(environment, Last(sources).messages) else []
  }

  function BarrierStatus(barrier: TaskProgress, current: Option<Saved>): Status {
    var code := match barrier.disposition
      case Stopped => StoppedHalt
      case Unresolved => UnresolvedHalt
      case _ => ClaimedUnresolved;
    Status(code, false, false, Some(barrier.messageState), barrier.replyState, barrier.memoryState, current)
  }

  /** The local decision for one message: the route it matches and, unless a handler runs, its outcome. */
  function Decide(policy: Policy, registered: set<string>, m: Message): (d: (Option<string>, Option<HandlerResult>)) {
    if m.kind.Stop? then
      (None, Some(HandlerResult(if policy.allowStop then Stopped else Failed, false, false)))
    else
      var name := HandlerFor(policy.routes, m.purpose);
      (name, if name.Some? && name.value in registered then None else Some(HandlerResult(Failed, false, false)))
  }

  function AfterHandler(outcome: HandlerOutcome): HandlerResult {
    match outcome
    case Returns(result) => result
    case RaisesException => HandlerResult(Unresolved, false, false)
  }

  function AfterMemory(result: HandlerResult, memory: MemoryOutcome): (r: (HandlerResult, Option<string>)) {
    if memory.NoCheckpoint? || !result.hasMemoryItems then (result, None)
    else if memory.CheckpointRaises? then (HandlerResult(Unresolved, false, result.providerInvoked), None)
    else (result, memory.state)
  }

  /** Publication of the reply and the final record, after the message was claimed in `claimed`. */
  function Finish(
    w: World, claimed: Saved, selected: Published, handlerName: Option<string>, handled: HandlerResult, i: TickInput)
    : Ticked
  {
    var (result, memoryState) := AfterMemory(handled, i.memory);
    if i.reply.ReplyUnbuildable? then Ticked([w], Raised)
    else
      var replyState := if i.reply.PublicationRaises? then None else Some(i.reply.state);
      var disposition := if i.reply.Verified? then result.disposition else Unresolved;
      var record := TaskProgress(
                      selected.state, selected.message.id, selected.message.taskId, disposition, replyState, memoryState);
      var next := ReplaceProgress(claimed.progress, None, Some(record), None);
      if next.None? then
        Ticked([w], Status(FinalNotPersisted(disposition), handlerName.Some?, result.providerInvoked,
                           Some(selected.state), replyState, memoryState, Some(claimed)))
      else
        var saved := Saved(next.value, Some(claimed), i.finishedAt);
        var (ok, after) := Cas(w.progress, Some(claimed), saved, i.finalWrite);
        Ticked([w, w.(progress := after)],
               Status(if ok then Final(disposition) else FinalNotPersisted(disposition),
                      handlerName.Some?, result.providerInvoked, Some(selected.state), replyState, memoryState,
                      Some(if ok then saved else claimed)))
  }

  lemma FinishStarts(
    w: World, claimed: Saved, selected: Published, handlerName: Option<string>, handled: HandlerResult, i: TickInput)
    ensures var t := Finish(w, claimed, selected, handlerName, handled, i);
            t.trace != [] && t.trace[0] == w && t.trace == [w] + t.trace[1..]
  {
  }

  /** What follows a durable claim: the handler call, unless local policy decides, and the finish. */
  function Dispatch(w: World, claimed: Saved, selected: Published, i: TickInput): Ticked {
    var (handlerName, decided) := Decide(i.policy, i.registered, selected.message);
    if decided.Some? then Finish(w, claimed, selected, handlerName, decided.value, i)
    else
      var called := w.(calls := w.calls + [selected.message.id]);
      var rest := Finish(called, claimed, selected, handlerName, AfterHandler(i.handler), i);
      Ticked([w] + rest.trace, rest.status)
  }

  lemma DispatchStarts(w: World, claimed: Saved, selected: Published, i: TickInput)
    ensures var t := Dispatch(w, claimed, selected, i);
            t.trace != [] && t.trace[0] == w && t.trace == [w] + t.trace[1..]
  {
  }

  function Claim(p: Published): TaskProgress {
    TaskProgress(p.state, p.message.id, p.message.taskId, Claimed, None, None)
  }

  /** Claim one message; go on only if the claim was reported durable. */
  function ClaimAndRun(w: World, progress: Progress, selected: Published, i: TickInput): Ticked {
    var next := ReplaceProgress(progress, None, Some(Claim(selected)), None);
    if next.None? then Ticked([w], Raised)
    else
      var saved := Saved(next.value, w.progress, i.startedAt);
      var (ok, after) := Cas(w.progress, w.progress, saved, i.claimWrite);
      var claimed := w.(progress := after);
      if !ok then Ticked([w, claimed], Quiet(Refused("cycle.progress_persistence_failed"), None))
      else
        var rest := Dispatch(claimed, saved, selected, i);
        Ticked([w] + rest.trace, rest.status)
  }

  /** One tick that owns the cycle, from the stop file to the final progress record. */
  function Tick(w: World, b: Bindings, i: TickInput): Ticked {
    if i.finishedAt < i.startedAt then Ticked([w], Raised)
    else if i.stopFile then Ticked([w], Quiet(StopFile, None))
    else if i.instanceBusy then Ticked([w], Quiet(Busy, None))
    else if i.loadFails then Ticked([w], Quiet(Refused("cycle.progress_invalid"), None))
    else
      var progress := if w.progress.Some? then w.progress.value.progress
                      else Progress(b.environment, b.instance, [], [], []);
      if progress.environment != b.environment || progress.instance != b.instance then
        Ticked([w], Quiet(Refused("cycle.progress_binding_mismatch"), None))
      else if Barriers(progress.tasks) != [] then
        Ticked([w], BarrierStatus(Barriers(progress.tasks)[0], w.progress))
      else if Done(progress.tasks) >= i.policy.maximumCompleted then
        Ticked([w], Quiet(Exhausted, w.progress))
      else if FirstUnreadable(i.sources).Some? then
        Ticked([w], Quiet(Refused(FirstUnreadable(i.sources).value), None))
      else
        var candidates := Unhandled(IdSet(progress.tasks), Received(b.environment, i.sources));
        var refreshed := ReplaceProgress(progress, Some(Tips(i.sources)), None, None);
        if refreshed.None? then Ticked([w], Raised)
        else if candidates != [] then ClaimAndRun(w, refreshed.value, StableSort(candidates)[0], i)
        else if w.progress.Some? && refreshed.value == progress then Ticked([w], Quiet(Idle, w.progress))
        else
          var saved := Saved(refreshed.value, w.progress, i.startedAt);
          var (ok, after) := Cas(w.progress, w.progress, saved, i.idleWrite);
          Ticked([w, w.(progress := after)],
                 if ok then Quiet(Idle, Some(saved)) else Quiet(Refused("cycle.progress_persistence_failed"), None))
  }

  // ---------------------------------------------------------------- reconciliation

  /** The constructor checks of a reconciliation. */
  predicate ValidReconciliation(r: Reconciliation) {
    r.priorTask.disposition.Unresolved? && 1 <= |r.evidence| <= 8 && NoDup(r.evidence)
  }

  datatype ReconcileInput = ReconcileInput(
    ownerBusy: bool, instanceBusy: bool, stopFile: bool, loadFails: bool, evidenceFails: bool, write: Fault)

  datatype ReconcileResult =
    | RepositoryRefused | ReconciliationBusy | ReconciliationStopped | LoadError | AlreadyApplied | IdentityConflict
    | ProgressChanged | TaskChanged | EvidenceRejected | RecordRefused | NotPersisted | Reconciled(state: Saved)

  datatype Attempted = Attempted(trace: seq<World>, result: ReconcileResult)

  function FindTask(tasks: seq<TaskProgress>, id: string): Option<TaskProgress> {
    if tasks == [] then None
    else if tasks[0].messageId == id then Some(tasks[0])
    else FindTask(tasks[1..], id)
  }

  function SameId(rs: seq<Reconciliation>, id: string): seq<Reconciliation> {
    if rs == [] then []
    else (if rs[0].id == id then [rs[0]] else []) + SameId(rs[1..], id)
  }

  function ClosedAs(r: Reconciliation): TaskProgress {
    r.priorTask.(disposition := Failed)
  }

  /** Both States that a reconciliation names must be in the local repository, also that of the message. */
  predicate IsLocal(b: Bindings, r: Reconciliation) {
    r.priorRepository == b.localRepository && r.priorTask.messageState.repository == b.localRepository
  }

  /** Close one exact unresolved task as failed, keeping its history. */
  function Reconcile(w: World, b: Bindings, r: Reconciliation, i: ReconcileInput): Attempted {
    if !IsLocal(b, r) then Attempted([w], RepositoryRefused)
    else if i.ownerBusy || i.instanceBusy then Attempted([w], ReconciliationBusy)
    else if i.stopFile then Attempted([w], ReconciliationStopped)
    else if i.loadFails then Attempted([w], LoadError)
    else
      var existing := if w.progress.Some? then SameId(w.progress.value.progress.reconciliations, r.id) else [];
      if existing != [] then
        if existing == [r] && FindTask(w.progress.value.progress.tasks, r.priorTask.messageId) == Some(ClosedAs(r)) then
          Attempted([w], AlreadyApplied)
        else
          Attempted([w], IdentityConflict)
      else if w.progress != Some(r.priorState) then Attempted([w], ProgressChanged)
      else if Barriers(r.priorState.progress.tasks) != [r.priorTask] then Attempted([w], TaskChanged)
      else if i.evidenceFails then Attempted([w], EvidenceRejected)
      else
        var next := ReplaceProgress(r.priorState.progress, None, Some(ClosedAs(r)), Some(r));
        if next.None? then Attempted([w], RecordRefused)
        else
          var saved := Saved(next.value, w.progress, r.reconciledAt);
          var (ok, after) := Cas(w.progress, w.progress, saved, i.write);
          Attempted([w, w.(progress := after)], if ok then Reconciled(saved) else NotPersisted)
  }

  // ---------------------------------------------------------------- the running cycle

  lemma {:induction false} TipsStep(sources: seq<SourceRead>, n: nat)
    requires n < |sources|
    ensures Tips(sources[..n + 1]) == Tips(sources[..n]) + Tips([sources[n]])
  {
    assert sources[..n + 1][..n] == sources[..n];
    assert [sources[n]][..0] == [];
    assert Last(sources[..n + 1]) == sources[n];
  }

  lemma {:induction false} FirstUnreadableStep(sources: seq<SourceRead>, n: nat)
    requires n <= |sources| && forall k | 0 <= k < n :: sources[k].Read?
    ensures FirstUnreadable(sources) == FirstUnreadable(sources[n..])
    decreases n
  {
    if n > 0 {
      FirstUnreadableStep(sources, n - 1);
      assert sources[n - 1..][1..] == sources[n..];
    } else {
      assert sources[0..] == sources;
    }
  }

  lemma {:induction false} BarriersStep(tasks: seq<TaskProgress>, n: nat)
    requires n < |tasks|
    ensures Barriers(tasks[..n + 1]) == Barriers(tasks[..n]) + if IsBarrier(tasks[n]) then [tasks[n]] else []
    decreases n
  {
    var longer, shorter := tasks[..n + 1], tasks[..n];
    if n > 0 {
      BarriersStep(tasks[1..], n - 1);
      assert longer[1..] == tasks[1..][..n] && shorter[1..] == tasks[1..][..n - 1];
    } else {
      assert longer[1..] == [];
    }
  }

  /** The cycle of one Instance: its durable progress, and the handler calls it made. */
  class Cycle {
    const bindings: Bindings
    var progress: Option<Saved>
    var calls: seq<string>
    ghost var history: seq<World>   // every world passed through so far

    ghost predicate Recorded()
      reads this
    {
      history != [] && Last(history) == World(progress, calls)
    }

    constructor (bindings: Bindings)
      ensures this.bindings == bindings && progress == None && calls == [] && Recorded()
      ensures history == [World(None, [])]
    {
      this.bindings := bindings;
      progress, calls := None, [];
      history := [World(None, [])];
    }

    /** One guarded write of the progress ref. */
    method Save(next: Progress, expected: Option<Saved>, at: int, fault: Fault) returns (ok: bool, saved: Saved)
      requires Recorded()
      modifies this
      ensures saved == Saved(next, expected, at) && calls == old(calls) && Recorded()
      ensures (ok, progress) == Cas(old(progress), expected, saved, fault)
      ensures history == old(history) + [World(progress, calls)]
    {
      saved := Saved(next, expected, at);
      var result := Cas(progress, expected, saved, fault);
      ok, progress := result.0, result.1;
      history := history + [World(progress, calls)];
    }

    /** The messages of one source that are addressed to this environment and not handled yet. */
    method Collect(messages: seq<Published>, handled: set<string>) returns (found: seq<Published>)
      ensures found == Unhandled(handled, Addressed(bindings.environment, messages))
    {
      found := [];
      for k := 0 to |messages|
        invariant found == Unhandled(handled, Addressed(bindings.environment, messages[..k]))
      {
        assert messages[..k + 1] == messages[..k] + [messages[k]];
        AddressedAppend(bindings.environment, messages[..k], [messages[k]]);
        UnhandledAppend(
          handled, Addressed(bindings.environment, messages[..k]), Addressed(bindings.environment, [messages[k]]));
        if ToReader(bindings.environment, messages[k]) && messages[k].message.id !in handled {
          found := found + [messages[k]];
        }
      }
      assert messages[..|messages|] == messages;
    }

    /** Read every source in turn, collecting its tip and the messages still to be handled. */
    method ReadSources(sources: seq<SourceRead>, handled: set<string>)
      returns (failure: Option<string>, cursors: seq<Cursor>, candidates: seq<Published>)
      ensures failure == FirstUnreadable(sources)
      ensures failure.None? ==>
                cursors == Tips(sources) && candidates == Unhandled(handled, Received(bindings.environment, sources))
    {
      cursors, candidates := [], [];
      for n := 0 to |sources|
        invariant forall k | 0 <= k < n :: sources[k].Read?
        invariant cursors == Tips(sources[..n])
        invariant candidates == Unhandled(handled, Received(bindings.environment, sources[..n]))
      {
        FirstUnreadableStep(sources, n);
        assert sources[n..][0] == sources[n];
        if sources[n].Unreadable? {
          return Some(sources[n].code), cursors, candidates;
        }
        TipsStep(sources, n);
        if sources[n].tip.Some? {
          cursors := cursors + [Cursor(sources[n].repository, sources[n].refName, sources[n].tip.value)];
        }
        var messages := sources[n].messages;
        var found := Collect(messages, handled);
        candidates := candidates + found;
        assert sources[..n + 1][..n] == sources[..n] && Last(sources[..n + 1]) == sources[n];
        UnhandledAppend(
          handled, Received(bindings.environment, sources[..n]), Addressed(bindings.environment, messages));
      }
      FirstUnreadableStep(sources, |sources|);
      assert sources[..|sources|] == sources;
      failure := None;
    }

    /** The barrier records and the number of completed or failed ones. */
    method Survey(tasks: seq<TaskProgress>) returns (barriers: seq<TaskProgress>, completed: nat)
      ensures barriers == Barriers(tasks) && completed == Done(tasks)
    {
      barriers, completed := [], 0;
      for k := 0 to |tasks|
        invariant barriers == Barriers(tasks[..k]) && completed == Done(tasks[..k])
      {
        BarriersStep(tasks, k);
        assert tasks[..k + 1][..k] == tasks[..k];
        if IsBarrier(tasks[k]) {
          barriers := barriers + [tasks[k]];
        } else {
          completed := completed + 1;
        }
      }
      assert tasks[..|tasks|] == tasks;
    }

    /** `_run_owned_work_cycle_tick`: the world afterwards and the status are exactly those of `Tick`. */
    method RunTick(i: TickInput) returns (status: Status)
      requires Recorded()
      modifies this
      ensures Recorded()
      ensures var t := Tick(World(old(progress), old(calls)), bindings, i);
              status == t.status && history == old(history) + t.trace[1..]
    {
      ghost var w := World(progress, calls);
      if i.finishedAt < i.startedAt {
        return Raised;
      }
      if i.stopFile {
        return Quiet(StopFile, None);
      }
      if i.instanceBusy {
        return Quiet(Busy, None);
      }
      if i.loadFails {
        return Quiet(Refused("cycle.progress_invalid"), None);
      }
      var current := progress;
      var known := if current.Some? then current.value.progress
                   else Progress(bindings.environment, bindings.instance, [], [], []);
      if known.environment != bindings.environment || known.instance != bindings.instance {
        return Quiet(Refused("cycle.progress_binding_mismatch"), None);
      }
      var barriers, completed := Survey(known.tasks);
      if barriers != [] {
        return BarrierStatus(barriers[0], current);
      }
      if completed >= i.policy.maximumCompleted {
        return Quiet(Exhausted, current);
      }
      var failure, cursors, candidates := ReadSources(i.sources, IdSet(known.tasks));
      if failure.Some? {
        return Quiet(Refused(failure.value), None);
      }
      var refreshed := ReplaceProgress(known, Some(cursors), None, None);
      if refreshed.None? {
        return Raised;
      }
      if candidates == [] {
        if current.Some? && refreshed.value == known {
          return Quiet(Idle, current);
        }
        var ok, saved := Save(refreshed.value, current, i.startedAt, i.idleWrite);
        return if ok then Quiet(Idle, Some(saved)) else Quiet(Refused("cycle.progress_persistence_failed"), None);
      }
      var sorted := StableSort(candidates);
      status := RunClaimed(refreshed.value, sorted[0], i);
    }

    /** Claim, dispatch, checkpoint, reply, record. */
    method RunClaimed(refreshed: Progress, selected: Published, i: TickInput) returns (status: Status)
      requires Recorded()
      modifies this
      ensures Recorded()
      ensures var t := ClaimAndRun(World(old(progress), old(calls)), refreshed, selected, i);
              status == t.status && history == old(history) + t.trace[1..]
    {
      hide ReplaceProgress, Dispatch;
      var next := ReplaceProgress(refreshed, None, Some(Claim(selected)), None);
      if next.None? {
        return Raised;
      }
      var ok, claimed := Save(next.value, progress, i.startedAt, i.claimWrite);
      if !ok {
        return Quiet(Refused("cycle.progress_persistence_failed"), None);
      }
      DispatchStarts(World(progress, calls), claimed, selected, i);
      status := RunDispatch(claimed, selected, i);
    }

    method RunDispatch(claimed: Saved, selected: Published, i: TickInput) returns (status: Status)
      requires Recorded()
      modifies this
      ensures Recorded()
      ensures var t := Dispatch(World(old(progress), old(calls)), claimed, selected, i);
              status == t.status && history == old(history) + t.trace[1..]
    {
      var (handlerName, handlerResult) := Decide(i.policy, i.registered, selected.message);
      if handlerResult.Some? {
        status := RunFinish(claimed, selected, handlerName, handlerResult.value, i);
      } else {
        calls := calls + [selected.message.id];
        history := history + [World(progress, calls)];
        FinishStarts(World(progress, calls), claimed, selected, handlerName, AfterHandler(i.handler), i);
        status := RunFinish(claimed, selected, handlerName, AfterHandler(i.handler), i);
      }
    }

    method RunFinish(
      claimed: Saved, selected: Published, handlerName: Option<string>, handled: HandlerResult, i: TickInput)
      returns (status: Status)
      requires Recorded()
      modifies this
      ensures Recorded()
      ensures var t := Finish(World(old(progress), old(calls)), claimed, selected, handlerName, handled, i);
              status == t.status && history == old(history) + t.trace[1..]
    {
      var (result, memoryState) := AfterMemory(handled, i.memory);
      if i.reply.ReplyUnbuildable? {
        return Raised;
      }
      var replyState: Option<string> := None;
      var disposition := result.disposition;
      match i.reply {
        case Verified(state) => replyState := Some(state);
        case NotVerified(state) => replyState, disposition := Some(state), Unresolved;
        case _ => disposition := Unresolved;
      }
      var record := TaskProgress(
        selected.state, selected.message.id, selected.message.taskId, disposition, replyState, memoryState);
      var next := ReplaceProgress(claimed.progress, None, Some(record), None);
      var code, reported := FinalNotPersisted(disposition), claimed;
      if next.Some? {
        var ok, saved := Save(next.value, Some(claimed), i.finishedAt, i.finalWrite);
        if ok {
          code, reported := Final(disposition), saved;
        }
      }
      status := Status(code, handlerName.Some?, result.providerInvoked, Some(selected.state), replyState,
                       memoryState, Some(reported));
    }

    /** `reconcile_reader_task`. */
    method RunReconciliation(r: Reconciliation, i: ReconcileInput) returns (result: ReconcileResult)
      requires Recorded()
      modifies this
      ensures Recorded()
      ensures var t := Reconcile(World(old(progress), old(calls)), bindings, r, i);
              result == t.result && history == old(history) + t.trace[1..]
    {
      if r.priorRepository != bindings.localRepository || r.priorTask.messageState.repository != bindings.localRepository {
        return RepositoryRefused;
      }
      if i.ownerBusy || i.instanceBusy {
        return ReconciliationBusy;
      }
      if i.stopFile {
        return ReconciliationStopped;
      }
      if i.loadFails {
        return LoadError;
      }
      var current := progress;
      if current.Some? {
        var existing := SameId(current.value.progress.reconciliations, r.id);
        if existing != [] {
          var terminal := FindTask(current.value.progress.tasks, r.priorTask.messageId);
          return if existing == [r] && terminal == Some(ClosedAs(r)) then AlreadyApplied else IdentityConflict;
        }
      }
      if current != Some(r.priorState) {
        return ProgressChanged;
      }
      if Barriers(current.value.progress.tasks) != [r.priorTask] {
        return TaskChanged;
      }
      if i.evidenceFails {
        return EvidenceRejected;
      }
      var updated := ReplaceProgress(current.value.progress, None, Some(ClosedAs(r)), Some(r));
      if updated.None? {
        return RecordRefused;
      }
      var ok, saved := Save(updated.value, current, r.reconciledAt, i.write);
      result := if ok then Reconciled(saved) else NotPersisted;
    }
  }
}
