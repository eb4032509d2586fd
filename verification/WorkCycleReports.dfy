/**
 What one tick decides about the message it claims and what it reports, told by local policy and by what the
 handler, the memory checkpoint and the publication of the reply did.
 */
module WorkCycleReports {
  import opened Common
  import opened Refs
  import opened Inbox
  import opened WorkCycle
  import opened WorkCycleRuns
  import opened WorkCycleOrder

  // ---------------------------------------------------------------- which message gets which result

  predicate Routed(i: TickInput, m: Message) {
    m.kind.Task? && exists r | r in i.policy.routes :: r.purpose == m.purpose
  }

  /** The purpose of the task is routed to a handler that exists here. */
  predicate Handles(i: TickInput, m: Message) {
    m.kind.Task? && exists r | r in i.policy.routes :: r.purpose == m.purpose && r.handler in i.registered
  }

  /** The handler was called and returned this disposition. */
  predicate Returned(i: TickInput, m: Message, d: Disposition) {
    Handles(i, m) && i.handler.Returns? && i.handler.result.disposition == d
  }

  predicate HasMemory(i: TickInput, m: Message) {
    Handles(i, m) && i.handler.Returns? && i.handler.result.hasMemoryItems
  }

  /** What comes of the message here: a stop is obeyed if policy allows it, and what nobody handles has failed. */
  predicate Yields(i: TickInput, m: Message, d: Disposition) {
    match d
    case Unresolved => (Handles(i, m) && i.handler.RaisesException?) || Returned(i, m, Unresolved)
    case Stopped => (m.kind.Stop? && i.policy.allowStop) || Returned(i, m, Stopped)
    case Completed => Returned(i, m, Completed)
    case Failed =>
      (m.kind.Stop? && !i.policy.allowStop) || (!m.kind.Stop? && !Handles(i, m)) || Returned(i, m, Failed)
    case Claimed => Returned(i, m, Claimed)
  }

  /** The memory of the result is lost, or its reply is not verified. */
  predicate Lost(i: TickInput, m: Message) {
    (HasMemory(i, m) && i.memory.CheckpointRaises?) || !i.reply.Verified?
  }

  /** The disposition that is recorded. */
  predicate Settles(i: TickInput, m: Message, d: Disposition) {
    if d.Unresolved? then Yields(i, m, Unresolved) || Lost(i, m) else Yields(i, m, d) && !Lost(i, m)
  }

  function ReplyOf(i: TickInput): Option<string> {
    if i.reply.Verified? || i.reply.NotVerified? then Some(i.reply.state) else None
  }

  function MemoryOf(i: TickInput, m: Message): Option<string> {
    if HasMemory(i, m) && i.memory.Checkpointed? then i.memory.state else None
  }

  // ---------------------------------------------------------------- the route

  lemma {:induction false} RouteFound(routes: seq<Route>, purpose: string)
    ensures HandlerFor(routes, purpose).None? <==> forall r | r in routes :: r.purpose != purpose
    ensures HandlerFor(routes, purpose).Some? ==> Route(purpose, HandlerFor(routes, purpose).value) in routes
  {
    if routes != [] {
      assert routes[0] in routes && forall r :: r in routes <==> r == routes[0] || r in routes[1..];
      if routes[0].purpose != purpose {
        RouteFound(routes[1..], purpose);
      } else {
        assert routes[0] == Route(purpose, routes[0].handler);
      }
    }
  }

  lemma HandlerIsTheRoute(i: TickInput, m: Message)
    requires ValidPolicy(i.policy) && m.kind.Task?
    ensures var name := HandlerFor(i.policy.routes, m.purpose);
            && (name.Some? <==> Routed(i, m))
            && (name.Some? && name.value in i.registered <==> Handles(i, m))
  {
    var routes := i.policy.routes;
    RouteFound(routes, m.purpose);
    var name := HandlerFor(routes, m.purpose);
    if name.Some? {
      forall r | r in routes && r.purpose == m.purpose ensures r.handler == name.value {
        var j :| 0 <= j < |routes| && routes[j] == r;
        var k :| 0 <= k < |routes| && routes[k] == Route(m.purpose, name.value);
        assert j == k;
      }
    }
  }

  // ---------------------------------------------------------------- from the claim to the final record

  /** How the final record and the status of a tick relate to what it met. */
  ghost predicate Outcome(w: World, i: TickInput, p: Published, t: Ticked) {
    && t.trace != [] && t.status.Status?
    && var after, s := Last(t.trace), t.status;
       && after.calls == w.calls + (if Handles(i, p.message) then [p.message.id] else [])
       && s.workInvoked == Routed(i, p.message)
       && s.providerInvoked == (Handles(i, p.message) && i.handler.Returns? && i.handler.result.providerInvoked)
       && s.messageState == Some(p.state) && s.replyState == ReplyOf(i) && s.memoryState == MemoryOf(i, p.message)
       && (s.code.Final? || s.code.FinalNotPersisted?) && Settles(i, p.message, s.code.disposition)
       && (s.code.Final? <==> i.finalWrite.Healthy?)
       && (s.code.Final? ==> after.progress == s.progressState && Recorded(w, i, p, after))
  }

  /** The durable record that replaces the claim. */
  ghost predicate Recorded(w: World, i: TickInput, p: Published, after: World) {
    && after.progress.Some?
    && var tasks := after.progress.value.progress.tasks;
       && tasks != []
       && var last := Last(tasks);
          && last.messageId == p.message.id && last.messageState == p.state && last.taskId == p.message.taskId
          && Settles(i, p.message, last.disposition)
          && last.replyState == ReplyOf(i) && last.memoryState == MemoryOf(i, p.message)
  }

  lemma MemoryOutcome(i: TickInput, m: Message, handled: HandlerResult)
    requires handled.hasMemoryItems == HasMemory(i, m) && Yields(i, m, handled.disposition)
    ensures var (result, memoryState) := AfterMemory(handled, i.memory);
            && memoryState == MemoryOf(i, m) && result.providerInvoked == handled.providerInvoked
            && Settles(i, m, if i.reply.Verified? then result.disposition else Unresolved)
            && (result.disposition.Completed? ==> handled.disposition.Completed?)
  {
  }

  /** What is known of a handled message before its reply. */
  ghost predicate Ready(i: TickInput, m: Message, name: Option<string>, handled: HandlerResult) {
    && name.Some? == Routed(i, m) && handled.hasMemoryItems == HasMemory(i, m) && Yields(i, m, handled.disposition)
    && handled.providerInvoked == (Handles(i, m) && i.handler.Returns? && i.handler.result.providerInvoked)
  }

  /** A final record that its constructor accepts, written or not. */
  lemma FinishShape(
    w: World, claimed: Saved, p: Published, name: Option<string>, handled: HandlerResult, i: TickInput,
    record: TaskProgress, next: Progress)
    requires !i.reply.ReplyUnbuildable? && w.progress == Some(claimed)
    requires var (result, memoryState) := AfterMemory(handled, i.memory);
             record == TaskProgress(
               p.state, p.message.id, p.message.taskId, if i.reply.Verified? then result.disposition else Unresolved,
               ReplyOf(i), memoryState)
    requires ReplaceProgress(claimed.progress, None, Some(record), None) == Some(next)
    ensures var t, saved := Finish(w, claimed, p, name, handled, i), Saved(next, Some(claimed), i.finishedAt);
            && |t.trace| == 2 && t.status.Status? && Last(t.trace).calls == w.calls
            && t.status.workInvoked == name.Some?
            && t.status.providerInvoked == AfterMemory(handled, i.memory).0.providerInvoked
            && t.status.messageState == Some(p.state) && t.status.replyState == record.replyState
            && t.status.memoryState == record.memoryState
            && t.status.code == (if i.finalWrite.Healthy? then Final(record.disposition) else FinalNotPersisted(record.disposition))
            && (i.finalWrite.Healthy? ==>
                  Last(t.trace).progress == Some(saved) && t.status.progressState == Some(saved))
  {
    hide AfterMemory, ReplaceProgress;
  }

  lemma FinishOutcome(
    b: Bindings, w: World, start: World, claimed: Saved, p: Published, name: Option<string>, handled: HandlerResult,
    i: TickInput)
    requires Inv(b, w) && w.progress == Some(claimed) && !i.reply.ReplyUnbuildable?
    requires var tasks := claimed.progress.tasks;
             tasks != [] && Last(tasks).disposition.Claimed? && Last(tasks).messageId == p.message.id
    requires handled.disposition.Completed? ==> p.message.id in w.calls
    requires w.calls == start.calls + (if Handles(i, p.message) then [p.message.id] else [])
    requires Ready(i, p.message, name, handled)
    ensures Outcome(start, i, p, Finish(w, claimed, p, name, handled, i))
  {
    hide Settles, Handles, Routed, HasMemory, AfterMemory, Yields, MemoryOf, ReplaceProgress, Inv, Extends, Finish;
    var (result, memoryState) := AfterMemory(handled, i.memory);
    MemoryOutcome(i, p.message, handled);
    var disposition := if i.reply.Verified? then result.disposition else Unresolved;
    var record := TaskProgress(p.state, p.message.id, p.message.taskId, disposition, ReplyOf(i), memoryState);
    FinalStep(b, w, claimed, record);
    var next := claimed.progress.(tasks := claimed.progress.tasks[..|claimed.progress.tasks| - 1] + [record]);
    FinishShape(w, claimed, p, name, handled, i, record, next);
    assert Last(next.tasks) == record;
  }

  /** Stops and unhandled tasks are decided here; for the others the handler decides. */
  lemma DecisionReady(i: TickInput, m: Message)
    requires ValidInput(i) && !m.kind.Reply?
    ensures var (name, decided) := Decide(i.policy, i.registered, m);
            && (decided.Some? <==> !Handles(i, m))
            && Ready(i, m, name, if decided.Some? then decided.value else AfterHandler(i.handler))
  {
    if m.kind.Task? {
      HandlerIsTheRoute(i, m);
    }
    hide HandlerFor;
  }

  lemma DispatchOutcome(b: Bindings, w: World, claimed: Saved, p: Published, i: TickInput)
    requires Inv(b, w) && w.progress == Some(claimed) && !i.reply.ReplyUnbuildable? && ValidInput(i)
    requires var tasks := claimed.progress.tasks;
             tasks != [] && Last(tasks).disposition.Claimed? && Last(tasks).messageId == p.message.id
             && p.message.id !in w.calls && !p.message.kind.Reply?
    ensures Outcome(w, i, p, Dispatch(w, claimed, p, i))
  {
    var (name, decided) := Decide(i.policy, i.registered, p.message);
    DecisionReady(i, p.message);
    hide Handles, Routed, HasMemory, Yields, Decide, Settles;
    if decided.Some? {
      DecidedIsNotCompleted(i, p.message);
      assert w.calls + [] == w.calls;
      FinishOutcome(b, w, w, claimed, p, name, decided.value, i);
    } else {
      var called := w.(calls := w.calls + [p.message.id]);
      CalledKeepsInv(b, w, claimed, p);
      FinishOutcome(b, called, w, claimed, p, name, AfterHandler(i.handler), i);
      hide Outcome, Finish, Inv;
      var rest := Finish(called, claimed, p, name, AfterHandler(i.handler), i);
      PrependOutcome(w, i, p, rest);
    }
  }

  lemma PrependOutcome(w: World, i: TickInput, p: Published, t: Ticked)
    requires Outcome(w, i, p, t)
    ensures Outcome(w, i, p, Ticked([w] + t.trace, t.status))
  {
    assert Last([w] + t.trace) == Last(t.trace);
  }

  lemma DecidedIsNotCompleted(i: TickInput, m: Message)
    ensures var (name, decided) := Decide(i.policy, i.registered, m);
            decided.Some? ==> !decided.value.disposition.Completed?
  {
  }

  lemma CalledKeepsInv(b: Bindings, w: World, claimed: Saved, p: Published)
    requires Inv(b, w) && w.progress == Some(claimed) && p.message.id !in w.calls
    requires claimed.progress.tasks != [] && Last(claimed.progress.tasks).messageId == p.message.id
    ensures Inv(b, w.(calls := w.calls + [p.message.id]))
  {
    NoDupAppend(w.calls, p.message.id);
    assert Last(claimed.progress.tasks) in claimed.progress.tasks;
  }

  // ---------------------------------------------------------------- from the start of the tick

  /** The tick gets as far as claiming this message. */
  ghost predicate Claims(b: Bindings, w: World, i: TickInput, p: Published) {
    && i.startedAt <= i.finishedAt && !i.stopFile && !i.instanceBusy && !i.loadFails
    && !Blocked(w) && |Tasks(w)| < i.policy.maximumCompleted
    && FirstUnreadable(i.sources).None? && NoDup(CursorKeys(Tips(i.sources)))
    && var candidates := StableSort(Unhandled(IdSet(Tasks(w)), Received(b.environment, i.sources)));
       candidates != [] && candidates[0] == p
  }

  lemma ClaimsIsClaimed(b: Bindings, w: World, i: TickInput, p: Published)
    requires Inv(b, w) && ValidInput(i) && Claims(b, w, i, p)
    ensures ProgressOk(b, Refreshed(b, w, i)) && Refreshed(b, w, i).tasks == Tasks(w)
    ensures forall k | 0 <= k < |Tasks(w)| :: !IsBarrier(Tasks(w)[k])
    ensures Tick(w, b, i) == ClaimAndRun(w, Refreshed(b, w, i), p, i)
    ensures p.message.id !in IdSet(Tasks(w)) && !p.message.kind.Reply?
  {
    var known := Known(w, b);
    assert ProgressOk(b, known);
    forall k | 0 <= k < |known.tasks| ensures !IsBarrier(known.tasks[k]) {
      assert known.tasks[k] in known.tasks;
    }
    NoBarriers(known.tasks);
    AllDone(known.tasks);
    RefreshStep(b, known, i.sources);
    var received := Received(b.environment, i.sources);
    SortEmpty(Unhandled(IdSet(known.tasks), received));
    SelectedIsNew(IdSet(known.tasks), received);
    SelectedIsAddressed(b.environment, i.sources, IdSet(known.tasks));
    hide Inv, ProgressOk, ReplaceProgress, ClaimAndRun, Barriers, Done, Unhandled, Received, StableSort, Tips, CursorKeys;
    hide FirstUnreadable, Blocked;
  }

  lemma SelectedIsAddressed(environment: string, sources: seq<SourceRead>, handled: set<string>)
    requires Unhandled(handled, Received(environment, sources)) != []
    ensures StableSort(Unhandled(handled, Received(environment, sources))) != []
    ensures !StableSort(Unhandled(handled, Received(environment, sources)))[0].message.kind.Reply?
  {
    var received := Received(environment, sources);
    var candidates := Unhandled(handled, received);
    SortEmpty(candidates);
    SortSorts(candidates);
    var first := StableSort(candidates)[0];
    assert first in multiset(StableSort(candidates));
    UnhandledMembers(handled, received);
    assert first in received;
    ReceivedAreAddressed(environment, sources, first);
  }

  lemma {:induction false} ReceivedAreAddressed(environment: string, sources: seq<SourceRead>, p: Published)
    requires p in Received(environment, sources)
    ensures ToReader(environment, p)
  {
    var init := sources[..|sources| - 1];
    if p in Received(environment, init) {
      ReceivedAreAddressed(environment, init, p);
    } else {
      AddressedAre(environment, Last(sources).messages, p);
    }
  }

  lemma {:induction false} AddressedAre(environment: string, s: seq<Published>, p: Published)
    requires p in Addressed(environment, s)
    ensures ToReader(environment, p)
  {
    if !(ToReader(environment, s[0]) && p == s[0]) {
      AddressedAre(environment, s[1..], p);
    }
  }

  /**
   What becomes of a claimed message, with a durable claim and a buildable reply: which handler is called,
   which disposition is reported and recorded, and what else the record and the status say. It is recorded
   as UNRESOLVED if and only if the handler raised or said so, the memory of its result was lost, or the
   reply is not verified; the reader is then blocked, as after a stop, and not otherwise.
   */
  lemma TickOutcome(b: Bindings, w: World, i: TickInput, p: Published)
    requires Inv(b, w) && ValidInput(i) && Claims(b, w, i, p)
    requires i.claimWrite.Healthy? && !i.reply.ReplyUnbuildable?
    ensures var t := Tick(w, b, i);
            && Outcome(w, i, p, t)
            && |t.trace| > 1 && Tasks(t.trace[1]) == Tasks(w) + [Claim(p)]
            && (i.finalWrite.Healthy? ==>
                  var after := Last(t.trace);
                  (Blocked(after) <==> Settles(i, p.message, Unresolved) || Settles(i, p.message, Stopped)))
  {
    ClaimsIsClaimed(b, w, i, p);
    var refreshed := Refreshed(b, w, i);
    ClaimStep(b, w, refreshed, p);
    var saved := Saved(refreshed.(tasks := Tasks(w) + [Claim(p)]), w.progress, i.startedAt);
    var claimed := w.(progress := Some(saved));
    assert Cas(w.progress, w.progress, saved, i.claimWrite) == (true, Some(saved));
    var rest := Dispatch(claimed, saved, p, i);
    assert ClaimAndRun(w, refreshed, p, i) == Ticked([w] + rest.trace, rest.status);
    NotYetCalled(b, w, p);
    DispatchOutcome(b, claimed, saved, p, i);
    DispatchStarts(claimed, saved, p, i);
    PrependOutcome(w, i, p, rest);
    if i.finalWrite.Healthy? {
      TickGood(b, w, i);
      BlockedByLast(b, i, p, w, Last(Tick(w, b, i).trace));
    }
  }

  lemma NotYetCalled(b: Bindings, w: World, p: Published)
    requires Inv(b, w) && p.message.id !in IdSet(Tasks(w))
    ensures p.message.id !in w.calls
  {
  }

  lemma NeverClaimed(i: TickInput, m: Message)
    requires ValidInput(i)
    ensures !Settles(i, m, Claimed)
  {
  }

  lemma SettlesOnce(i: TickInput, m: Message, d: Disposition, e: Disposition)
    requires Settles(i, m, d) && Settles(i, m, e)
    ensures d == e
  {
  }

  lemma BlockedByLast(b: Bindings, i: TickInput, p: Published, w: World, after: World)
    requires ValidInput(i) && Inv(b, after) && Recorded(w, i, p, after)
    ensures Blocked(after) <==> Settles(i, p.message, Unresolved) || Settles(i, p.message, Stopped)
  {
    var tasks := after.progress.value.progress.tasks;
    if Blocked(after) {
      BarrierIsLast(b, after);
    } else {
      assert Last(tasks) in tasks;
    }
    var d := Last(tasks).disposition;
    if Settles(i, p.message, Unresolved) {
      SettlesOnce(i, p.message, d, Unresolved);
    }
    if Settles(i, p.message, Stopped) {
      SettlesOnce(i, p.message, d, Stopped);
    }
    NeverClaimed(i, p.message);
    hide Settles;
  }

  /** A handler that raises leaves the reader blocked, whatever the reply does. */
  lemma RaisingHandlerBlocks(b: Bindings, w: World, i: TickInput, p: Published)
    requires Inv(b, w) && ValidInput(i) && Claims(b, w, i, p)
    requires i.claimWrite.Healthy? && i.finalWrite.Healthy? && !i.reply.ReplyUnbuildable?
    requires Handles(i, p.message) && i.handler.RaisesException?
    ensures var t := Tick(w, b, i);
            t.trace != [] && Blocked(Last(t.trace)) && t.status.Status? && t.status.code == Final(Unresolved)
  {
    hide Inv, Claims, Tick, Blocked;
    TickOutcome(b, w, i, p);
    SettlesOnce(i, p.message, Unresolved, Tick(w, b, i).status.code.disposition);
  }

  /** A claim that is not reported durable calls nobody, and the tick says that it could not be written. */
  lemma LostClaimReports(b: Bindings, w: World, i: TickInput, p: Published)
    requires Inv(b, w) && ValidInput(i) && Claims(b, w, i, p) && !i.claimWrite.Healthy?
    ensures var t := Tick(w, b, i);
            && t.trace != [] && Last(t.trace).calls == w.calls
            && t.status == Quiet(Refused("cycle.progress_persistence_failed"), None)
            && (if i.claimWrite.CommitRaises? && i.claimWrite.landed then Tasks(Last(t.trace)) == Tasks(w) + [Claim(p)]
                else Last(t.trace) == w)
  {
    ClaimsIsClaimed(b, w, i, p);
    ClaimStep(b, w, Refreshed(b, w, i), p);
    hide Inv, ProgressOk, ReplaceProgress, Tick, Claims;
  }

  // ---------------------------------------------------------------- ticks that claim nothing

  /** The first condition that stops a tick before it reads its sources. */
  predicate Halts(b: Bindings, w: World, i: TickInput, code: Code) {
    var p := Known(w, b);
    var admitted := i.startedAt <= i.finishedAt && !i.stopFile && !i.instanceBusy && !i.loadFails;
    var bound := admitted && p.environment == b.environment && p.instance == b.instance;
    match code
    case StopFile => i.startedAt <= i.finishedAt && i.stopFile
    case Busy => i.startedAt <= i.finishedAt && !i.stopFile && i.instanceBusy
    case StoppedHalt => bound && p.tasks != [] && Last(p.tasks).disposition.Stopped?
    case UnresolvedHalt => bound && p.tasks != [] && Last(p.tasks).disposition.Unresolved?
    case ClaimedUnresolved => bound && p.tasks != [] && Last(p.tasks).disposition.Claimed?
    case Exhausted =>
      bound && (forall k | 0 <= k < |p.tasks| :: !IsBarrier(p.tasks[k])) && |p.tasks| >= i.policy.maximumCompleted
    case _ => false
  }

  /**
   Why a tick stops early, each reason exactly when it is reported; a barrier is reported with its States, and
   nothing is changed.
   */
  lemma HaltReports(b: Bindings, w: World, i: TickInput, code: Code)
    requires Inv(b, w) && ValidInput(i)
    requires code in {StopFile, Busy, StoppedHalt, UnresolvedHalt, ClaimedUnresolved, Exhausted}
    ensures var t := Tick(w, b, i);
            && (t.status.Status? && t.status.code == code <==> Halts(b, w, i, code))
            && (Halts(b, w, i, code) ==>
                  && t.trace == [w] && !t.status.workInvoked && !t.status.providerInvoked
                  && t.status.progressState == (if code in {StopFile, Busy} then None else w.progress)
                  && (code in {StoppedHalt, UnresolvedHalt, ClaimedUnresolved} ==>
                        var barrier := Last(Tasks(w));
                        && t.status.messageState == Some(barrier.messageState)
                        && t.status.replyState == barrier.replyState && t.status.memoryState == barrier.memoryState))
  {
    hide Inv, ProgressOk, ReplaceProgress, ClaimAndRun, Barriers, Done, Unhandled, Received, StableSort, Tips, IdSet, Cas;
    HaltFacts(b, w);
    var refreshed := ReplaceProgress(Known(w, b), Some(Tips(i.sources)), None, None);
    var candidates := Unhandled(IdSet(Known(w, b).tasks), Received(b.environment, i.sources));
    SortEmpty(candidates);
    if refreshed.Some? && candidates != [] {
      ClaimReportsLate(w, refreshed.value, StableSort(candidates)[0], i);
    }
  }

  lemma HaltFacts(b: Bindings, w: World)
    requires Inv(b, w)
    ensures var p := Known(w, b);
            && p.environment == b.environment && p.instance == b.instance && p.tasks == Tasks(w)
            && Barriers(p.tasks) == (if p.tasks != [] && IsBarrier(Last(p.tasks)) then [Last(p.tasks)] else [])
            && (Barriers(p.tasks) == [] <==> forall k | 0 <= k < |p.tasks| :: !IsBarrier(p.tasks[k]))
            && (Barriers(p.tasks) == [] ==> Done(p.tasks) == |p.tasks|)
  {
    var p := Known(w, b);
    assert ProgressOk(b, p);
    OnlyLastIsBarrier(p.tasks);
    NoBarriers(p.tasks);
    if Barriers(p.tasks) == [] {
      AllDone(p.tasks);
    }
  }

  lemma ClaimReportsLate(w: World, progress: WorkCycle.Progress, p: Published, i: TickInput)
    ensures var s := ClaimAndRun(w, progress, p, i).status;
            s.Raised? || s.code.Final? || s.code.FinalNotPersisted? || s.code.Refused?
  {
    hide ReplaceProgress, Decide, AfterMemory;
  }

  // ---------------------------------------------------------------- reconciliation reports

  /** What stands against a reconciliation, in the order of the tests. */
  predicate Against(b: Bindings, w: World, r: Reconciliation, i: ReconcileInput, result: ReconcileResult) {
    var local := IsLocal(b, r);
    var free := local && !i.ownerBusy && !i.instanceBusy;
    var loaded := free && !i.stopFile && !i.loadFails;
    var p := Known(w, b);
    var used := exists x | x in p.reconciliations :: x.id == r.id;
    match result
    case RepositoryRefused => !local
    case ReconciliationBusy => local && !free
    case ReconciliationStopped => free && i.stopFile
    case LoadError => free && !i.stopFile && i.loadFails
    case AlreadyApplied => loaded && r in p.reconciliations
    case IdentityConflict => loaded && used && r !in p.reconciliations
    case ProgressChanged => loaded && !used && w.progress != Some(r.priorState)
    case TaskChanged =>
      loaded && !used && w.progress == Some(r.priorState) && (p.tasks == [] || Last(p.tasks) != r.priorTask)
    case EvidenceRejected =>
      loaded && !used && w.progress == Some(r.priorState) && p.tasks != [] && Last(p.tasks) == r.priorTask
      && i.evidenceFails
    case _ => false
  }

  /** Every refused reconciliation is refused for its reason, and changes nothing. */
  lemma ReconciliationReports(b: Bindings, w: World, r: Reconciliation, i: ReconcileInput, result: ReconcileResult)
    requires Inv(b, w) && ValidReconciliation(r)
    requires !result.Reconciled? && !result.NotPersisted? && !result.RecordRefused?
    ensures Reconcile(w, b, r, i).result == result <==> Against(b, w, r, i, result)
    ensures Against(b, w, r, i, result) ==> Reconcile(w, b, r, i).trace == [w]
  {
    hide Inv, ProgressOk, ReplaceProgress, Barriers, SameId, FindTask, Cas;
    RecordFacts(b, w, r);
    HaltFacts(b, w);
  }

  lemma RecordFacts(b: Bindings, w: World, r: Reconciliation)
    requires Inv(b, w)
    ensures var rs, tasks := Known(w, b).reconciliations, Known(w, b).tasks;
            && (SameId(rs, r.id) != [] <==> exists x | x in rs :: x.id == r.id)
            && (SameId(rs, r.id) == [r] && FindTask(tasks, r.priorTask.messageId) == Some(ClosedAs(r)) <==> r in rs)
  {
    var p := Known(w, b);
    assert ProgressOk(b, p);
    UsedIds(p.reconciliations, r.id);
    if r in p.reconciliations {
      UniqueRecord(p.reconciliations, r);
      FoundTask(p.tasks, ClosedAs(r));
    } else {
      UnusedRecord(p.reconciliations, r);
    }
  }

  lemma UsedIds(rs: seq<Reconciliation>, id: string)
    ensures SameId(rs, id) == [] <==> forall x | x in rs :: x.id != id
  {
    SameIdNone(rs, id);
    if x :| x in rs && x.id == id {
      var k :| 0 <= k < |rs| && rs[k] == x;
      assert ReconciliationIds(rs)[k] == id;
    }
    if id in ReconciliationIds(rs) {
      var k :| 0 <= k < |rs| && ReconciliationIds(rs)[k] == id;
      assert rs[k] in rs;
    }
  }

  lemma {:induction false} UnusedRecord(rs: seq<Reconciliation>, r: Reconciliation)
    requires r !in rs
    ensures SameId(rs, r.id) != [r]
  {
    if rs != [] {
      UnusedRecord(rs[1..], r);
      assert SameId(rs, r.id) != [] ==> SameId(rs, r.id)[0] != r by {
        SameIdMembers(rs, r.id);
      }
    }
  }

  lemma {:induction false} SameIdMembers(rs: seq<Reconciliation>, id: string)
    ensures forall x | x in SameId(rs, id) :: x in rs
  {
    if rs != [] {
      SameIdMembers(rs[1..], id);
      assert forall x | x in rs[1..] :: x in rs;
    }
  }

  /**
   A reported reconciliation is durable: the record follows the prior State, its last task is the prior one
   marked failed, its last reconciliation is this one, and nothing else in it has changed.
   */
  lemma ReconciledTells(b: Bindings, w: World, r: Reconciliation, i: ReconcileInput)
    requires Inv(b, w) && ValidReconciliation(r) && Reconcile(w, b, r, i).result.Reconciled?
    ensures var t := Reconcile(w, b, r, i);
            var saved := t.result.state;
            && t.trace != [] && Last(t.trace) == w.(progress := Some(saved))
            && w.progress == Some(r.priorState) && saved.parent == w.progress && saved.savedAt == r.reconciledAt
            && var before, after := r.priorState.progress, saved.progress;
               && after.environment == before.environment && after.instance == before.instance
               && after.cursors == before.cursors && after.reconciliations == before.reconciliations + [r]
               && before.tasks != [] && Last(before.tasks) == r.priorTask
               && after.tasks == before.tasks[..|before.tasks| - 1] + [r.priorTask.(disposition := Failed)]
  {
    ReconciledPrior(b, w, r, i);
    HaltFacts(b, w);
    var p := r.priorState.progress;
    assert ProgressOk(b, p) && Last(p.tasks) == r.priorTask;
    WithoutLast(p.tasks);
    hide Inv, ProgressOk, RecordChecks, Barriers, Without, Blocked, Reconcile;
  }

  lemma ReconciledPrior(b: Bindings, w: World, r: Reconciliation, i: ReconcileInput)
    requires Reconcile(w, b, r, i).result.Reconciled?
    ensures w.progress == Some(r.priorState) && Barriers(r.priorState.progress.tasks) == [r.priorTask]
    ensures var t, next := Reconcile(w, b, r, i), ReplaceProgress(r.priorState.progress, None, Some(ClosedAs(r)), Some(r));
            && t.trace != [] && Last(t.trace) == w.(progress := Some(t.result.state))
            && next.Some? && t.result.state == Saved(next.value, w.progress, r.reconciledAt)
  {
    hide ReplaceProgress, Barriers, SameId, FindTask, IsLocal;
  }
}
