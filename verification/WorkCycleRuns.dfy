/**
 What every run of ticks and reconciliations keeps, whatever the peers publish, whatever each durable
 write reports, and wherever the process dies.
 */
module WorkCycleRuns {
  import opened Common
  import opened Refs
  import opened Inbox
  import opened WorkCycle

  // ---------------------------------------------------------------- the invariant

  ghost predicate TasksOk(tasks: seq<TaskProgress>) {
    && NoDup(Ids(tasks))
    && |tasks| <= MAX_RECORDS
    && (forall k | 0 <= k < |tasks| - 1 :: !IsBarrier(tasks[k]))
    && (forall t | t in tasks :: t.disposition.Completed? ==> t.replyState.Some?)
  }

  function ReconciledIds(rs: seq<Reconciliation>): seq<string> {
    seq(|rs|, k requires 0 <= k < |rs| => rs[k].priorTask.messageId)
  }

  ghost predicate HistoryOk(p: Progress) {
    && NoDup(ReconciliationIds(p.reconciliations))
    && NoDup(ReconciledIds(p.reconciliations))
    && (forall r | r in p.reconciliations :: ValidReconciliation(r) && ClosedAs(r) in p.tasks)
  }

  ghost predicate ProgressOk(b: Bindings, p: Progress) {
    && p.environment == b.environment && p.instance == b.instance
    && |p.cursors| <= MAX_SOURCES && NoDup(CursorKeys(p.cursors))
    && TasksOk(p.tasks)
    && HistoryOk(p)
    && forall r | r in p.reconciliations :: IsLocal(b, r)
  }

  /**
   At most one barrier and it is last; nothing is called or recorded twice; every call is on record, and
   every completed record had its call.
   */
  ghost predicate Inv(b: Bindings, w: World) {
    && NoDup(w.calls)
    && match w.progress
       case None => w.calls == []
       case Some(s) =>
         && ProgressOk(b, s.progress)
         && (forall id | id in w.calls :: id in IdSet(s.progress.tasks))
         && (forall t | t in s.progress.tasks :: t.disposition.Completed? ==> t.messageId in w.calls)
  }

  predicate Settled(t: TaskProgress) {
    t.disposition.Completed? || t.disposition.Failed?
  }

  /** What later worlds keep of earlier ones. */
  ghost predicate Extends(w: World, next: World) {
    && w.calls <= next.calls
    && match w.progress
       case None => true
       case Some(s) =>
         && next.progress.Some?
         && s.progress.reconciliations <= next.progress.value.progress.reconciliations
         && IdSet(s.progress.tasks) <= IdSet(next.progress.value.progress.tasks)
         && forall t | t in s.progress.tasks && Settled(t) :: t in next.progress.value.progress.tasks
  }

  lemma ExtendsTransitive(a: World, b: World, c: World)
    requires Extends(a, b) && Extends(b, c)
    ensures Extends(a, c)
  {
  }

  /** A handler call happens in its own step, for a message whose CLAIMED record is durable and last. */
  ghost predicate CallsOnlyClaimed(w: World, next: World) {
    next.calls == w.calls
    || (&& next.progress == w.progress && w.progress.Some?
        && var tasks := w.progress.value.progress.tasks;
           && tasks != [] && Last(tasks).disposition.Claimed?
           && Last(tasks).messageId !in w.calls
           && next.calls == w.calls + [Last(tasks).messageId])
  }

  ghost predicate GoodTrace(b: Bindings, trace: seq<World>) {
    && trace != []
    && (forall k | 0 <= k < |trace| :: Inv(b, trace[k]))
    && (forall k | 0 <= k < |trace| - 1 :: CallsOnlyClaimed(trace[k], trace[k + 1]))
    && (forall k | 0 <= k < |trace| - 1 :: Extends(trace[k], trace[k + 1]))
  }

  lemma PrependStep(b: Bindings, w: World, rest: seq<World>)
    requires Inv(b, w) && GoodTrace(b, rest)
    requires CallsOnlyClaimed(w, rest[0]) && Extends(w, rest[0])
    ensures GoodTrace(b, [w] + rest)
  {
    var trace := [w] + rest;
    forall k | 0 <= k < |trace| - 1 ensures CallsOnlyClaimed(trace[k], trace[k + 1]) && Extends(trace[k], trace[k + 1]) {
      if k > 0 {
        assert trace[k] == rest[k - 1] && trace[k + 1] == rest[k];
      }
    }
  }

  lemma StepTrace(b: Bindings, w: World, next: World)
    requires Inv(b, w) && Inv(b, next) && CallsOnlyClaimed(w, next) && Extends(w, next)
    ensures GoodTrace(b, [w, next])
  {
    assert GoodTrace(b, [next]);
    PrependStep(b, w, [next]);
    assert [w] + [next] == [w, next];
  }

  // ---------------------------------------------------------------- facts about the task list

  lemma {:induction false} WithoutAbsent(tasks: seq<TaskProgress>, id: string)
    requires id !in IdSet(tasks)
    ensures Without(tasks, id) == tasks
  {
    if tasks != [] {
      assert tasks[0] in tasks;
      assert forall t | t in tasks[1..] :: t in tasks;
      WithoutAbsent(tasks[1..], id);
    }
  }

  lemma {:induction false} WithoutLast(tasks: seq<TaskProgress>)
    requires tasks != [] && NoDup(Ids(tasks))
    ensures Without(tasks, Last(tasks).messageId) == tasks[..|tasks| - 1]
  {
    if |tasks| > 1 {
      var rest := tasks[1..];
      forall i, j | 0 <= i < j < |rest| ensures Ids(rest)[i] != Ids(rest)[j] {
        assert Ids(rest)[i] == Ids(tasks)[i + 1] && Ids(rest)[j] == Ids(tasks)[j + 1];
      }
      WithoutLast(rest);
      assert Ids(tasks)[0] != Ids(tasks)[|tasks| - 1];
      assert [tasks[0]] + rest[..|rest| - 1] == tasks[..|tasks| - 1];
    } else {
      assert tasks[1..] == [];
    }
  }

  lemma {:induction false} NoBarriers(tasks: seq<TaskProgress>)
    ensures Barriers(tasks) == [] <==> forall k | 0 <= k < |tasks| :: !IsBarrier(tasks[k])
  {
    if tasks != [] {
      NoBarriers(tasks[1..]);
      if Barriers(tasks) == [] {
        forall k | 0 <= k < |tasks| ensures !IsBarrier(tasks[k]) {
          if k > 0 {
            assert tasks[k] == tasks[1..][k - 1];
          }
        }
      } else {
        if Barriers(tasks[1..]) != [] {
          var k :| 0 <= k < |tasks[1..]| && IsBarrier(tasks[1..][k]);
          assert IsBarrier(tasks[k + 1]);
        }
      }
    }
  }

  /** With every task but the last settled, the barrier list is the last task or empty. */
  lemma {:induction false} OnlyLastIsBarrier(tasks: seq<TaskProgress>)
    requires forall k | 0 <= k < |tasks| - 1 :: !IsBarrier(tasks[k])
    ensures Barriers(tasks) == if tasks != [] && IsBarrier(Last(tasks)) then [Last(tasks)] else []
  {
    if |tasks| > 1 {
      OnlyLastIsBarrier(tasks[1..]);
    } else if |tasks| == 1 {
      assert tasks[1..] == [];
    }
  }

  lemma {:induction false} AllDone(tasks: seq<TaskProgress>)
    requires forall k | 0 <= k < |tasks| :: !IsBarrier(tasks[k])
    ensures Done(tasks) == |tasks|
  {
    if tasks != [] {
      AllDone(tasks[..|tasks| - 1]);
    }
  }

  lemma IdsMembers(tasks: seq<TaskProgress>)
    ensures forall id :: id in Ids(tasks) <==> id in IdSet(tasks)
  {
    forall id | id in IdSet(tasks) ensures id in Ids(tasks) {
      var t :| t in tasks && t.messageId == id;
      var k :| 0 <= k < |tasks| && tasks[k] == t;
      assert Ids(tasks)[k] == id;
    }
  }

  lemma IdsAppend(tasks: seq<TaskProgress>, t: TaskProgress)
    ensures Ids(tasks + [t]) == Ids(tasks) + [t.messageId]
    ensures IdSet(tasks + [t]) == IdSet(tasks) + {t.messageId}
  {
    assert forall x | x in tasks :: x in tasks + [t];
    assert t in tasks + [t];
  }

  lemma ReconciliationsFit(p: Progress)
    requires TasksOk(p.tasks) && HistoryOk(p)
    ensures |p.reconciliations| <= |p.tasks|
  {
    forall id | id in ReconciledIds(p.reconciliations) ensures id in Ids(p.tasks) {
      var k :| 0 <= k < |p.reconciliations| && p.reconciliations[k].priorTask.messageId == id;
      assert ClosedAs(p.reconciliations[k]) in p.tasks;
      IdsMembers(p.tasks);
    }
    NoDupFits(ReconciledIds(p.reconciliations), Ids(p.tasks));
    assert |ReconciledIds(p.reconciliations)| == |p.reconciliations| && |Ids(p.tasks)| == |p.tasks|;
  }

  // ---------------------------------------------------------------- one step at a time

  /** Adding a claim for a new message: the record is accepted, and the claim becomes the last barrier. */
  lemma ClaimStep(b: Bindings, w: World, p: Progress, selected: Published)
    requires Inv(b, w) && ProgressOk(b, p)
    requires forall k | 0 <= k < |p.tasks| :: !IsBarrier(p.tasks[k])
    requires |p.tasks| < MAX_RECORDS && selected.message.id !in IdSet(p.tasks)
    requires match w.progress
             case None => p.tasks == [] && p.reconciliations == []
             case Some(s) => p.tasks == s.progress.tasks && p.reconciliations == s.progress.reconciliations
    ensures var next := p.(tasks := p.tasks + [Claim(selected)]);
            && ReplaceProgress(p, None, Some(Claim(selected)), None) == Some(next)
            && forall at :: var after := w.(progress := Some(Saved(next, w.progress, at)));
                            Inv(b, after) && Extends(w, after)
  {
    var next := p.(tasks := p.tasks + [Claim(selected)]);
    WithoutAbsent(p.tasks, selected.message.id);
    IdsAppend(p.tasks, Claim(selected));
    IdsMembers(p.tasks);
    NoDupAppend(Ids(p.tasks), selected.message.id);
    assert next.reconciliations == p.reconciliations + [];
    ReconciliationsFit(p);
    assert ProgressOk(b, next);
  }

  /** Replacing the claim, which is last, by the final record of the same message. */
  lemma FinalStep(b: Bindings, w: World, claimed: Saved, record: TaskProgress)
    requires Inv(b, w) && w.progress == Some(claimed)
    requires var tasks := claimed.progress.tasks;
             tasks != [] && Last(tasks).disposition.Claimed? && Last(tasks).messageId == record.messageId
    requires record.disposition.Completed? ==> record.replyState.Some? && record.messageId in w.calls
    ensures var tasks := claimed.progress.tasks;
            var next := claimed.progress.(tasks := tasks[..|tasks| - 1] + [record]);
            && ReplaceProgress(claimed.progress, None, Some(record), None) == Some(next)
            && forall at :: var after := w.(progress := Some(Saved(next, Some(claimed), at)));
                            Inv(b, after) && Extends(w, after)
  {
    var p := claimed.progress;
    FinalReplace(b, p, record);
    FinalKeeps(b, p, record);
    hide ReplaceProgress;
    NextRecordOk(b, w, claimed, p.(tasks := p.tasks[..|p.tasks| - 1] + [record]));
  }

  /** A snapshot that keeps what the invariant relates to the calls. */
  lemma NextRecordOk(b: Bindings, w: World, saved: Saved, next: Progress)
    requires Inv(b, w) && w.progress == Some(saved) && ProgressOk(b, next)
    requires Ids(next.tasks) == Ids(saved.progress.tasks)
    requires saved.progress.reconciliations <= next.reconciliations
    requires forall t | t in saved.progress.tasks && Settled(t) :: t in next.tasks
    requires forall t | t in next.tasks && t.disposition.Completed? :: t.messageId in w.calls
    ensures forall at :: var after := w.(progress := Some(Saved(next, Some(saved), at)));
                         Inv(b, after) && Extends(w, after)
  {
    hide ProgressOk;
    IdsMembers(saved.progress.tasks);
    IdsMembers(next.tasks);
  }

  /** The constructor accepts the final record in place of the claim. */
  lemma FinalReplace(b: Bindings, p: Progress, record: TaskProgress)
    requires ProgressOk(b, p) && p.tasks != [] && Last(p.tasks).disposition.Claimed?
    requires Last(p.tasks).messageId == record.messageId
    ensures ReplaceProgress(p, None, Some(record), None) == Some(p.(tasks := p.tasks[..|p.tasks| - 1] + [record]))
  {
    var init := p.tasks[..|p.tasks| - 1];
    var next := p.(tasks := init + [record]);
    WithoutLast(p.tasks);
    assert p.tasks == init + [Last(p.tasks)];
    IdsAppend(init, Last(p.tasks));
    IdsAppend(init, record);
    assert Ids(next.tasks) == Ids(p.tasks);
    assert next.reconciliations == p.reconciliations + [];
    ReconciliationsFit(p);
  }

  lemma FinalKeeps(b: Bindings, p: Progress, record: TaskProgress)
    requires ProgressOk(b, p) && p.tasks != [] && Last(p.tasks).disposition.Claimed?
    requires Last(p.tasks).messageId == record.messageId
    requires record.disposition.Completed? ==> record.replyState.Some?
    ensures var next := p.(tasks := p.tasks[..|p.tasks| - 1] + [record]);
            && ProgressOk(b, next) && Ids(next.tasks) == Ids(p.tasks)
            && (forall t | t in p.tasks && Settled(t) :: t in next.tasks)
            && forall t | t in next.tasks :: t == record || t in p.tasks
  {
    var init := p.tasks[..|p.tasks| - 1];
    var next := p.(tasks := init + [record]);
    assert p.tasks == init + [Last(p.tasks)];
    IdsAppend(init, Last(p.tasks));
    IdsAppend(init, record);
    assert Ids(next.tasks) == Ids(p.tasks);
    forall t | t in p.tasks && Settled(t) ensures t in next.tasks {
      assert t != Last(p.tasks);
    }
    forall r | r in p.reconciliations ensures ClosedAs(r) in next.tasks {
      assert ClosedAs(r) in p.tasks && Settled(ClosedAs(r));
    }
  }

  lemma FinishGood(
    b: Bindings, w: World, claimed: Saved, selected: Published, handlerName: Option<string>, handled: HandlerResult,
    i: TickInput)
    requires Inv(b, w) && w.progress == Some(claimed)
    requires var tasks := claimed.progress.tasks;
             tasks != [] && Last(tasks).disposition.Claimed? && Last(tasks).messageId == selected.message.id
    requires handled.disposition.Completed? ==> selected.message.id in w.calls
    ensures var t := Finish(w, claimed, selected, handlerName, handled, i);
            GoodTrace(b, t.trace) && t.trace[0] == w && (t.status.Raised? <==> i.reply.ReplyUnbuildable?)
  {
    if !i.reply.ReplyUnbuildable? {
      var (result, memoryState) := AfterMemory(handled, i.memory);
      var replyState := if i.reply.PublicationRaises? then None else Some(i.reply.state);
      var disposition := if i.reply.Verified? then result.disposition else Unresolved;
      var record := TaskProgress(
        selected.state, selected.message.id, selected.message.taskId, disposition, replyState, memoryState);
      FinalStep(b, w, claimed, record);
      hide ReplaceProgress, Inv, Extends;
      var next := ReplaceProgress(claimed.progress, None, Some(record), None).value;
      var after := w.(progress := Cas(w.progress, Some(claimed), Saved(next, Some(claimed), i.finishedAt), i.finalWrite).1);
      assert after == w || after == w.(progress := Some(Saved(next, Some(claimed), i.finishedAt)));
      ExtendsSelf(w);
      StepTrace(b, w, after);
    }
  }

  lemma ExtendsSelf(w: World)
    ensures Extends(w, w)
  {
  }

  lemma DispatchGood(b: Bindings, w: World, claimed: Saved, selected: Published, i: TickInput)
    requires Inv(b, w) && w.progress == Some(claimed) && ValidInput(i)
    requires var tasks := claimed.progress.tasks;
             tasks != [] && Last(tasks).disposition.Claimed? && Last(tasks).messageId == selected.message.id
    requires selected.message.id !in w.calls
    ensures var t := Dispatch(w, claimed, selected, i);
            GoodTrace(b, t.trace) && t.trace[0] == w && (t.status.Raised? <==> i.reply.ReplyUnbuildable?)
  {
    var (handlerName, decided) := Decide(i.policy, i.registered, selected.message);
    if decided.Some? {
      FinishGood(b, w, claimed, selected, handlerName, decided.value, i);
    } else {
      var called := w.(calls := w.calls + [selected.message.id]);
      NoDupAppend(w.calls, selected.message.id);
      assert Last(claimed.progress.tasks) in claimed.progress.tasks;
      assert Inv(b, called);
      var rest := Finish(called, claimed, selected, handlerName, AfterHandler(i.handler), i);
      FinishGood(b, called, claimed, selected, handlerName, AfterHandler(i.handler), i);
      PrependStep(b, w, rest.trace);
    }
  }

  lemma ClaimAndRunGood(b: Bindings, w: World, p: Progress, selected: Published, i: TickInput)
    requires Inv(b, w) && ProgressOk(b, p) && ValidInput(i)
    requires forall k | 0 <= k < |p.tasks| :: !IsBarrier(p.tasks[k])
    requires |p.tasks| < MAX_RECORDS && selected.message.id !in IdSet(p.tasks)
    requires match w.progress
             case None => p.tasks == [] && p.reconciliations == []
             case Some(s) => p.tasks == s.progress.tasks && p.reconciliations == s.progress.reconciliations
    ensures var t := ClaimAndRun(w, p, selected, i);
            GoodTrace(b, t.trace) && t.trace[0] == w
            && (t.status.Raised? ==> i.reply.ReplyUnbuildable?)
  {
    ClaimStep(b, w, p, selected);
    var next := p.(tasks := p.tasks + [Claim(selected)]);
    var saved := Saved(next, w.progress, i.startedAt);
    var claimed := w.(progress := Cas(w.progress, w.progress, saved, i.claimWrite).1);
    assert Extends(w, w);
    assert claimed == w || claimed == w.(progress := Some(saved));
    if Cas(w.progress, w.progress, saved, i.claimWrite).0 {
      assert selected.message.id !in w.calls;
      DispatchGood(b, claimed, saved, selected, i);
      PrependStep(b, w, Dispatch(claimed, saved, selected, i).trace);
    } else {
      StepTrace(b, w, claimed);
    }
  }

  function Known(w: World, b: Bindings): Progress {
    if w.progress.Some? then w.progress.value.progress else Progress(b.environment, b.instance, [], [], [])
  }

  lemma {:induction false} TipsFit(sources: seq<SourceRead>)
    ensures |Tips(sources)| <= |sources|
  {
    if sources != [] {
      TipsFit(sources[..|sources| - 1]);
    }
  }

  lemma SelectedIsNew(handled: set<string>, received: seq<Published>)
    requires Unhandled(handled, received) != []
    ensures var sorted := StableSort(Unhandled(handled, received));
            sorted != [] && sorted[0] in received && sorted[0].message.id !in handled
  {
    var candidates := Unhandled(handled, received);
    SortSorts(candidates);
    var sorted := StableSort(candidates);
    assert multiset(sorted) == multiset(candidates);
    assert |multiset(sorted)| == |sorted| && |multiset(candidates)| == |candidates|;
    assert sorted[0] in multiset(sorted);
    UnhandledMembers(handled, received);
  }

  /** Refreshing the cursors is accepted exactly when the sources name distinct refs. */
  lemma RefreshStep(b: Bindings, p: Progress, sources: seq<SourceRead>)
    requires ProgressOk(b, p) && |sources| <= MAX_SOURCES
    ensures ReplaceProgress(p, Some(Tips(sources)), None, None)
         == if NoDup(CursorKeys(Tips(sources))) then Some(p.(cursors := Tips(sources))) else None
    ensures NoDup(CursorKeys(Tips(sources))) ==> ProgressOk(b, p.(cursors := Tips(sources)))
  {
    TipsFit(sources);
    ReconciliationsFit(p);
    assert p.reconciliations + [] == p.reconciliations;
  }

  /**
   One tick: every world it passes through keeps the invariant and what came before, and every handler
   call is preceded by the durable claim of that message. The tick raises only when its times are out of
   order, two sources name the same ref or the reply record itself is refused: the bounds of the progress
   record never stop it.
   */
  lemma TickGood(b: Bindings, w: World, i: TickInput)
    requires Inv(b, w) && ValidInput(i)
    ensures GoodTrace(b, Tick(w, b, i).trace) && Tick(w, b, i).trace[0] == w
    ensures Tick(w, b, i).status.Raised? ==>
              i.finishedAt < i.startedAt || i.reply.ReplyUnbuildable? || !NoDup(CursorKeys(Tips(i.sources)))
  {
    var p := Known(w, b);
    assert GoodTrace(b, [w]);
    assert ProgressOk(b, p);
    NoBarriers(p.tasks);
    if !(i.finishedAt < i.startedAt || i.stopFile || i.instanceBusy || i.loadFails || Barriers(p.tasks) != []) {
      AllDone(p.tasks);
      if Done(p.tasks) < i.policy.maximumCompleted && FirstUnreadable(i.sources).None? {
        RefreshStep(b, p, i.sources);
        if NoDup(CursorKeys(Tips(i.sources))) {
          var refreshed := p.(cursors := Tips(i.sources));
          var received := Received(b.environment, i.sources);
          if Unhandled(IdSet(p.tasks), received) != [] {
            SelectedIsNew(IdSet(p.tasks), received);
            ClaimAndRunGood(b, w, refreshed, StableSort(Unhandled(IdSet(p.tasks), received))[0], i);
          } else {
            IdleGood(b, w, refreshed, i);
          }
        }
      }
    }
  }

  lemma IdleGood(b: Bindings, w: World, refreshed: Progress, i: TickInput)
    requires Inv(b, w) && ProgressOk(b, refreshed)
    requires refreshed == Known(w, b).(cursors := refreshed.cursors)
    ensures var after := w.(progress := Cas(w.progress, w.progress, Saved(refreshed, w.progress, i.startedAt), i.idleWrite).1);
            GoodTrace(b, [w, after])
  {
    var saved := Saved(refreshed, w.progress, i.startedAt);
    var after := w.(progress := Cas(w.progress, w.progress, saved, i.idleWrite).1);
    assert after == w || after == w.(progress := Some(saved));
    assert Inv(b, after);
    assert Extends(w, after);
    StepTrace(b, w, after);
  }

  lemma ReconcileGood(b: Bindings, w: World, r: Reconciliation, i: ReconcileInput)
    requires Inv(b, w) && ValidReconciliation(r)
    ensures GoodTrace(b, Reconcile(w, b, r, i).trace) && Reconcile(w, b, r, i).trace[0] == w
    ensures Reconcile(w, b, r, i).result != RecordRefused
    ensures Reconcile(w, b, r, i).result.Reconciled? ==>
              var after := Last(Reconcile(w, b, r, i).trace);
              after.progress.Some? && r in after.progress.value.progress.reconciliations
  {
    assert GoodTrace(b, [w]);
    if IsLocal(b, r) && w.progress == Some(r.priorState) && !i.ownerBusy && !i.instanceBusy && !i.stopFile && !i.loadFails
       && SameId(w.progress.value.progress.reconciliations, r.id) == []
       && Barriers(r.priorState.progress.tasks) == [r.priorTask] && !i.evidenceFails
    {
      CloseStep(b, w, r);
      var p := r.priorState.progress;
      var next := p.(tasks := Closed(p.tasks, r), reconciliations := p.reconciliations + [r]);
      var saved := Saved(next, w.progress, r.reconciledAt);
      var after := w.(progress := Cas(w.progress, w.progress, saved, i.write).1);
      assert after == w || after == w.(progress := Some(saved));
      assert Extends(w, w);
      StepTrace(b, w, after);
    }
  }

  lemma {:induction false} SameIdNone(rs: seq<Reconciliation>, id: string)
    ensures SameId(rs, id) == [] <==> id !in ReconciliationIds(rs)
  {
    if rs != [] {
      SameIdNone(rs[1..], id);
      assert ReconciliationIds(rs) == [rs[0].id] + ReconciliationIds(rs[1..]);
    }
  }

  /** The task list with its last entry closed as failed. */
  function Closed(tasks: seq<TaskProgress>, r: Reconciliation): seq<TaskProgress>
    requires tasks != []
  {
    tasks[..|tasks| - 1] + [ClosedAs(r)]
  }

  lemma CloseTasks(tasks: seq<TaskProgress>, r: Reconciliation)
    requires TasksOk(tasks) && Barriers(tasks) == [r.priorTask]
    ensures tasks != [] && Last(tasks) == r.priorTask
    ensures Without(tasks, r.priorTask.messageId) + [ClosedAs(r)] == Closed(tasks, r)
    ensures TasksOk(Closed(tasks, r)) && IdSet(Closed(tasks, r)) == IdSet(tasks)
    ensures forall t | t in tasks && Settled(t) ::
              t in Closed(tasks, r) && (r.priorTask.disposition.Unresolved? ==> t.messageId != r.priorTask.messageId)
  {
    OnlyLastIsBarrier(tasks);
    WithoutLast(tasks);
    hide Without, Barriers;
    ClosedOk(tasks, r);
    forall t | t in tasks && Settled(t)
      ensures t in Closed(tasks, r) && (r.priorTask.disposition.Unresolved? ==> t.messageId != r.priorTask.messageId)
    {
      SettledStays(tasks, r, t);
    }
  }

  lemma ClosedOk(tasks: seq<TaskProgress>, r: Reconciliation)
    requires TasksOk(tasks) && tasks != [] && Last(tasks) == r.priorTask
    ensures TasksOk(Closed(tasks, r)) && IdSet(Closed(tasks, r)) == IdSet(tasks)
  {
    var init := tasks[..|tasks| - 1];
    assert tasks == init + [r.priorTask];
    IdsAppend(init, r.priorTask);
    IdsAppend(init, ClosedAs(r));
    assert Ids(Closed(tasks, r)) == Ids(tasks);
  }

  lemma SettledStays(tasks: seq<TaskProgress>, r: Reconciliation, t: TaskProgress)
    requires NoDup(Ids(tasks)) && tasks != [] && Last(tasks) == r.priorTask && IsBarrier(r.priorTask)
    requires t in tasks && Settled(t)
    ensures t in Closed(tasks, r) && t.messageId != r.priorTask.messageId
  {
    var k :| 0 <= k < |tasks| && tasks[k] == t;
    assert k < |tasks| - 1;
    assert Ids(tasks)[k] != Ids(tasks)[|tasks| - 1];
    assert Closed(tasks, r)[k] == t;
  }

  lemma CloseHistory(p: Progress, r: Reconciliation)
    requires TasksOk(p.tasks) && HistoryOk(p) && ValidReconciliation(r)
    requires Barriers(p.tasks) == [r.priorTask] && SameId(p.reconciliations, r.id) == []
    ensures p.tasks != []
    ensures HistoryOk(p.(tasks := Closed(p.tasks, r), reconciliations := p.reconciliations + [r]))
  {
    CloseTasks(p.tasks, r);
    var all := p.reconciliations + [r];
    forall id | id in ReconciledIds(p.reconciliations) ensures id != r.priorTask.messageId {
      var k :| 0 <= k < |p.reconciliations| && ReconciledIds(p.reconciliations)[k] == id;
      assert p.reconciliations[k] in p.reconciliations;
      assert Settled(ClosedAs(p.reconciliations[k])) && ClosedAs(p.reconciliations[k]) in p.tasks;
    }
    SameIdNone(p.reconciliations, r.id);
    assert ReconciliationIds(all) == ReconciliationIds(p.reconciliations) + [r.id];
    NoDupAppend(ReconciliationIds(p.reconciliations), r.id);
    assert ReconciledIds(all) == ReconciledIds(p.reconciliations) + [r.priorTask.messageId];
    NoDupAppend(ReconciledIds(p.reconciliations), r.priorTask.messageId);
    forall x | x in all ensures ValidReconciliation(x) && ClosedAs(x) in Closed(p.tasks, r) {
      if x != r {
        assert x in p.reconciliations && ClosedAs(x) in p.tasks && Settled(ClosedAs(x));
      } else {
        assert Last(Closed(p.tasks, r)) == ClosedAs(r);
      }
    }
  }

  /** Closing the sole barrier: the record is accepted and every earlier fact stays. */
  lemma CloseStep(b: Bindings, w: World, r: Reconciliation)
    requires Inv(b, w) && ValidReconciliation(r) && IsLocal(b, r) && w.progress == Some(r.priorState)
    requires SameId(r.priorState.progress.reconciliations, r.id) == []
    requires Barriers(r.priorState.progress.tasks) == [r.priorTask]
    ensures var p := r.priorState.progress;
            && p.tasks != []
            && var next := p.(tasks := Closed(p.tasks, r), reconciliations := p.reconciliations + [r]);
               && ReplaceProgress(p, None, Some(ClosedAs(r)), Some(r)) == Some(next)
               && forall at :: var after := w.(progress := Some(Saved(next, w.progress, at)));
                               Inv(b, after) && Extends(w, after)
  {
    var p := r.priorState.progress;
    CloseTasks(p.tasks, r);
    CloseHistory(p, r);
    hide HistoryOk, Barriers, SameId;
    var next := p.(tasks := Closed(p.tasks, r), reconciliations := p.reconciliations + [r]);
    ReconciliationsFit(next);
  }

  // ---------------------------------------------------------------- runs

  /** One action and the point of its trace at which the process stopped or died. */
  datatype Action =
    | Ticking(tick: TickInput, cut: nat)
    | Reconciling(request: Reconciliation, environment: ReconcileInput, cut: nat)

  predicate ValidAction(a: Action) {
    match a
    case Ticking(i, _) => ValidInput(i)
    case Reconciling(r, _, _) => ValidReconciliation(r)
  }

  function TraceOf(b: Bindings, w: World, a: Action): seq<World> {
    match a
    case Ticking(i, _) => Tick(w, b, i).trace
    case Reconciling(r, i, _) => Reconcile(w, b, r, i).trace
  }

  /** The world left behind: an element of the trace, the last one unless the process died earlier. */
  function After(b: Bindings, w: World, a: Action): World {
    var trace := TraceOf(b, w, a);
    if trace == [] then w else if a.cut < |trace| then trace[a.cut] else Last(trace)
  }

  ghost predicate IsRun(b: Bindings, ws: seq<World>, actions: seq<Action>) {
    && |ws| == |actions| + 1
    && ws[0] == World(None, [])
    && (forall k | 0 <= k < |actions| :: ValidAction(actions[k]))
    && (forall k | 0 <= k < |actions| :: ws[k + 1] == After(b, ws[k], actions[k]))
  }

  lemma {:induction false} TraceExtends(b: Bindings, trace: seq<World>, k: nat)
    requires GoodTrace(b, trace) && k < |trace|
    ensures Extends(trace[0], trace[k])
  {
    if k > 0 {
      TraceExtends(b, trace, k - 1);
      ExtendsTransitive(trace[0], trace[k - 1], trace[k]);
    }
  }

  lemma ActionGood(b: Bindings, w: World, a: Action)
    requires Inv(b, w) && ValidAction(a)
    ensures GoodTrace(b, TraceOf(b, w, a))
    ensures Inv(b, After(b, w, a)) && Extends(w, After(b, w, a))
  {
    match a {
      case Ticking(i, _) => TickGood(b, w, i);
      case Reconciling(r, i, _) => ReconcileGood(b, w, r, i);
    }
    var trace := TraceOf(b, w, a);
    TraceExtends(b, trace, if a.cut < |trace| then a.cut else |trace| - 1);
  }

  lemma {:induction false} RunKeepsInv(b: Bindings, ws: seq<World>, actions: seq<Action>, k: nat)
    requires IsRun(b, ws, actions) && k < |ws|
    ensures Inv(b, ws[k])
  {
    if k > 0 {
      hide After, TraceOf, Inv, Extends;
      RunKeepsInv(b, ws, actions, k - 1);
      ActionGood(b, ws[k - 1], actions[k - 1]);
    }
  }

  lemma {:induction false} RunExtends(b: Bindings, ws: seq<World>, actions: seq<Action>, j: nat, k: nat)
    requires IsRun(b, ws, actions) && j <= k < |ws|
    ensures Extends(ws[j], ws[k])
    decreases k
  {
    if j < k {
      hide After, TraceOf, Inv, Extends;
      RunExtends(b, ws, actions, j, k - 1);
      RunKeepsInv(b, ws, actions, k - 1);
      ActionGood(b, ws[k - 1], actions[k - 1]);
      ExtendsTransitive(ws[j], ws[k - 1], ws[k]);
    }
  }

  /**
   At-most-once delivery: over any run, no message ID is handed to a handler twice, also not inside a
   tick that later dies; and each single call is made while the durable record of its message says
   CLAIMED.
   */
  lemma HandlerCalledAtMostOnce(b: Bindings, ws: seq<World>, actions: seq<Action>)
    requires IsRun(b, ws, actions)
    ensures forall k | 0 <= k < |ws| :: NoDup(ws[k].calls)
    ensures forall k, j | 0 <= k < |actions| && 0 <= j < |TraceOf(b, ws[k], actions[k])| ::
              NoDup(TraceOf(b, ws[k], actions[k])[j].calls)
    ensures forall k, j | 0 <= k < |actions| && 0 <= j < |TraceOf(b, ws[k], actions[k])| - 1 ::
              CallsOnlyClaimed(TraceOf(b, ws[k], actions[k])[j], TraceOf(b, ws[k], actions[k])[j + 1])
  {
    forall k | 0 <= k < |ws| ensures NoDup(ws[k].calls) {
      RunKeepsInv(b, ws, actions, k);
    }
    forall k | 0 <= k < |actions| ensures GoodTrace(b, TraceOf(b, ws[k], actions[k])) {
      RunKeepsInv(b, ws, actions, k);
      ActionGood(b, ws[k], actions[k]);
    }
  }

  /** A durable COMPLETED record means the handler of that message ran and its reply was verified. */
  lemma CompletedMeansDelivered(b: Bindings, ws: seq<World>, actions: seq<Action>, k: nat, t: TaskProgress)
    requires IsRun(b, ws, actions) && k < |ws| && ws[k].progress.Some?
    requires t in ws[k].progress.value.progress.tasks && t.disposition.Completed?
    ensures t.messageId in ws[k].calls && t.replyState.Some?
  {
    RunKeepsInv(b, ws, actions, k);
  }

  /** Over any run the record keeps its bounds, and at most one task is a barrier: the last. */
  lemma RecordStaysBounded(b: Bindings, ws: seq<World>, actions: seq<Action>, k: nat)
    requires IsRun(b, ws, actions) && k < |ws| && ws[k].progress.Some?
    ensures var p := ws[k].progress.value.progress;
            && |p.tasks| <= MAX_RECORDS && |p.reconciliations| <= MAX_RECORDS
            && Barriers(p.tasks) == (if p.tasks != [] && IsBarrier(Last(p.tasks)) then [Last(p.tasks)] else [])
            && NoDup(ReconciledIds(p.reconciliations))
  {
    RunKeepsInv(b, ws, actions, k);
    OnlyLastIsBarrier(ws[k].progress.value.progress.tasks);
    ReconciliationsFit(ws[k].progress.value.progress);
  }

  /** Over any run handled messages, settled records and reconciliations only accumulate. */
  lemma HistoryOnlyGrows(b: Bindings, ws: seq<World>, actions: seq<Action>, j: nat, k: nat)
    requires IsRun(b, ws, actions) && j <= k < |ws| && ws[j].progress.Some?
    ensures ws[k].progress.Some?
    ensures var p, q := ws[j].progress.value.progress, ws[k].progress.value.progress;
            && p.reconciliations <= q.reconciliations
            && IdSet(p.tasks) <= IdSet(q.tasks)
            && forall t | t in p.tasks && Settled(t) :: t in q.tasks
  {
    RunExtends(b, ws, actions, j, k);
  }

  predicate Blocked(w: World) {
    w.progress.Some? && exists t | t in w.progress.value.progress.tasks :: IsBarrier(t)
  }

  /** A durable barrier stops a tick from calling a handler or changing progress. */
  lemma BarrierStopsTick(b: Bindings, w: World, i: TickInput)
    requires Blocked(w)
    ensures Tick(w, b, i).trace == [w]
  {
    NoBarriers(w.progress.value.progress.tasks);
    var t :| t in w.progress.value.progress.tasks && IsBarrier(t);
    var k :| 0 <= k < |w.progress.value.progress.tasks| && w.progress.value.progress.tasks[k] == t;
  }

  /** The one kind of barrier that can be reconciled: unresolved, for a message of the local repository. */
  predicate Closable(b: Bindings, t: TaskProgress) {
    t.disposition.Unresolved? && t.messageState.repository == b.localRepository
  }

  predicate BlockedForever(b: Bindings, w: World) {
    && w.progress.Some?
    && var tasks := w.progress.value.progress.tasks;
       tasks != [] && IsBarrier(Last(tasks)) && !Closable(b, Last(tasks))
  }

  /**
   A durable claim left by a dead tick, a permitted stop, and an unresolved task whose message was read from
   another repository can never be cleared: from then on no tick and no reconciliation changes anything.
   */
  lemma {:induction false} UnclosableIsForever(
    b: Bindings, ws: seq<World>, actions: seq<Action>, j: nat, k: nat)
    requires IsRun(b, ws, actions) && j <= k < |ws| && BlockedForever(b, ws[j])
    ensures ws[k] == ws[j]
    decreases k
  {
    hide After, Inv, BlockedForever, ValidAction;
    if j < k {
      UnclosableIsForever(b, ws, actions, j, k - 1);
      RunKeepsInv(b, ws, actions, k - 1);
      UnclosableStep(b, ws[k - 1], actions[k - 1]);
    }
  }

  lemma UnclosableStep(b: Bindings, w: World, a: Action)
    requires Inv(b, w) && ValidAction(a) && BlockedForever(b, w)
    ensures After(b, w, a) == w
  {
    var tasks := w.progress.value.progress.tasks;
    assert Last(tasks) in tasks && IsBarrier(Last(tasks));
    match a {
      case Ticking(i, _) =>
        BarrierStopsTick(b, w, i);
      case Reconciling(r, i, _) =>
        OnlyLastIsBarrier(tasks);
        assert Reconcile(w, b, r, i).trace == [w];
    }
  }

  // ---------------------------------------------------------------- what can be reconciled

  /** Nothing stands in the way of a reconciliation but the record itself. */
  predicate Works(i: ReconcileInput) {
    !i.ownerBusy && !i.instanceBusy && !i.stopFile && !i.loadFails && !i.evidenceFails && i.write.Healthy?
  }

  /** What a reconciliation must name: the present progress and its last task, under a new ID, all of it local. */
  predicate Names(b: Bindings, w: World, r: Reconciliation) {
    && IsLocal(b, r) && w.progress == Some(r.priorState)
    && r.id !in ReconciliationIds(r.priorState.progress.reconciliations)
    && r.priorState.progress.tasks != [] && Last(r.priorState.progress.tasks) == r.priorTask
  }

  /**
   With everything working a reconciliation goes through exactly if its ID is new, it names the present
   progress, its unresolved task is the barrier, which is then last, and both States are in the local
   repository. The reader is free afterwards.
   */
  lemma ReconciliationIsExact(b: Bindings, w: World, r: Reconciliation, i: ReconcileInput)
    requires Inv(b, w) && ValidReconciliation(r) && Works(i)
    ensures Reconcile(w, b, r, i).result.Reconciled? <==> Names(b, w, r)
    ensures Reconcile(w, b, r, i).result.Reconciled? ==>
              var after := Last(Reconcile(w, b, r, i).trace);
              after.progress.Some? && !Blocked(after) && ClosedAs(r) in after.progress.value.progress.tasks
  {
    if IsLocal(b, r) && w.progress == Some(r.priorState) {
      var p := r.priorState.progress;
      SameIdNone(p.reconciliations, r.id);
      OnlyLastIsBarrier(p.tasks);
      if SameId(p.reconciliations, r.id) == [] && Barriers(p.tasks) == [r.priorTask] {
        CloseStep(b, w, r);
        ClosedIsFree(p.tasks, r);
      }
    }
  }

  lemma ClosedIsFree(tasks: seq<TaskProgress>, r: Reconciliation)
    requires TasksOk(tasks) && tasks != []
    ensures forall t | t in Closed(tasks, r) :: !IsBarrier(t)
    ensures ClosedAs(r) in Closed(tasks, r)
  {
    assert Last(Closed(tasks, r)) == ClosedAs(r);
  }

  /** The k-th of 289 two-letter identifiers. */
  function Label(k: nat): string
    requires k < 289
  {
    ['a' + (k / 17) as char, 'a' + (k % 17) as char]
  }

  /** A record of at most 256 reconciliations leaves a short ID free. */
  lemma FreeId(ids: seq<string>) returns (id: string)
    requires |ids| <= MAX_RECORDS
    ensures id !in ids && |id| == 2
  {
    var labels := seq(289, k requires 0 <= k < 289 => Label(k));
    forall i, j | 0 <= i < j < |labels| ensures labels[i] != labels[j] {
      assert i == 17 * (i / 17) + i % 17 && j == 17 * (j / 17) + j % 17;
      assert (Label(i)[0] as int - 'a' as int, Label(i)[1] as int - 'a' as int) == (i / 17, i % 17);
      assert (Label(j)[0] as int - 'a' as int, Label(j)[1] as int - 'a' as int) == (j / 17, j % 17);
    }
    if forall x | x in labels :: x in ids {
      NoDupFits(labels, ids);
    }
    id :| id in labels && id !in ids;
  }

  /** Some valid reconciliation clears the barrier. */
  ghost predicate Reconcilable(b: Bindings, w: World) {
    exists r, i | ValidReconciliation(r) && Works(i) :: Clears(b, w, r, i)
  }

  ghost predicate Clears(b: Bindings, w: World, r: Reconciliation, i: ReconcileInput) {
    Reconcile(w, b, r, i).result.Reconciled? && !Blocked(Last(Reconcile(w, b, r, i).trace))
  }

  lemma BarrierIsLast(b: Bindings, w: World)
    requires Inv(b, w) && Blocked(w)
    ensures w.progress.value.progress.tasks != [] && IsBarrier(Last(w.progress.value.progress.tasks))
  {
    var tasks := w.progress.value.progress.tasks;
    var t :| t in tasks && IsBarrier(t);
    var k :| 0 <= k < |tasks| && tasks[k] == t;
  }

  /**
   The exact condition: a blocked reader can be freed if and only if its barrier says UNRESOLVED and the
   message it stands for was read from the local repository. Every other barrier leaves it blocked for good.
   */
  lemma FreedIffClosable(b: Bindings, w: World)
    requires Inv(b, w) && Blocked(w)
    ensures w.progress.value.progress.tasks != []
    ensures Reconcilable(b, w) <==> Closable(b, Last(w.progress.value.progress.tasks))
    ensures Reconcilable(b, w) <==> !BlockedForever(b, w)
  {
    BarrierIsLast(b, w);
    if Closable(b, Last(w.progress.value.progress.tasks)) {
      ClosableIsFreed(b, w);
    }
    hide Inv, Reconcile, Blocked;
    forall r, i | ValidReconciliation(r) && Works(i) && Clears(b, w, r, i)
      ensures Closable(b, Last(w.progress.value.progress.tasks))
    {
      ReconciliationIsExact(b, w, r, i);
    }
  }

  lemma RoomForOne(b: Bindings, w: World)
    requires Inv(b, w) && w.progress.Some?
    ensures |w.progress.value.progress.reconciliations| <= MAX_RECORDS
  {
    ReconciliationsFit(w.progress.value.progress);
  }

  lemma ClosableIsFreed(b: Bindings, w: World)
    requires Inv(b, w) && w.progress.Some? && w.progress.value.progress.tasks != []
    requires Closable(b, Last(w.progress.value.progress.tasks))
    ensures Reconcilable(b, w)
  {
    hide Inv, Reconcile, Blocked;
    var saved := w.progress.value;
    var p := saved.progress;
    RoomForOne(b, w);
    var id := FreeId(ReconciliationIds(p.reconciliations));
    var r := Reconciliation(id, b.localRepository, saved, Last(p.tasks), "reviewed", ["evidence"], 0);
    var i := ReconcileInput(false, false, false, false, false, Healthy);
    assert Names(b, w, r);
    ReconciliationIsExact(b, w, r, i);
    assert Clears(b, w, r, i);
  }

  /** A tick at one source in `repository`, whose one task for `b` is handed to a handler that cannot tell how it ended. */
  function UnsettledTick(b: Bindings, repository: string): TickInput {
    var m := Message("m", Kind.Task, "peer", b.environment, "t", "work", 0);
    TickInput(
      false, false, false, Policy([Route("work", "handler")], 1, false), {"handler"},
      [Read(repository, "refs/heads/messages", Some("c"), [Published(m, MessageState(repository, "c"))])],
      Healthy, Healthy, Returns(HandlerResult(Unresolved, false, false)), NoCheckpoint, Verified("reply"), Healthy, 0, 1)
  }

  /** Where one such tick leaves a new reader. */
  function Unsettled(b: Bindings, repository: string): World {
    After(b, World(None, []), Ticking(UnsettledTick(b, repository), 9))
  }

  lemma OneMessage(environment: string, source: SourceRead, p: Published)
    requires source.Read? && source.messages == [p] && ToReader(environment, p)
    ensures FirstUnreadable([source]).None? && |Tips([source])| <= 1
    ensures Received(environment, [source]) == [p]
    ensures Unhandled({}, [p]) == [p] && StableSort([p]) == [p]
  {
    assert [source][1..] == [] && [source][..0] == [] && [p][1..] == [];
    assert Addressed(environment, [p]) == [p];
    assert Received(environment, []) == [] && [] + [p] == [p];
  }

  /** A record of one task, written or overwritten. */
  lemma OneRecord(p: Progress, t: TaskProgress)
    requires p.reconciliations == [] && |p.cursors| <= 1
    requires p.tasks == [] || (|p.tasks| == 1 && p.tasks[0].messageId == t.messageId)
    ensures ReplaceProgress(p, None, Some(t), None) == Some(p.(tasks := [t]))
  {
    if p.tasks != [] {
      assert p.tasks[1..] == [];
    }
    assert Without(p.tasks, t.messageId) == [];
    assert [] + [t] == [t];
    var empty: seq<Reconciliation> := [];
    assert empty + [] == empty;
  }

  /** The claim and the final record of the one message of a new reader. */
  lemma ClaimedAndUnresolved(b: Bindings, p: Published, i: TickInput, refreshed: Progress)
    requires refreshed.tasks == [] && refreshed.reconciliations == [] && |refreshed.cursors| <= 1
    requires p.message.kind.Task? && i.policy.routes == [Route(p.message.purpose, "handler")] && "handler" in i.registered
    requires i.claimWrite.Healthy? && i.finalWrite.Healthy? && i.reply.Verified? && i.memory.NoCheckpoint?
    requires i.handler == Returns(HandlerResult(Unresolved, false, false))
    ensures var t := ClaimAndRun(World(None, []), refreshed, p, i);
            && |t.trace| == 4 && Last(t.trace).progress.Some?
            && Last(t.trace).progress.value.progress.tasks
               == [TaskProgress(p.state, p.message.id, p.message.taskId, Unresolved, Some(i.reply.state), None)]
  {
    var w := World(None, []);
    hide ReplaceProgress, Without;
    OneRecord(refreshed, Claim(p));
    var claimed := Saved(refreshed.(tasks := [Claim(p)]), None, i.startedAt);
    var durable := World(Some(claimed), []);
    assert Cas(None, None, claimed, i.claimWrite) == (true, Some(claimed));
    var record := TaskProgress(p.state, p.message.id, p.message.taskId, Unresolved, Some(i.reply.state), None);
    OneRecord(claimed.progress, record);
    var final := Saved(refreshed.(tasks := [record]), Some(claimed), i.finishedAt);
    var called := World(Some(claimed), [p.message.id]);
    assert Finish(called, claimed, p, Some("handler"), HandlerResult(Unresolved, false, false), i).trace
        == [called, called.(progress := Some(final))];
    assert Decide(i.policy, i.registered, p.message) == (Some("handler"), None);
    assert durable.calls + [p.message.id] == called.calls;
    assert Dispatch(durable, claimed, p, i).trace == [durable] + [called, called.(progress := Some(final))];
    assert ClaimAndRun(w, refreshed, p, i).trace == [w] + ([durable] + [called, called.(progress := Some(final))]);
  }

  lemma UnsettledTickBlocks(b: Bindings, repository: string)
    ensures ValidInput(UnsettledTick(b, repository))
    ensures var w := Unsettled(b, repository);
            && w.progress.Some? && |w.progress.value.progress.tasks| == 1
            && var t := Last(w.progress.value.progress.tasks);
               t.disposition.Unresolved? && t.messageState == MessageState(repository, "c")
  {
    var i := UnsettledTick(b, repository);
    var p := Published(Message("m", Kind.Task, "peer", b.environment, "t", "work", 0), MessageState(repository, "c"));
    assert i.sources[0].messages == [p];
    OneMessage(b.environment, i.sources[0], p);
    var empty := Progress(b.environment, b.instance, [], [], []);
    var refreshed := empty.(cursors := Tips(i.sources));
    assert ReplaceProgress(empty, Some(Tips(i.sources)), None, None) == Some(refreshed);
    ClaimedAndUnresolved(b, p, i, refreshed);
    hide ReplaceProgress, Tips, Received, FirstUnreadable, ClaimAndRun, StableSort, Unhandled;
    assert IdSet([]) == {};
    assert Tick(World(None, []), b, i) == ClaimAndRun(World(None, []), refreshed, p, i);
  }

  /**
   One reachable state, two outcomes: after its first tick left a task unresolved, the reader can be freed
   if and only if the source of the message is in the local repository.
   */
  lemma ForeignTaskIsStuck(b: Bindings, repository: string)
    ensures Inv(b, Unsettled(b, repository)) && Blocked(Unsettled(b, repository))
    ensures Reconcilable(b, Unsettled(b, repository)) <==> repository == b.localRepository
  {
    UnsettledTickBlocks(b, repository);
    var a := Ticking(UnsettledTick(b, repository), 9);
    ActionGood(b, World(None, []), a);
    var w := Unsettled(b, repository);
    assert Last(w.progress.value.progress.tasks) in w.progress.value.progress.tasks;
    FreedIffClosable(b, w);
  }

  lemma {:induction false} UniqueRecord(rs: seq<Reconciliation>, r: Reconciliation)
    requires NoDup(ReconciliationIds(rs)) && r in rs
    ensures SameId(rs, r.id) == [r]
  {
    var rest := rs[1..];
    assert ReconciliationIds(rs) == [rs[0].id] + ReconciliationIds(rest);
    forall i, j | 0 <= i < j < |rest| ensures ReconciliationIds(rest)[i] != ReconciliationIds(rest)[j] {
      assert ReconciliationIds(rs)[i + 1] != ReconciliationIds(rs)[j + 1];
    }
    if rs[0] == r {
      SameIdNone(rest, r.id);
      forall k | 0 <= k < |rest| ensures ReconciliationIds(rest)[k] != r.id {
        assert ReconciliationIds(rs)[0] != ReconciliationIds(rs)[k + 1];
      }
    } else {
      UniqueRecord(rest, r);
      var k :| 0 <= k < |rest| && rest[k] == r;
      assert ReconciliationIds(rs)[k + 1] == r.id && ReconciliationIds(rs)[0] == rs[0].id;
    }
  }

  lemma {:induction false} FoundTask(tasks: seq<TaskProgress>, t: TaskProgress)
    requires NoDup(Ids(tasks)) && t in tasks
    ensures FindTask(tasks, t.messageId) == Some(t)
  {
    if tasks[0] != t {
      var rest := tasks[1..];
      forall i, j | 0 <= i < j < |rest| ensures Ids(rest)[i] != Ids(rest)[j] {
        assert Ids(rest)[i] == Ids(tasks)[i + 1] && Ids(rest)[j] == Ids(tasks)[j + 1];
      }
      FoundTask(rest, t);
      var k :| 0 <= k < |rest| && rest[k] == t;
      assert Ids(tasks)[k + 1] == t.messageId && Ids(tasks)[0] == tasks[0].messageId;
    }
  }

  /**
   Repeating an applied reconciliation, after any later ticks and reconciliations, is acknowledged and
   changes nothing.
   */
  lemma ReconciliationIsRepeatable(
    b: Bindings, ws: seq<World>, actions: seq<Action>, j: nat, k: nat, r: Reconciliation, i: ReconcileInput)
    requires IsRun(b, ws, actions) && j <= k < |ws|
    requires ws[j].progress.Some? && r in ws[j].progress.value.progress.reconciliations
    requires !i.ownerBusy && !i.instanceBusy && !i.stopFile && !i.loadFails
    ensures Reconcile(ws[k], b, r, i) == Attempted([ws[k]], AlreadyApplied)
  {
    RunExtends(b, ws, actions, j, k);
    RunKeepsInv(b, ws, actions, k);
    var p := ws[k].progress.value.progress;
    assert r in p.reconciliations;
    UniqueRecord(p.reconciliations, r);
    FoundTask(p.tasks, ClosedAs(r));
  }

  /**
   The status flag work_invoked says that a route matched, not that a handler ran: after a durable claim
   and a buildable reply it differs from the calls exactly when the route names an unregistered handler.
   */
  lemma WorkInvokedOverstates(w: World, claimed: Saved, selected: Published, i: TickInput)
    requires !i.reply.ReplyUnbuildable?
    ensures var t := Dispatch(w, claimed, selected, i);
            var name := HandlerFor(i.policy.routes, selected.message.purpose);
            && t.status.Status?
            && (t.status.workInvoked != (Last(t.trace).calls != w.calls)
                <==> !selected.message.kind.Stop? && name.Some? && name.value !in i.registered)
  {
    var t := Dispatch(w, claimed, selected, i);
    if !Decide(i.policy, i.registered, selected.message).1.Some? {
      assert Last(t.trace).calls == w.calls + [selected.message.id];
      assert |w.calls + [selected.message.id]| != |w.calls|;
    }
  }
}
