/**
 Progress through an undisturbed inbox: which message each tick takes, for how many ticks, and what
 the later ticks report.
 */
module WorkCycleOrder {
  import opened Common
  import opened Refs
  import opened Inbox
  import opened WorkCycle
  import opened WorkCycleRuns

  /** The first message of every ID, sorted by (created_at, message_id). */
  function Queue(b: Bindings, i: TickInput): seq<Published> {
    FirstOfEachId(StableSort(Received(b.environment, i.sources)))
  }

  /** Nothing goes wrong in this tick, and it meets no permitted stop. */
  predicate Smooth(b: Bindings, i: TickInput) {
    && ValidInput(i) && i.startedAt <= i.finishedAt
    && !i.stopFile && !i.instanceBusy && !i.loadFails
    && FirstUnreadable(i.sources).None? && NoDup(CursorKeys(Tips(i.sources)))
    && i.idleWrite.Healthy? && i.claimWrite.Healthy? && i.finalWrite.Healthy?
    && i.handler.Returns? && (i.handler.result.disposition.Completed? || i.handler.result.disposition.Failed?)
    && !i.memory.CheckpointRaises? && i.reply.Verified?
    && (i.policy.allowStop ==> forall p | p in Received(b.environment, i.sources) :: !p.message.kind.Stop?)
  }

  function Tasks(w: World): seq<TaskProgress> {
    if w.progress.Some? then w.progress.value.progress.tasks else []
  }

  /** The settled records of exactly the first `k` messages of the queue, in queue order. */
  ghost predicate Handled(b: Bindings, w: World, queue: seq<Published>, k: nat) {
    && Inv(b, w)
    && k <= |queue| && |Tasks(w)| == k
    && (forall j | 0 <= j < k :: Tasks(w)[j].messageId == queue[j].message.id && Settled(Tasks(w)[j]))
  }

  lemma HandledIds(b: Bindings, w: World, queue: seq<Published>, k: nat)
    requires Handled(b, w, queue, k)
    ensures IdSet(Tasks(w)) == MessageIds(queue[..k])
  {
    forall id | id in IdSet(Tasks(w)) ensures id in MessageIds(queue[..k]) {
      var j :| 0 <= j < k && Tasks(w)[j].messageId == id;
      assert queue[..k][j] in queue[..k];
    }
    forall id | id in MessageIds(queue[..k]) ensures id in IdSet(Tasks(w)) {
      var j :| 0 <= j < k && queue[..k][j].message.id == id;
      assert Tasks(w)[j] in Tasks(w);
    }
  }

  lemma CandidatesAfter(b: Bindings, w: World, i: TickInput, k: nat)
    requires Handled(b, w, Queue(b, i), k)
    ensures var queue := Queue(b, i);
            var sorted := StableSort(Unhandled(IdSet(Tasks(w)), Received(b.environment, i.sources)));
            && (k < |queue| ==> sorted != [] && sorted[0] == queue[k])
            && (k == |queue| ==> sorted == [])
  {
    var received := Received(b.environment, i.sources);
    HandledIds(b, w, Queue(b, i), k);
    SortCommutesWithUnhandled(IdSet(Tasks(w)), received);
    RemainderAfter(StableSort(received), k);
  }

  lemma SortEmpty(s: seq<Published>)
    ensures StableSort(s) == [] <==> s == []
  {
    SortSorts(s);
    assert |multiset(StableSort(s))| == |StableSort(s)| && |multiset(s)| == |s|;
  }

  lemma SmoothFinish(
    b: Bindings, w: World, claimed: Saved, selected: Published, handlerName: Option<string>, handled: HandlerResult,
    i: TickInput)
    requires Smooth(b, i) && Inv(b, w) && w.progress == Some(claimed)
    requires var tasks := claimed.progress.tasks; tasks != [] && Last(tasks) == Claim(selected)
    requires handled.disposition.Completed? || handled.disposition.Failed?
    requires handled.disposition.Completed? ==> selected.message.id in w.calls
    ensures var t := Finish(w, claimed, selected, handlerName, handled, i);
            var before, after := claimed.progress.tasks, Tasks(Last(t.trace));
            && t.trace != [] && |after| == |before| && after[..|after| - 1] == before[..|before| - 1]
            && Last(after).messageId == selected.message.id && Settled(Last(after))
            && t.status.Status? && t.status.messageState == Some(selected.state) && t.status.code.Final?
  {
    var (result, memoryState) := AfterMemory(handled, i.memory);
    var record := TaskProgress(
      selected.state, selected.message.id, selected.message.taskId, result.disposition, Some(i.reply.state), memoryState);
    FinalStep(b, w, claimed, record);
  }

  lemma SmoothDispatch(b: Bindings, w: World, claimed: Saved, selected: Published, i: TickInput)
    requires Smooth(b, i) && Inv(b, w) && w.progress == Some(claimed)
    requires var tasks := claimed.progress.tasks; tasks != [] && Last(tasks) == Claim(selected)
    requires selected.message.id !in w.calls
    requires i.policy.allowStop ==> !selected.message.kind.Stop?
    ensures var t := Dispatch(w, claimed, selected, i);
            var before, after := claimed.progress.tasks, Tasks(Last(t.trace));
            && t.trace != [] && t.trace[0] == w
            && |after| == |before| && after[..|after| - 1] == before[..|before| - 1]
            && Last(after).messageId == selected.message.id && Settled(Last(after))
            && t.status.Status? && t.status.messageState == Some(selected.state) && t.status.code.Final?
  {
    var (handlerName, decided) := Decide(i.policy, i.registered, selected.message);
    if decided.Some? {
      SmoothFinish(b, w, claimed, selected, handlerName, decided.value, i);
      FinishStarts(w, claimed, selected, handlerName, decided.value, i);
    } else {
      var called := w.(calls := w.calls + [selected.message.id]);
      NoDupAppend(w.calls, selected.message.id);
      assert Last(claimed.progress.tasks) in claimed.progress.tasks;
      SmoothFinish(b, called, claimed, selected, handlerName, i.handler.result, i);
    }
  }

  function Refreshed(b: Bindings, w: World, i: TickInput): Progress {
    Known(w, b).(cursors := Tips(i.sources))
  }

  /** Settled records neither stop a tick nor leave it short of the count, and the refresh goes through. */
  lemma SmoothStart(b: Bindings, w: World, i: TickInput)
    requires Smooth(b, i) && Inv(b, w)
    requires forall k | 0 <= k < |Tasks(w)| :: Settled(Tasks(w)[k])
    ensures var p := Known(w, b);
            && p.environment == b.environment && p.instance == b.instance
            && p.tasks == Tasks(w) && Barriers(p.tasks) == [] && Done(p.tasks) == |p.tasks|
            && ReplaceProgress(p, Some(Tips(i.sources)), None, None) == Some(Refreshed(b, w, i))
            && ProgressOk(b, Refreshed(b, w, i)) && Refreshed(b, w, i).tasks == p.tasks
  {
    var p := Known(w, b);
    assert ProgressOk(b, p);
    forall k | 0 <= k < |p.tasks| ensures !IsBarrier(p.tasks[k]) {
      assert Settled(Tasks(w)[k]);
    }
    NoBarriers(p.tasks);
    AllDone(p.tasks);
    RefreshStep(b, p, i.sources);
  }

  /** With every record settled, a smooth tick either has no room left or takes the first of the sorted candidates. */
  lemma SmoothTick(b: Bindings, w: World, i: TickInput)
    requires Smooth(b, i) && Inv(b, w)
    requires forall k | 0 <= k < |Tasks(w)| :: Settled(Tasks(w)[k])
    ensures var candidates := Unhandled(IdSet(Tasks(w)), Received(b.environment, i.sources));
            && ProgressOk(b, Refreshed(b, w, i))
            && (|Tasks(w)| >= i.policy.maximumCompleted ==>
                  Tick(w, b, i) == Ticked([w], Quiet(Exhausted, w.progress)))
            && (|Tasks(w)| < i.policy.maximumCompleted && candidates != [] ==>
                  && StableSort(candidates) != []
                  && Tick(w, b, i) == ClaimAndRun(w, Refreshed(b, w, i), StableSort(candidates)[0], i))
  {
    SmoothStart(b, w, i);
    hide Inv, ProgressOk, Settled, ReplaceProgress, Refreshed, ClaimAndRun, Barriers, Done, Cas;
    SortEmpty(Unhandled(IdSet(Tasks(w)), Received(b.environment, i.sources)));
    hide Unhandled, Received, IdSet, StableSort, Tips, CursorKeys, FirstUnreadable;
  }

  /** With nothing new to claim it reports idle, and refreshes the cursors at most. */
  lemma SmoothIdle(b: Bindings, w: World, i: TickInput)
    requires Smooth(b, i) && Inv(b, w)
    requires forall k | 0 <= k < |Tasks(w)| :: Settled(Tasks(w)[k])
    requires |Tasks(w)| < i.policy.maximumCompleted
    requires Unhandled(IdSet(Tasks(w)), Received(b.environment, i.sources)) == []
    ensures var t := Tick(w, b, i);
            && t.trace != [] && Tasks(Last(t.trace)) == Tasks(w)
            && Last(t.trace).progress.Some? && Last(t.trace).progress.value.progress.cursors == Tips(i.sources)
            && t.status.Status? && t.status.code == Idle
  {
    SmoothStart(b, w, i);
    var p, next := Known(w, b), Refreshed(b, w, i);
    assert Tick(w, b, i)
        == if w.progress.Some? && next == p then Ticked([w], Quiet(Idle, w.progress))
           else var saved := Saved(next, w.progress, i.startedAt);
                Ticked([w, w.(progress := Some(saved))], Quiet(Idle, Some(saved)))
    by {
      hide Inv, ProgressOk, Settled, ReplaceProgress, Refreshed, ClaimAndRun, Barriers, Done;
      hide Unhandled, Received, IdSet, StableSort, Tips, CursorKeys, FirstUnreadable;
    }
    hide Tick, Smooth, Inv, ProgressOk;
  }

  /** A smooth claim settles the claimed message behind the records there were. */
  lemma SmoothClaim(b: Bindings, w: World, i: TickInput, selected: Published)
    requires Smooth(b, i) && Inv(b, w) && ProgressOk(b, Refreshed(b, w, i))
    requires forall k | 0 <= k < |Tasks(w)| :: Settled(Tasks(w)[k])
    requires |Tasks(w)| < MAX_RECORDS && selected.message.id !in IdSet(Tasks(w))
    requires i.policy.allowStop ==> !selected.message.kind.Stop?
    ensures var t := ClaimAndRun(w, Refreshed(b, w, i), selected, i);
            && |t.trace| > 1 && Tasks(t.trace[1]) == Tasks(w) + [Claim(selected)]
            && var after := Tasks(Last(t.trace));
            && |after| == |Tasks(w)| + 1 && after[..|Tasks(w)|] == Tasks(w)
            && Last(after).messageId == selected.message.id && Settled(Last(after))
            && t.status.Status? && t.status.messageState == Some(selected.state) && t.status.code.Final?
  {
    var refreshed := Refreshed(b, w, i);
    ClaimStep(b, w, refreshed, selected);
    var saved := Saved(refreshed.(tasks := Tasks(w) + [Claim(selected)]), w.progress, i.startedAt);
    var claimed := w.(progress := Some(saved));
    assert Cas(w.progress, w.progress, saved, i.claimWrite) == (true, Some(saved));
    var rest := Dispatch(claimed, saved, selected, i);
    assert ClaimAndRun(w, refreshed, selected, i) == Ticked([w] + rest.trace, rest.status);
    hide ClaimAndRun, ReplaceProgress, Cas;
    SmoothDispatch(b, claimed, saved, selected, i);
    hide Smooth, Inv, ProgressOk;
    DispatchStarts(claimed, saved, selected, i);
    hide Dispatch;
  }

  /** One tick takes exactly the next message of the queue and settles it. */
  lemma NextInQueue(b: Bindings, w: World, i: TickInput, k: nat)
    requires Smooth(b, i) && Handled(b, w, Queue(b, i), k)
    requires k < |Queue(b, i)| && k < i.policy.maximumCompleted
    ensures var t, queue := Tick(w, b, i), Queue(b, i);
            && |t.trace| > 1 && Tasks(t.trace[1]) == Tasks(w) + [Claim(queue[k])]
            && Handled(b, Last(t.trace), queue, k + 1)
            && t.status.Status? && t.status.messageState == Some(queue[k].state) && t.status.code.Final?
  {
    var queue := Queue(b, i);
    var received := Received(b.environment, i.sources);
    CandidatesAfter(b, w, i, k);
    SortEmpty(Unhandled(IdSet(Tasks(w)), received));
    SelectedIsNew(IdSet(Tasks(w)), received);
    SmoothTick(b, w, i);
    SmoothClaim(b, w, i, queue[k]);
    TickGood(b, w, i);
    var after := Tasks(Last(Tick(w, b, i).trace));
    forall j | 0 <= j < k + 1 ensures after[j].messageId == queue[j].message.id && Settled(after[j]) {
      if j < k {
        assert after[..k][j] == Tasks(w)[j];
      }
    }
  }

  /** Once the queue or the budget is used up, a tick only reports it. */
  lemma NothingLeft(b: Bindings, w: World, i: TickInput, k: nat)
    requires Smooth(b, i) && Handled(b, w, Queue(b, i), k)
    requires k == |Queue(b, i)| || k >= i.policy.maximumCompleted
    ensures var t := Tick(w, b, i);
            && t.trace != [] && Handled(b, Last(t.trace), Queue(b, i), k) && Tasks(Last(t.trace)) == Tasks(w)
            && t.status.Status?
            && t.status.code == if k >= i.policy.maximumCompleted then Exhausted else Idle
  {
    TickGood(b, w, i);
    if k < i.policy.maximumCompleted {
      CandidatesAfter(b, w, i, k);
      SortEmpty(Unhandled(IdSet(Tasks(w)), Received(b.environment, i.sources)));
      SmoothIdle(b, w, i);
    } else {
      SmoothTick(b, w, i);
    }
  }

  /** Undisturbed ticks of one reader over fixed sources and policy. */
  ghost predicate IsQuietRun(b: Bindings, ws: seq<World>, inputs: seq<TickInput>) {
    && |ws| == |inputs| + 1 && inputs != []
    && ws[0] == World(None, [])
    && (forall n | 0 <= n < |inputs| ::
          Smooth(b, inputs[n]) && inputs[n].sources == inputs[0].sources && inputs[n].policy == inputs[0].policy)
    && (forall n | 0 <= n < |inputs| :: Tick(ws[n], b, inputs[n]).trace != [])
    && (forall n | 0 <= n < |inputs| :: ws[n + 1] == Last(Tick(ws[n], b, inputs[n]).trace))
  }

  function Min(a: nat, b: nat): nat {
    if a < b then a else b
  }

  lemma {:induction false} QuietRunHandles(b: Bindings, ws: seq<World>, inputs: seq<TickInput>, n: nat)
    requires IsQuietRun(b, ws, inputs) && n < |ws|
    ensures var queue := Queue(b, inputs[0]);
            Handled(b, ws[n], queue, Min(n, Min(inputs[0].policy.maximumCompleted, |queue|)))
  {
    if n > 0 {
      QuietRunHandles(b, ws, inputs, n - 1);
      var queue, i := Queue(b, inputs[0]), inputs[n - 1];
      var k := Min(n - 1, Min(i.policy.maximumCompleted, |queue|));
      assert Queue(b, i) == queue;
      if k < |queue| && k < i.policy.maximumCompleted {
        NextInQueue(b, ws[n - 1], i, k);
      } else {
        NothingLeft(b, ws[n - 1], i, k);
      }
    }
  }

  /**
   The n-th tick claims the n-th distinct addressed message in (created_at, message_id) order, for as many
   ticks as there are messages or the policy allows; every later tick reports exhausted or idle.
   */
  lemma TicksFollowTheQueue(b: Bindings, ws: seq<World>, inputs: seq<TickInput>, n: nat)
    requires IsQuietRun(b, ws, inputs) && n < |inputs|
    ensures var queue, maximum, t := Queue(b, inputs[0]), inputs[0].policy.maximumCompleted, Tick(ws[n], b, inputs[n]);
            && t.status.Status?
            && (n < Min(maximum, |queue|) ==>
                  && |t.trace| > 1 && Tasks(t.trace[1]) == Tasks(ws[n]) + [Claim(queue[n])]
                  && t.status.messageState == Some(queue[n].state) && t.status.code.Final?)
            && (n >= Min(maximum, |queue|) ==>
                  && Tasks(ws[n + 1]) == Tasks(ws[n])
                  && t.status.code == if maximum <= |queue| then Exhausted else Idle)
  {
    QuietRunHandles(b, ws, inputs, n);
    var queue, i := Queue(b, inputs[0]), inputs[n];
    var k := Min(n, Min(i.policy.maximumCompleted, |queue|));
    assert Queue(b, i) == queue;
    if k < |queue| && k < i.policy.maximumCompleted {
      NextInQueue(b, ws[n], i, k);
    } else {
      NothingLeft(b, ws[n], i, k);
    }
  }
}
