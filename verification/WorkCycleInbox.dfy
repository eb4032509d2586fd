/**
 What a tick reads: which messages of its sources it ever takes, in which order, and which tips it records.
 */
module WorkCycleInbox {
  import opened Common
  import opened Refs
  import opened Inbox
  import opened WorkCycle
  import opened WorkCycleRuns
  import opened WorkCycleOrder

  /** Some readable source holds this task or stop for the reader. */
  predicate Sent(b: Bindings, sources: seq<SourceRead>, p: Published) {
    exists k | 0 <= k < |sources| :: SentIn(b, sources[k], p)
  }

  predicate SentIn(b: Bindings, source: SourceRead, p: Published) {
    && source.Read? && p in source.messages && p.message.recipient == b.environment
    && (p.message.kind.Task? || p.message.kind.Stop?)
  }

  lemma {:induction false} AddressedExactly(environment: string, s: seq<Published>, p: Published)
    ensures p in Addressed(environment, s) <==> p in s && p.message.recipient == environment && !p.message.kind.Reply?
  {
    if s != [] {
      AddressedExactly(environment, s[1..], p);
      assert s == [s[0]] + s[1..];
    }
  }

  lemma {:induction false} ReceivedExactly(b: Bindings, sources: seq<SourceRead>, p: Published)
    ensures p in Received(b.environment, sources) <==> Sent(b, sources, p)
  {
    if sources != [] {
      var init, last := sources[..|sources| - 1], Last(sources);
      ReceivedExactly(b, init, p);
      if last.Read? {
        AddressedExactly(b.environment, last.messages, p);
      }
      hide Addressed, Received;
      assert SentIn(b, last, p) <==> last.Read? && p in Addressed(b.environment, last.messages);
      SentLast(b, sources, p);
      ReceivedLast(b.environment, sources);
    }
  }

  lemma SentLast(b: Bindings, sources: seq<SourceRead>, p: Published)
    requires sources != []
    ensures Sent(b, sources, p) <==> Sent(b, sources[..|sources| - 1], p) || SentIn(b, Last(sources), p)
  {
    var init := sources[..|sources| - 1];
    if k :| 0 <= k < |init| && SentIn(b, init[k], p) {
      assert SentIn(b, sources[k], p);
    }
    if k :| 0 <= k < |sources| && SentIn(b, sources[k], p) {
      assert k < |init| ==> SentIn(b, init[k], p);
    }
  }

  lemma ReceivedLast(environment: string, sources: seq<SourceRead>)
    requires sources != []
    ensures Received(environment, sources)
            == Received(environment, sources[..|sources| - 1])
               + if Last(sources).Read? then Addressed(environment, Last(sources).messages) else []
  {
  }

  /** The messages with one sort key, in the order in which they are met. */
  function WithKey(s: seq<Published>, createdAt: int, id: string): seq<Published> {
    if s == [] then []
    else (if HasKey(s[0], createdAt, id) then [s[0]] else []) + WithKey(s[1..], createdAt, id)
  }

  predicate HasKey(p: Published, createdAt: int, id: string) {
    p.message.createdAt == createdAt && p.message.id == id
  }

  lemma {:induction false} InsertKeepsOrder(x: Published, s: seq<Published>, createdAt: int, id: string)
    ensures WithKey(Insert(x, s), createdAt, id) == WithKey([x] + s, createdAt, id)
  {
    assert ([x] + s)[1..] == s;
    if s != [] && Before(s[0], x) {
      InsertKeepsOrder(x, s[1..], createdAt, id);
      assert ([x] + s[1..])[1..] == s[1..];
      assert Insert(x, s)[1..] == Insert(x, s[1..]);
      if HasKey(x, createdAt, id) && HasKey(s[0], createdAt, id) {
        LexAsymmetric(x.message.id, x.message.id);
      }
    } else {
      assert Insert(x, s) == [x] + s;
    }
  }

  /** Equal keys keep the order of the sources: of two commits with one message the first one met counts. */
  lemma {:induction false} SortIsStable(s: seq<Published>, createdAt: int, id: string)
    ensures WithKey(StableSort(s), createdAt, id) == WithKey(s, createdAt, id)
  {
    if s != [] {
      var rest := StableSort(s[1..]);
      SortIsStable(s[1..], createdAt, id);
      InsertKeepsOrder(s[0], rest, createdAt, id);
      assert ([s[0]] + rest)[1..] == rest;
    }
  }

  lemma {:induction false} UnhandledSorted(handled: set<string>, s: seq<Published>)
    requires Sorted(s)
    ensures Sorted(Unhandled(handled, s))
  {
    if s != [] {
      var rest := s[1..];
      assert forall i, j | 0 <= i < j < |rest| :: rest[i] == s[i + 1] && rest[j] == s[j + 1];
      UnhandledSorted(handled, rest);
      UnhandledMembers(handled, rest);
      var left := Unhandled(handled, rest);
      forall j | 0 <= j < |left| ensures !Before(left[j], s[0]) {
        assert left[j] in rest;
        var k :| 0 <= k < |rest| && rest[k] == left[j];
        assert s[k + 1] == left[j];
      }
    }
  }

  lemma SortedRest(s: seq<Published>)
    requires Sorted(s) && s != []
    ensures Sorted(s[1..]) && forall p | p in s :: !Before(p, s[0])
  {
    var rest := s[1..];
    assert forall i, j | 0 <= i < j < |rest| :: rest[i] == s[i + 1] && rest[j] == s[j + 1];
    forall p | p in s ensures !Before(p, s[0]) {
      SortedFirst(s, p);
    }
  }

  lemma SortedCons(x: Published, s: seq<Published>)
    requires Sorted(s) && forall p | p in s :: !Before(p, x)
    ensures Sorted([x] + s)
  {
  }

  lemma {:induction false} FirstsSorted(s: seq<Published>)
    requires Sorted(s)
    ensures Sorted(FirstOfEachId(s))
    decreases |s|
  {
    if s != [] {
      hide Sorted, Before;
      var handled := {s[0].message.id};
      var tail := Unhandled(handled, s[1..]);
      SortedRest(s);
      UnhandledSorted(handled, s[1..]);
      UnhandledMembers(handled, s[1..]);
      FirstsSorted(tail);
      FirstsAreDistinct(tail);
      SortedCons(s[0], FirstOfEachId(tail));
    }
  }

  ghost predicate HasFirst(firsts: seq<Published>, p: Published) {
    exists q | q in firsts :: q.message.id == p.message.id && q.message.createdAt <= p.message.createdAt
  }

  /** The first message of each ID is kept, and none of the same ID is older. */
  lemma {:induction false} FirstOfEach(s: seq<Published>, p: Published)
    requires Sorted(s) && p in s
    ensures HasFirst(FirstOfEachId(s), p)
    decreases |s|
  {
    var first, rest := s[0], s[1..];
    var tail := Unhandled({first.message.id}, rest);
    SortedRest(s);
    assert !Before(p, first);
    hide Sorted, Before;
    UnhandledSorted({first.message.id}, rest);
    UnhandledMembers({first.message.id}, rest);
    if p.message.id == first.message.id {
      assert first in FirstOfEachId(s);
    } else {
      assert p in rest;
      FirstOfEach(tail, p);
      assert forall q | q in FirstOfEachId(tail) :: q in FirstOfEachId(s);
    }
  }

  lemma SortedFirst(s: seq<Published>, p: Published)
    requires Sorted(s) && p in s
    ensures !Before(p, s[0])
  {
    var k :| 0 <= k < |s| && s[k] == p;
    if k == 0 {
      if Before(p, p) {
        LexAsymmetric(p.message.id, p.message.id);
      }
    }
  }

  /**
   The queue holds nothing but tasks and stops that a readable source holds for this reader, one of every ID
   and none of that ID older, in (created_at, message_id) order.
   */
  lemma QueueHoldsTheSent(b: Bindings, i: TickInput, p: Published)
    ensures Sorted(Queue(b, i))
    ensures p in Queue(b, i) ==> Sent(b, i.sources, p)
    ensures Sent(b, i.sources, p) ==>
              exists q | q in Queue(b, i) ::
                q.message.id == p.message.id && q.message.createdAt <= p.message.createdAt
  {
    var received := Received(b.environment, i.sources);
    ReceivedExactly(b, i.sources, p);
    SortSorts(received);
    var sorted := StableSort(received);
    assert p in sorted <==> p in received by {
      assert p in multiset(sorted) <==> p in multiset(received);
    }
    FirstsSorted(sorted);
    FirstsAreDistinct(sorted);
    if p in sorted {
      FirstOfEach(sorted, p);
    }
  }

  // ---------------------------------------------------------------- cursors

  predicate TipOf(source: SourceRead, c: Cursor) {
    source.Read? && source.repository == c.repository && source.refName == c.refName && source.tip == Some(c.commit)
  }

  ghost predicate SomeTip(sources: seq<SourceRead>, c: Cursor) {
    exists k | 0 <= k < |sources| :: TipOf(sources[k], c)
  }

  /** Where the tips stand that the cursors hold. */
  ghost predicate InSourceOrder(sources: seq<SourceRead>, cursors: seq<Cursor>, places: seq<nat>) {
    && |places| == |cursors| && (forall a, c | 0 <= a < c < |places| :: places[a] < places[c])
    && forall a | 0 <= a < |places| :: places[a] < |sources| && TipOf(sources[places[a]], cursors[a])
  }

  lemma {:induction false} TipsTell(sources: seq<SourceRead>) returns (places: seq<nat>)
    ensures InSourceOrder(sources, Tips(sources), places)
    ensures forall k | 0 <= k < |sources| :: sources[k].Read? && sources[k].tip.Some? ==> k in places
  {
    places := [];
    if sources != [] {
      var init, last := sources[..|sources| - 1], Last(sources);
      places := TipsTell(init);
      if last.Read? && last.tip.Some? {
        places := places + [|sources| - 1];
      }
    }
  }

  ghost predicate Keeps(trace: seq<World>, cursors: seq<Cursor>) {
    forall k | 0 <= k < |trace| :: trace[k].progress.Some? && trace[k].progress.value.progress.cursors == cursors
  }

  lemma FinishKeeps(
    w: World, claimed: Saved, p: Published, name: Option<string>, handled: HandlerResult, i: TickInput)
    requires w.progress == Some(claimed)
    ensures Keeps(Finish(w, claimed, p, name, handled, i).trace, claimed.progress.cursors)
  {
    hide AfterMemory, RecordChecks, Without;
  }

  lemma DispatchKeeps(w: World, claimed: Saved, p: Published, i: TickInput)
    requires w.progress == Some(claimed)
    ensures Keeps(Dispatch(w, claimed, p, i).trace, claimed.progress.cursors)
  {
    var (name, decided) := Decide(i.policy, i.registered, p.message);
    if decided.Some? {
      FinishKeeps(w, claimed, p, name, decided.value, i);
    } else {
      FinishKeeps(w.(calls := w.calls + [p.message.id]), claimed, p, name, AfterHandler(i.handler), i);
    }
    hide Finish, Decide, AfterHandler;
  }

  lemma ClaimKeeps(w: World, progress: WorkCycle.Progress, p: Published, i: TickInput)
    requires i.claimWrite.Healthy?
    requires ReplaceProgress(progress, None, Some(Claim(p)), None).Some?
    ensures var t := ClaimAndRun(w, progress, p, i);
            && t.trace != [] && Last(t.trace).progress.Some?
            && Last(t.trace).progress.value.progress.cursors == progress.cursors
  {
    var saved := Saved(ReplaceProgress(progress, None, Some(Claim(p)), None).value, w.progress, i.startedAt);
    DispatchKeeps(w.(progress := Some(saved)), saved, p, i);
    hide Dispatch, RecordChecks, Without;
  }

  /**
   An undisturbed tick with room left, whether it takes a message or not, ends with a record whose cursors
   are exactly the tips of its sources, in their order.
   */
  lemma CursorsTell(b: Bindings, w: World, i: TickInput) returns (places: seq<nat>)
    requires Smooth(b, i) && Inv(b, w) && |Tasks(w)| < i.policy.maximumCompleted
    requires forall k | 0 <= k < |Tasks(w)| :: Settled(Tasks(w)[k])
    ensures var t := Tick(w, b, i);
            && t.trace != [] && Last(t.trace).progress.Some?
            && InSourceOrder(i.sources, Last(t.trace).progress.value.progress.cursors, places)
    ensures forall k | 0 <= k < |i.sources| :: i.sources[k].Read? && i.sources[k].tip.Some? ==> k in places
  {
    places := TipsTell(i.sources);
    var candidates := Unhandled(IdSet(Tasks(w)), Received(b.environment, i.sources));
    SmoothTick(b, w, i);
    if candidates == [] {
      SmoothIdle(b, w, i);
    } else {
      var selected := StableSort(candidates)[0];
      SelectedIsNew(IdSet(Tasks(w)), Received(b.environment, i.sources));
      ClaimStep(b, w, Refreshed(b, w, i), selected);
      ClaimKeeps(w, Refreshed(b, w, i), selected, i);
    }
    hide Smooth, Inv, ProgressOk, InSourceOrder, Tick, ClaimAndRun, Tips, IdSet, Received, Unhandled, StableSort;
  }
}
