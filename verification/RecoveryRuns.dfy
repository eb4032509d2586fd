/**
 What a recovery guarantees: its own changes are guarded under any interference, a verified result means
 the guarded publication happened, and an interrupted recovery can be resumed to completion.
 */
module RecoveryRuns {
  import opened Common
  import opened Refs
  import opened Recovery

  // ---------------------------------------------------------------- every own step is guarded

  ghost predicate Owned(r: Request, refs: Repository) {
    Lookup(refs, Owner(r)) == Some(r.marker)
  }

  /** What each author may do to the refs, besides nothing. */
  ghost predicate StepOk(r: Request, step: Step) {
    var refs, after := step.before, step.after;
    || after == refs
    || match step.author
       case Others => true
       case Claim =>
         Lookup(refs, Owner(r)).None? && Lookup(refs, Quarantine(r)).None? && after == refs[Owner(r) := r.marker]
       case Quarantining =>
         Owned(r, refs) && Lookup(refs, Quarantine(r)).None? && after == refs[Quarantine(r) := r.memory]
       case Publication =>
         && Owned(r, refs) && Lookup(refs, Quarantine(r)) == Some(r.memory)
         && Lookup(refs, Canonical(r)) == r.expectedLocal && after == refs[Canonical(r) := r.memory]
       case Cleanup =>
         && Owned(r, refs) && Lookup(refs, Quarantine(r)) == Some(r.memory)
         && Lookup(refs, Canonical(r)) == Some(r.memory) && after == refs - {Quarantine(r)} - {Owner(r)}
  }

  function FirstRefs(s: State): Repository {
    if s.steps == [] then s.refs else s.steps[0].before
  }

  /** A gap-free list of allowed changes that ends in the present refs. */
  ghost predicate Guarded(r: Request, start: Repository, s: State) {
    && FirstRefs(s) == start
    && (forall k | 0 <= k < |s.steps| :: StepOk(r, s.steps[k]))
    && (forall k | 0 <= k < |s.steps| - 1 :: s.steps[k].after == s.steps[k + 1].before)
    && (s.steps != [] ==> Last(s.steps).after == s.refs)
  }

  lemma GuardedStep(r: Request, start: Repository, s: State, step: Step)
    requires Guarded(r, start, s) && step.before == s.refs && StepOk(r, step)
    ensures Guarded(r, start, State(step.after, s.steps + [step]))
  {
    var steps := s.steps + [step];
    forall k | 0 <= k < |steps| - 1 ensures steps[k].after == steps[k + 1].before {
      if k < |s.steps| - 1 {
        assert steps[k] == s.steps[k] && steps[k + 1] == s.steps[k + 1];
      }
    }
  }

  lemma DisturbGuarded(r: Request, start: Repository, s: State, e: Environment, at: nat)
    requires Guarded(r, start, s)
    ensures Guarded(r, start, Disturb(s, e, at))
  {
    GuardedStep(r, start, s, Step(Others, s.refs, e.outside(at)(s.refs)));
  }

  /** The entries of one author's transaction. */
  function UpdatesOf(r: Request, author: Author): seq<Update<string>> {
    match author
    case Claim => ClaimUpdates(r)
    case Quarantining => QuarantineUpdates(r)
    case Publication => PublishUpdates(r)
    case _ => CleanupUpdates(r)
  }

  lemma WriteTwo(refs: Repository, a: Update<string>, b: Update<string>)
    ensures WriteAll(refs, [a, b]) == Write(Write(refs, a), b)
  {
    assert [a, b][1..] == [b] && [b][1..] == [];
    assert WriteAll(Write(refs, a), [b]) == WriteAll(Write(Write(refs, a), b), []);
  }

  lemma WriteThree(refs: Repository, a: Update<string>, b: Update<string>, c: Update<string>)
    ensures WriteAll(refs, [a, b, c]) == Write(Write(Write(refs, a), b), c)
  {
    assert [a, b, c][1..] == [b, c];
    WriteTwo(Write(refs, a), b, c);
  }

  /** The change one author makes when its expectations hold. */
  function Changed(r: Request, author: Author, refs: Repository): Repository {
    match author
    case Others => refs
    case Claim => refs[Owner(r) := r.marker]
    case Quarantining => refs[Quarantine(r) := r.memory]
    case Publication => refs[Canonical(r) := r.memory]
    case Cleanup => refs - {Quarantine(r)} - {Owner(r)}
  }

  lemma WrittenRefs(r: Request, author: Author, refs: Repository)
    requires !author.Others?
    ensures WriteAll(refs, UpdatesOf(r, author)) == Changed(r, author, refs)
  {
    var u := UpdatesOf(r, author);
    if |u| == 2 {
      WriteTwo(refs, u[0], u[1]);
      assert u == [u[0], u[1]];
    } else {
      WriteThree(refs, u[0], u[1], u[2]);
      assert u == [u[0], u[1], u[2]];
    }
  }

  lemma ChangeIsGuarded(r: Request, author: Author, refs: Repository)
    requires !author.Others? && AllExpected(refs, UpdatesOf(r, author))
    ensures StepOk(r, Step(author, refs, Changed(r, author, refs)))
    ensures author.Publication? ==> IsPublication(r, Step(author, refs, Changed(r, author, refs)))
  {
    var u := UpdatesOf(r, author);
    assert Lookup(refs, u[0].name) == u[0].expected && Lookup(refs, u[1].name) == u[1].expected;
    assert |u| == 3 ==> Lookup(refs, u[2].name) == u[2].expected;
  }

  lemma TransactionGuarded(r: Request, refs: Repository, author: Author, symbolic: set<string>, fault: Fault)
    requires !author.Others?
    ensures var (outcome, after) := Transact(refs, symbolic, UpdatesOf(r, author), fault);
            && StepOk(r, Step(author, refs, after))
            && (outcome == Committed ==> AllExpected(refs, UpdatesOf(r, author)) && after == Changed(r, author, refs))
            && (outcome != Committed && !LeavesOpen(outcome) ==> after == refs)
  {
    var (outcome, after) := Transact(refs, symbolic, UpdatesOf(r, author), fault);
    if after != refs || outcome == Committed {
      assert AllExpected(refs, UpdatesOf(r, author)) && after == WriteAll(refs, UpdatesOf(r, author));
      hide Transact, UpdatesOf, WriteAll, AllExpected, WellFormed;
      WrittenRefs(r, author, refs);
      ChangeIsGuarded(r, author, refs);
    }
  }

  /** A transaction is a guarded step, and the refs move as it says exactly when it was not refused. */
  lemma PerformGuarded(r: Request, start: Repository, s: State, e: Environment, at: nat, author: Author)
    requires Guarded(r, start, s) && !author.Others?
    ensures var (outcome, after) := Perform(s, e, at, author, UpdatesOf(r, author));
            && Guarded(r, start, after) && s.steps < after.steps
            && var step := Last(after.steps);
               && step.author == author
               && (outcome == Committed ==>
                     AllExpected(step.before, UpdatesOf(r, author)) && step.after == Changed(r, author, step.before))
               && (outcome != Committed && !LeavesOpen(outcome) ==> step.after == step.before)
  {
    DisturbGuarded(r, start, s, e, at);
    var seen := Disturb(s, e, at);
    var (outcome, refs) := Transact(seen.refs, e.symbolic(at), UpdatesOf(r, author), e.faults(at));
    TransactionGuarded(r, seen.refs, author, e.symbolic(at), e.faults(at));
    hide UpdatesOf, Transact, Changed, StepOk;
    GuardedStep(r, start, seen, Step(author, seen.refs, refs));
  }

  lemma StopGuarded(r: Request, start: Repository, s: State, e: Environment, disposition: Disposition, reason: Reason)
    requires Guarded(r, start, s)
    ensures Guarded(r, start, Stop(s, r, e, disposition, reason).state)
  {
    DisturbGuarded(r, start, s, e, 8);
    DisturbGuarded(r, start, Disturb(s, e, 8), e, 9);
  }

  lemma OpenGuarded(r: Request, start: Repository, s: State, e: Environment)
    requires Guarded(r, start, s)
    ensures Guarded(r, start, Open(s, r, e).state)
  {
    DisturbGuarded(r, start, s, e, 0);
    var second := Disturb(Disturb(s, e, 0), e, 1);
    DisturbGuarded(r, start, Disturb(s, e, 0), e, 1);
    PerformGuarded(r, start, second, e, 2, Claim);
    DisturbGuarded(r, start, Perform(second, e, 2, Claim, ClaimUpdates(r)).1, e, 3);
  }

  lemma RetrieveGuarded(r: Request, start: Repository, s: State, e: Environment)
    requires Guarded(r, start, s)
    ensures Guarded(r, start, Retrieve(s, r, e).state)
  {
    StopGuarded(r, start, s, e, Uncertain, TransportUncertain);
    StopGuarded(r, start, s, e, Uncertain, TransportResultUncertain);
    StopGuarded(r, start, s, e, Failed, FetchedStateUnavailable);
    PerformGuarded(r, start, s, e, 4, Quarantining);
    var (outcome, after) := Perform(s, e, 4, Quarantining, QuarantineUpdates(r));
    StopGuarded(r, start, after, e, Failed, Transaction(outcome));
  }

  lemma PublishGuarded(r: Request, start: Repository, s: State, e: Environment)
    requires Guarded(r, start, s)
    ensures Guarded(r, start, Publish(s, r, e).state)
    ensures Publish(s, r, e).On? ==> PublishedIn(r, Publish(s, r, e).state.steps)
    ensures Publish(s, r, e).Ended? ==> !Publish(s, r, e).result.Raised? && !Publish(s, r, e).result.disposition.Verified?
  {
    DisturbGuarded(r, start, s, e, 5);
    var seen := Disturb(s, e, 5);
    var objection := Objection(r, e, Read(seen, e, 5, Quarantine(r)));
    if objection.Some? {
      StopGuarded(r, start, seen, e, Failed, objection.value);
    } else {
      PerformGuarded(r, start, seen, e, 6, Publication);
      var (outcome, after) := Perform(seen, e, 6, Publication, PublishUpdates(r));
      StopGuarded(r, start, after, e, Failed, Transaction(outcome));
      if outcome == Committed {
        var step := Last(after.steps);
        ChangeIsGuarded(r, Publication, step.before);
        assert step == Step(Publication, step.before, step.after);
        assert IsPublication(r, step);
      }
    }
  }

  /** The guarded move of the canonical ref. */
  ghost predicate IsPublication(r: Request, step: Step) {
    && step.author.Publication? && Owned(r, step.before) && Lookup(step.before, Quarantine(r)) == Some(r.memory)
    && Lookup(step.before, Canonical(r)) == r.expectedLocal && step.after == step.before[Canonical(r) := r.memory]
  }

  ghost predicate PublishedIn(r: Request, steps: seq<Step>) {
    exists k | 0 <= k < |steps| :: IsPublication(r, steps[k])
  }

  lemma PublishedExtends(r: Request, steps: seq<Step>, more: seq<Step>)
    requires PublishedIn(r, steps) && steps <= more
    ensures PublishedIn(r, more)
  {
    var k :| 0 <= k < |steps| && IsPublication(r, steps[k]);
    assert more[k] == steps[k];
  }

  lemma CleanGuarded(r: Request, start: Repository, s: State, e: Environment)
    requires Guarded(r, start, s)
    ensures Guarded(r, start, Clean(s, r, e).state) && s.steps <= Clean(s, r, e).state.steps
    ensures Clean(s, r, e).Ended? && Clean(s, r, e).result.Observed? && Clean(s, r, e).result.disposition.Verified?
  {
    PerformGuarded(r, start, s, e, 7, Cleanup);
    var (outcome, after) := Perform(s, e, 7, Cleanup, CleanupUpdates(r));
    StopGuarded(r, start, after, e, Verified, CleanupRetained);
  }

  predicate IsVerified(result: Result) {
    result.Observed? && result.disposition.Verified?
  }

  lemma ConcludeGuarded(r: Request, start: Repository, s: State, e: Environment)
    requires Guarded(r, start, s)
    ensures var p := Conclude(s, r, e);
            Guarded(r, start, p.state) && (IsVerified(p.result) ==> PublishedIn(r, p.state.steps))
  {
    PublishGuarded(r, start, s, e);
    if Publish(s, r, e).On? {
      var published := Publish(s, r, e).state;
      CleanGuarded(r, start, published, e);
      PublishedExtends(r, published.steps, Clean(published, r, e).state.steps);
    }
  }

  /**
   Under any interference, faults and loss of the process: every change a recovery makes is one of four
   guarded steps, so it never replaces a value other than the one it expected, and the canonical ref moves
   only from exactly the expected local State (or absence) to exactly the recovered one while the owner
   marker and the quarantined State are both in place. REMOTE_VERIFIED is reported only after that move.
   */
  lemma RecoveryIsGuarded(refs: Repository, r: Request, e: Environment)
    ensures var p := Recover(State(refs, []), r, e);
            && Guarded(r, refs, p.state)
            && (IsVerified(p.result) ==> PublishedIn(r, p.state.steps))
  {
    var s := State(refs, []);
    if e.remoteMatches {
      OpenGuarded(r, refs, s, e);
      var begun := Open(s, r, e);
      if begun.On? {
        RetrieveGuarded(r, refs, begun.state, e);
        ConcludeGuarded(r, refs, begun.state, e);
        ConcludeGuarded(r, refs, Retrieve(begun.state, r, e).state, e);
        NothingVerifiedBeforePublication(begun.state, r, e);
      }
      NothingVerifiedBeforePublication(s, r, e);
    }
  }

  lemma NothingVerifiedBeforePublication(s: State, r: Request, e: Environment)
    ensures Open(s, r, e).Ended? ==> !IsVerified(Open(s, r, e).result)
    ensures Retrieve(s, r, e).Ended? ==> !IsVerified(Retrieve(s, r, e).result)
  {
  }

  /** The canonical ref is moved by nobody but the publication step and outsiders. */
  lemma OnlyPublicationMovesCanonical(refs: Repository, r: Request, e: Environment, k: nat)
    requires k < |Recover(State(refs, []), r, e).state.steps|
    ensures var step := Recover(State(refs, []), r, e).state.steps[k];
            Lookup(step.after, Canonical(r)) != Lookup(step.before, Canonical(r)) ==>
              step.author.Others? || IsPublication(r, step)
  {
    hide Recover;
    RecoveryIsGuarded(refs, r, e);
    RefsApart(r, r);
  }

  ghost predicate Unpublished(s: State) {
    forall k | 0 <= k < |s.steps| :: s.steps[k].author.Publication? ==> s.steps[k].after == s.steps[k].before
  }

  lemma StopUnpublished(s: State, r: Request, e: Environment, disposition: Disposition, reason: Reason)
    requires Unpublished(s)
    ensures Unpublished(Stop(s, r, e, disposition, reason).state)
  {
  }

  lemma OpenUnpublished(s: State, r: Request, e: Environment)
    requires Unpublished(s)
    ensures Unpublished(Open(s, r, e).state)
  {
    var second := Disturb(Disturb(s, e, 0), e, 1);
    assert Unpublished(second);
    assert Unpublished(Perform(second, e, 2, Claim, ClaimUpdates(r)).1);
  }

  lemma RetrieveUnpublished(s: State, r: Request, e: Environment)
    requires Unpublished(s)
    ensures Unpublished(Retrieve(s, r, e).state)
  {
    var (outcome, after) := Perform(s, e, 4, Quarantining, QuarantineUpdates(r));
    assert Unpublished(after);
    hide Perform;
    StopUnpublished(after, r, e, Failed, Transaction(outcome));
  }

  lemma ConcludeUnpublished(s: State, r: Request, e: Environment)
    requires Unpublished(s)
    ensures var p := Conclude(s, r, e);
            Unpublished(p.state) || IsVerified(p.result)
            || (p.result.Observed? && p.result.reason.Transaction? && LeavesOpen(p.result.reason.outcome))
  {
    var seen := Disturb(s, e, 5);
    var objection := Objection(r, e, Read(seen, e, 5, Quarantine(r)));
    if objection.Some? {
      StopUnpublished(seen, r, e, Failed, objection.value);
    } else {
      var (outcome, after) := Perform(seen, e, 6, Publication, PublishUpdates(r));
      if outcome != Committed && !LeavesOpen(outcome) {
        StopUnpublished(after, r, e, Failed, Transaction(outcome));
      }
    }
  }

  /**
   The converse of the verified report: unless REMOTE_VERIFIED, a timed-out or a failed persistence is
   reported, the recovery itself moved no canonical ref.
   */
  lemma UnverifiedMovedNothing(refs: Repository, r: Request, e: Environment)
    ensures var p := Recover(State(refs, []), r, e);
            Unpublished(p.state) || IsVerified(p.result)
            || (p.result.Observed? && p.result.reason.Transaction? && LeavesOpen(p.result.reason.outcome))
  {
    var s := State(refs, []);
    if e.remoteMatches {
      OpenUnpublished(s, r, e);
      var begun := Open(s, r, e);
      if begun.On? {
        RetrieveUnpublished(begun.state, r, e);
        ConcludeUnpublished(begun.state, r, e);
        ConcludeUnpublished(Retrieve(begun.state, r, e).state, r, e);
      }
    }
  }

  // ---------------------------------------------------------------- interrupted operations

  predicate RecoveryRef(name: string) {
    "refs/peoplebot/quarantine" <= name
  }

  ghost function RecoveryRefs(): iset<string> {
    iset name | RecoveryRef(name)
  }

  /** Others move what they like, but not these refs. */
  ghost predicate Leaves(e: Environment, names: iset<string>) {
    forall at, refs, name | name in names :: Lookup(e.outside(at)(refs), name) == Lookup(refs, name)
  }

  /** Others move what they like, but not the refs of recovery operations. */
  ghost predicate LeavesRecoveryRefs(e: Environment) {
    Leaves(e, RecoveryRefs())
  }

  /** Digests identify what they cover: one identity is one operation. */
  predicate SameOperation(r: Request, other: Request) {
    r.identity == other.identity ==>
      r.marker == other.marker && r.memory == other.memory && r.instance == other.instance
  }

  predicate Untouched(r: Request, refs: Repository) {
    Lookup(refs, Owner(r)).None? && Lookup(refs, Quarantine(r)).None?
  }

  /** Untouched, claimed, or claimed and quarantined: quarantine present implies owner present. */
  ghost predicate OperationOk(r: Request, refs: Repository) {
    Untouched(r, refs) || Interrupted(r, refs)
  }

  ghost predicate Interrupted(r: Request, refs: Repository) {
    Owned(r, refs) && (Lookup(refs, Quarantine(r)).None? || Lookup(refs, Quarantine(r)) == Some(r.memory))
  }

  ghost predicate LeftAlone(step: Step, names: iset<string>) {
    step.author.Others? ==> forall name | name in names :: Lookup(step.after, name) == Lookup(step.before, name)
  }

  lemma StepKeepsOperation(r: Request, other: Request, step: Step)
    requires StepOk(r, step) && SameOperation(r, other) && OperationOk(other, step.before)
    requires LeftAlone(step, RecoveryRefs())
    ensures OperationOk(other, step.after)
  {
    RefsApart(r, other);
    RefsApart(other, r);
    assert RecoveryRef(Owner(other)) && RecoveryRef(Quarantine(other));
  }

  ghost predicate OthersKeep(s: State, names: iset<string>) {
    forall k | 0 <= k < |s.steps| :: LeftAlone(s.steps[k], names)
  }

  /** The refs left if the process dies after the first `cut` changes. */
  function LeftBehind(start: Repository, s: State, cut: nat): Repository {
    if cut == 0 || s.steps == [] then start
    else if cut <= |s.steps| then s.steps[cut - 1].after
    else Last(s.steps).after
  }

  lemma {:induction false} PrefixKeepsOperation(
    r: Request, start: Repository, s: State, other: Request, cut: nat)
    requires Guarded(r, start, s) && OthersKeep(s, RecoveryRefs()) && SameOperation(r, other) && OperationOk(other, start)
    ensures OperationOk(other, LeftBehind(start, s, cut))
  {
    if cut > |s.steps| {
      PrefixKeepsOperation(r, start, s, other, |s.steps|);
    } else if cut > 0 {
      PrefixKeepsOperation(r, start, s, other, cut - 1);
      StepKeepsOperation(r, other, s.steps[cut - 1]);
    }
  }

  lemma DisturbKeeps(names: iset<string>, s: State, e: Environment, at: nat)
    requires Leaves(e, names) && OthersKeep(s, names)
    ensures OthersKeep(Disturb(s, e, at), names)
  {
    assert LeftAlone(Step(Others, s.refs, e.outside(at)(s.refs)), names);
  }

  lemma PerformKeeps(names: iset<string>, s: State, e: Environment, at: nat, author: Author, updates: seq<Update<string>>)
    requires Leaves(e, names) && OthersKeep(s, names) && !author.Others?
    ensures OthersKeep(Perform(s, e, at, author, updates).1, names)
  {
    DisturbKeeps(names, s, e, at);
  }

  lemma StopKeeps(names: iset<string>, s: State, r: Request, e: Environment, disposition: Disposition, reason: Reason)
    requires Leaves(e, names) && OthersKeep(s, names)
    ensures OthersKeep(Stop(s, r, e, disposition, reason).state, names)
  {
    DisturbKeeps(names, s, e, 8);
    DisturbKeeps(names, Disturb(s, e, 8), e, 9);
  }

  lemma OpenKeeps(names: iset<string>, s: State, r: Request, e: Environment)
    requires Leaves(e, names) && OthersKeep(s, names)
    ensures OthersKeep(Open(s, r, e).state, names)
  {
    DisturbKeeps(names, s, e, 0);
    var second := Disturb(Disturb(s, e, 0), e, 1);
    DisturbKeeps(names, Disturb(s, e, 0), e, 1);
    PerformKeeps(names, second, e, 2, Claim, ClaimUpdates(r));
    DisturbKeeps(names, Perform(second, e, 2, Claim, ClaimUpdates(r)).1, e, 3);
  }

  lemma RetrieveKeeps(names: iset<string>, s: State, r: Request, e: Environment)
    requires Leaves(e, names) && OthersKeep(s, names)
    ensures OthersKeep(Retrieve(s, r, e).state, names)
  {
    StopKeeps(names, s, r, e, Uncertain, TransportUncertain);
    StopKeeps(names, s, r, e, Uncertain, TransportResultUncertain);
    StopKeeps(names, s, r, e, Failed, FetchedStateUnavailable);
    PerformKeeps(names, s, e, 4, Quarantining, QuarantineUpdates(r));
    var (outcome, after) := Perform(s, e, 4, Quarantining, QuarantineUpdates(r));
    StopKeeps(names, after, r, e, Failed, Transaction(outcome));
  }

  lemma ConcludeKeeps(names: iset<string>, s: State, r: Request, e: Environment)
    requires Leaves(e, names) && OthersKeep(s, names)
    ensures OthersKeep(Conclude(s, r, e).state, names)
  {
    DisturbKeeps(names, s, e, 5);
    var seen := Disturb(s, e, 5);
    var objection := Objection(r, e, Read(seen, e, 5, Quarantine(r)));
    if objection.Some? {
      StopKeeps(names, seen, r, e, Failed, objection.value);
    } else {
      PerformKeeps(names, seen, e, 6, Publication, PublishUpdates(r));
      var (outcome, after) := Perform(seen, e, 6, Publication, PublishUpdates(r));
      StopKeeps(names, after, r, e, Failed, Transaction(outcome));
      PerformKeeps(names, after, e, 7, Cleanup, CleanupUpdates(r));
      StopKeeps(names, Perform(after, e, 7, Cleanup, CleanupUpdates(r)).1, r, e, Verified, CleanupRetained);
    }
  }

  lemma OthersKeepRecovered(names: iset<string>, refs: Repository, r: Request, e: Environment)
    requires Leaves(e, names)
    ensures OthersKeep(Recover(State(refs, []), r, e).state, names)
  {
    var s := State(refs, []);
    OpenKeeps(names, s, r, e);
    var begun := Open(s, r, e);
    if begun.On? {
      RetrieveKeeps(names, begun.state, r, e);
      ConcludeKeeps(names, begun.state, r, e);
      ConcludeKeeps(names, Retrieve(begun.state, r, e).state, r, e);
    }
  }

  // ---------------------------------------------------------------- runs

  /** One recovery attempt and the number of ref changes after which the process died. */
  datatype Attempt = Attempt(request: Request, environment: Environment, cut: nat)

  function After(refs: Repository, a: Attempt): Repository {
    LeftBehind(refs, Recover(State(refs, []), a.request, a.environment).state, a.cut)
  }

  ghost predicate IsRun(rs: seq<Repository>, attempts: seq<Attempt>) {
    && |rs| == |attempts| + 1
    && (forall k | 0 <= k < |attempts| :: LeavesRecoveryRefs(attempts[k].environment))
    && (forall k | 0 <= k < |attempts| :: rs[k + 1] == After(rs[k], attempts[k]))
  }

  /**
   Over any run of attempts of any operations, first or resumed, dying anywhere, while others move every
   other ref: each operation is untouched, claimed, or claimed and quarantined. In particular its
   quarantine ref is never there without its owner marker.
   */
  lemma {:induction false} InterruptedStates(rs: seq<Repository>, attempts: seq<Attempt>, r: Request, k: nat)
    requires IsRun(rs, attempts) && k < |rs| && OperationOk(r, rs[0])
    requires forall j | 0 <= j < |attempts| :: SameOperation(attempts[j].request, r)
    ensures OperationOk(r, rs[k])
  {
    if k > 0 {
      InterruptedStates(rs, attempts, r, k - 1);
      var a, refs := attempts[k - 1], rs[k - 1];
      RecoveryIsGuarded(refs, a.request, a.environment);
      OthersKeepRecovered(RecoveryRefs(), refs, a.request, a.environment);
      PrefixKeepsOperation(a.request, refs, Recover(State(refs, []), a.request, a.environment).state, r, a.cut);
    }
  }

  // ---------------------------------------------------------------- before and after publication

  /** The refs of the recovery operations, and the canonical ref of one Instance. */
  ghost function InstanceRefs(r: Request): iset<string> {
    RecoveryRefs() + iset{Canonical(r)}
  }

  /** Nobody else recovers this Instance. */
  predicate OnlyRecovery(r: Request, other: Request) {
    SameOperation(r, other) && (r.instance == other.instance ==> r.identity == other.identity)
  }

  /** Not yet published, with the canonical ref as it was, or published; each with its recovery refs in order. */
  ghost predicate StageOk(r: Request, start: Option<string>, refs: Repository) {
    OperationOk(r, refs) && (Lookup(refs, Canonical(r)) == start || Lookup(refs, Canonical(r)) == Some(r.memory))
  }

  lemma StepKeepsStage(r: Request, other: Request, start: Option<string>, step: Step)
    requires StepOk(r, step) && OnlyRecovery(r, other) && StageOk(other, start, step.before)
    requires LeftAlone(step, InstanceRefs(other))
    ensures StageOk(other, start, step.after)
    ensures Lookup(step.after, Canonical(other)) != Lookup(step.before, Canonical(other)) ==>
              && Owned(other, step.before) && Lookup(step.before, Quarantine(other)) == Some(other.memory)
              && Owned(other, step.after) && Lookup(step.after, Quarantine(other)) == Some(other.memory)
  {
    StepKeepsOperation(r, other, step);
    RefsApart(r, other);
    RefsApart(other, r);
    CanonicalsApart(r, other);
    assert Canonical(other) in InstanceRefs(other);
  }

  lemma CanonicalsApart(r: Request, other: Request)
    ensures Canonical(r) == Canonical(other) <==> r.instance == other.instance
  {
    var branch := "refs/heads/peoplebot/instances/v0/";
    assert Canonical(r)[|branch|..] == r.instance && Canonical(other)[|branch|..] == other.instance;
  }

  lemma {:induction false} PrefixKeepsStage(
    r: Request, refs: Repository, s: State, other: Request, start: Option<string>, cut: nat)
    requires Guarded(r, refs, s) && OthersKeep(s, InstanceRefs(other)) && OnlyRecovery(r, other)
    requires StageOk(other, start, refs)
    ensures StageOk(other, start, LeftBehind(refs, s, cut))
  {
    if cut > |s.steps| {
      PrefixKeepsStage(r, refs, s, other, start, |s.steps|);
    } else if cut > 0 {
      PrefixKeepsStage(r, refs, s, other, start, cut - 1);
      StepKeepsStage(r, other, start, s.steps[cut - 1]);
    }
  }

  /**
   With nobody else at this Instance, over any run of first and resumed attempts dying anywhere: the canonical
   ref is as it was at the start (not yet published) or at the recovered State (published), and it changes
   from the one to the other only while owner and quarantine are both there. So an operation is interrupted
   as claimed, as quarantined, or as quarantined and published; only if it is claimed anew after its
   completion is it published before it is quarantined.
   */
  lemma {:induction false} InterruptedStages(rs: seq<Repository>, attempts: seq<Attempt>, r: Request, k: nat)
    requires IsRun(rs, attempts) && k < |rs| && OperationOk(r, rs[0])
    requires forall j | 0 <= j < |attempts| ::
               OnlyRecovery(attempts[j].request, r) && Leaves(attempts[j].environment, InstanceRefs(r))
    ensures StageOk(r, Lookup(rs[0], Canonical(r)), rs[k])
  {
    if k > 0 {
      InterruptedStages(rs, attempts, r, k - 1);
      var a, refs := attempts[k - 1], rs[k - 1];
      RecoveryIsGuarded(refs, a.request, a.environment);
      OthersKeepRecovered(InstanceRefs(r), refs, a.request, a.environment);
      var s := Recover(State(refs, []), a.request, a.environment).state;
      PrefixKeepsStage(a.request, refs, s, r, Lookup(rs[0], Canonical(r)), a.cut);
    }
  }

  // ---------------------------------------------------------------- resuming

  /** Nobody else touches the refs. */
  ghost predicate Alone(e: Environment) {
    forall at, refs :: e.outside(at)(refs) == refs
  }

  /** Everything works, but for what the publication meets. */
  ghost predicate HealthyBut(e: Environment, publication: Fault) {
    && Alone(e) && e.remoteMatches && e.fetch == Fetched(true)
    && e.lineageValid && e.bindingValid && e.localIsAncestor && e.branchUnused
    && forall at :: e.symbolic(at) == {} && !e.unreadable(at)
                    && e.faults(at) == if at == 6 then publication else Fault.Healthy
  }

  ghost predicate Healthy(e: Environment) {
    HealthyBut(e, Fault.Healthy)
  }

  function Completed(r: Request, refs: Repository): Repository {
    refs[Canonical(r) := r.memory] - {Quarantine(r)} - {Owner(r)}
  }

  lemma HealthyPerform(r: Request, s: State, e: Environment, publication: Fault, at: nat, author: Author)
    requires HealthyBut(e, publication) && (at == 6 ==> publication.Healthy?) && !author.Others?
    ensures var (outcome, after) := Perform(s, e, at, author, UpdatesOf(r, author));
            && (outcome == Committed <==> AllExpected(s.refs, UpdatesOf(r, author)))
            && (outcome == Committed ==> after.refs == Changed(r, author, s.refs))
            && (outcome != Committed ==> outcome == Conflict && after.refs == s.refs)
  {
    WrittenRefs(r, author, s.refs);
  }

  lemma HealthyConclude(r: Request, s: State, e: Environment)
    requires Healthy(e) && Owned(r, s.refs) && Lookup(s.refs, Quarantine(r)) == Some(r.memory)
    ensures var p := Conclude(s, r, e);
            if Lookup(s.refs, Canonical(r)) == r.expectedLocal then
              p.result == Observed(Verified, RemoteVerified, Some(false)) && p.state.refs == Completed(r, s.refs)
            else p.result.Observed? && p.result.reason == Transaction(Conflict) && p.state.refs == s.refs
  {
    hide Transact, WriteAll;
    RefsApart(r, r);
    var seen := Disturb(s, e, 5);
    HealthyPerform(r, seen, e, Fault.Healthy, 6, Publication);
    var u := PublishUpdates(r);
    assert AllExpected(seen.refs, u) <==> Lookup(s.refs, Canonical(r)) == r.expectedLocal by {
      assert u[0].expected == Some(r.marker) && u[1].expected == Some(r.memory) && u[2].expected == r.expectedLocal;
    }
    if Lookup(s.refs, Canonical(r)) == r.expectedLocal {
      var published := Perform(seen, e, 6, Publication, u).1;
      HealthyPerform(r, published, e, Fault.Healthy, 7, Cleanup);
      assert AllExpected(published.refs, CleanupUpdates(r));
    }
  }

  lemma HealthyRetrieve(r: Request, s: State, e: Environment, publication: Fault)
    requires HealthyBut(e, publication) && Owned(r, s.refs) && Lookup(s.refs, Quarantine(r)).None?
    ensures var p := Retrieve(s, r, e);
            p.On? && p.quarantined == Some(r.memory) && p.state.refs == s.refs[Quarantine(r) := r.memory]
  {
    HealthyPerform(r, s, e, publication, 4, Quarantining);
    assert AllExpected(s.refs, QuarantineUpdates(r));
  }

  /** From a claim alone, with nothing quarantined yet. */
  lemma HealthyRest(r: Request, s: State, e: Environment)
    requires Healthy(e) && Owned(r, s.refs) && Lookup(s.refs, Quarantine(r)).None?
    ensures Retrieve(s, r, e).On?
    ensures var p := Conclude(Retrieve(s, r, e).state, r, e);
            if Lookup(s.refs, Canonical(r)) == r.expectedLocal then
              p.result == Observed(Verified, RemoteVerified, Some(false)) && p.state.refs == Completed(r, s.refs)
            else !IsVerified(p.result)
  {
    RefsApart(r, r);
    HealthyRetrieve(r, s, e, Fault.Healthy);
    HealthyConclude(r, Retrieve(s, r, e).state, e);
    assert Completed(r, s.refs[Quarantine(r) := r.memory]) == Completed(r, s.refs);
  }

  /**
   With no interference and a working repository a resumed recovery completes exactly when it finds its
   own marker, its own or no quarantine, and the canonical ref at the value its request expects. The
   marker does not cover that value, so it may be chosen anew for the resumption.
   */
  lemma ResumeCompletes(refs: Repository, r: Request, e: Environment)
    requires r.resume && Healthy(e)
    ensures var p := Recover(State(refs, []), r, e);
            && (IsVerified(p.result) <==> Interrupted(r, refs) && Lookup(refs, Canonical(r)) == r.expectedLocal)
            && (IsVerified(p.result) ==>
                  p.result.reason == RemoteVerified && p.result.retained == Some(false)
                  && p.state.refs == Completed(r, refs))
  {
    RefsApart(r, r);
    var begun := Open(State(refs, []), r, e);
    if Interrupted(r, refs) {
      assert begun.On? && begun.state.refs == refs;
      if begun.quarantined.None? {
        HealthyRest(r, begun.state, e);
      } else {
        HealthyConclude(r, begun.state, e);
      }
    }
  }

  lemma HealthyOpen(r: Request, refs: Repository, e: Environment, publication: Fault)
    requires !r.resume && HealthyBut(e, publication)
    ensures var p := Open(State(refs, []), r, e);
            if Untouched(r, refs) then p.On? && p.quarantined.None? && p.state.refs == refs[Owner(r) := r.marker]
            else p.Ended? && p.result.Raised?
  {
    RefsApart(r, r);
    var second := Disturb(Disturb(State(refs, []), e, 0), e, 1);
    assert second.refs == refs;
    HealthyPerform(r, second, e, publication, 2, Claim);
    var u := ClaimUpdates(r);
    assert AllExpected(refs, u) <==> Untouched(r, refs) by {
      assert u[0].expected.None? && u[1].expected.None?;
    }
  }

  /** A first attempt completes exactly when neither recovery ref exists and the canonical ref is as expected. */
  lemma FirstAttemptCompletes(refs: Repository, r: Request, e: Environment)
    requires !r.resume && Healthy(e)
    ensures var p := Recover(State(refs, []), r, e);
            && (IsVerified(p.result) <==> Untouched(r, refs) && Lookup(refs, Canonical(r)) == r.expectedLocal)
            && (IsVerified(p.result) ==> p.state.refs == Completed(r, refs))
  {
    hide Open, Retrieve, Conclude;
    HealthyOpen(r, refs, e, Fault.Healthy);
    if Untouched(r, refs) {
      RefsApart(r, r);
      HealthyRest(r, Open(State(refs, []), r, e).state, e);
      assert Completed(r, refs[Owner(r) := r.marker]) == Completed(r, refs);
    }
  }

  /** How a publication from the quarantined State ends, by what its transaction meets. */
  lemma FaultyConclude(r: Request, s: State, e: Environment, publication: Fault)
    requires HealthyBut(e, publication) && !publication.Healthy?
    requires Owned(r, s.refs) && Lookup(s.refs, Quarantine(r)) == Some(r.memory)
    requires Lookup(s.refs, Canonical(r)) == r.expectedLocal && Unpublished(s)
    ensures var p, landed := Conclude(s, r, e), publication.CommitRaises? && publication.landed;
            && p.result.Observed? && p.result.disposition.Failed? && p.result.reason.Transaction?
            && (landed ==> LeavesOpen(p.result.reason.outcome))
            && Lookup(p.state.refs, Canonical(r)) == (if landed then Some(r.memory) else r.expectedLocal)
            && (Unpublished(p.state) <==> !landed || r.expectedLocal == Some(r.memory))
  {
    RefsApart(r, r);
    var seen := Disturb(s, e, 5);
    var u := PublishUpdates(r);
    assert seen.refs == s.refs && Unpublished(seen);
    assert AllExpected(seen.refs, u) by {
      assert u[0].expected == Some(r.marker) && u[1].expected == Some(r.memory) && u[2].expected == r.expectedLocal;
    }
    PublishesTo(r, seen.refs, e.symbolic(6), publication);
    assert Objection(r, e, Read(seen, e, 5, Quarantine(r))).None?;
    var (outcome, after) := Perform(seen, e, 6, Publication, u);
    var met := Disturb(seen, e, 6);
    assert met.refs == s.refs && Unpublished(met);
    UnpublishedStep(met, Step(Publication, met.refs, after.refs));
    assert after == State(after.refs, met.steps + [Step(Publication, met.refs, after.refs)]);
    hide Perform, Transact;
    assert Conclude(s, r, e) == Stop(after, r, e, Failed, Transaction(outcome));
    StopKeepsPublication(after, r, e, Failed, Transaction(outcome));
    if r.expectedLocal == Some(r.memory) {
      assert s.refs[Canonical(r) := r.memory] == s.refs;
    }
  }

  lemma PublishesTo(r: Request, refs: Repository, symbolic: set<string>, fault: Fault)
    requires symbolic == {} && !fault.Healthy? && AllExpected(refs, PublishUpdates(r))
    ensures var (outcome, after) := Transact(refs, symbolic, PublishUpdates(r), fault);
            && outcome != Committed
            && (fault.CommitRaises? && fault.landed ==> LeavesOpen(outcome) && after == refs[Canonical(r) := r.memory])
            && (!(fault.CommitRaises? && fault.landed) ==> after == refs)
  {
    WrittenRefs(r, Publication, refs);
  }

  lemma UnpublishedStep(s: State, step: Step)
    requires Unpublished(s) && step.author.Publication?
    ensures Unpublished(State(step.after, s.steps + [step])) <==> step.after == step.before
  {
    var steps := s.steps + [step];
    assert steps[|s.steps|] == step;
  }

  /** Reporting adds nobody's publication. */
  lemma StopKeepsPublication(s: State, r: Request, e: Environment, disposition: Disposition, reason: Reason)
    requires Alone(e)
    ensures var p := Stop(s, r, e, disposition, reason);
            && p.Ended? && p.result.Observed? && p.result.disposition == disposition && p.result.reason == reason
            && p.state.refs == s.refs && (Unpublished(p.state) <==> Unpublished(s))
  {
    var p := Stop(s, r, e, disposition, reason);
    assert forall k | 0 <= k < |s.steps| :: p.state.steps[k] == s.steps[k];
  }

  /**
   The other half of the converse: a first attempt whose publication transaction fails, with everything
   else working, is never verified; and it has moved the canonical ref all the same exactly if the failure
   was raised after the commit had landed (and there was something to move). Its report is then a timeout
   or a failed persistence.
   */
  lemma UnverifiedYetMoved(refs: Repository, r: Request, e: Environment, publication: Fault)
    requires !r.resume && HealthyBut(e, publication) && !publication.Healthy?
    requires Untouched(r, refs) && Lookup(refs, Canonical(r)) == r.expectedLocal
    ensures var p, landed := Recover(State(refs, []), r, e), publication.CommitRaises? && publication.landed;
            && p.result.Observed? && p.result.disposition.Failed?
            && Lookup(p.state.refs, Canonical(r)) == (if landed then Some(r.memory) else r.expectedLocal)
            && (!Unpublished(p.state) <==> landed && r.expectedLocal != Some(r.memory))
            && (landed ==> p.result.reason.Transaction? && LeavesOpen(p.result.reason.outcome))
  {
    RefsApart(r, r);
    hide Open, Retrieve, Conclude;
    HealthyOpen(r, refs, e, publication);
    OpenUnpublished(State(refs, []), r, e);
    var begun := Open(State(refs, []), r, e);
    HealthyRetrieve(r, begun.state, e, publication);
    RetrieveUnpublished(begun.state, r, e);
    var fetched := Retrieve(begun.state, r, e);
    FaultyConclude(r, fetched.state, e, publication);
  }

  /** Without the explicit continuation an already claimed or quarantined operation is left exactly as it is. */
  lemma FirstAttemptPreservesClaim(refs: Repository, r: Request, e: Environment)
    requires !r.resume && Alone(e)
    requires !Untouched(r, refs)
    ensures var p := Recover(State(refs, []), r, e);
            && p.result.Raised? && p.state.refs == refs
            && forall k | 0 <= k < |p.state.steps| :: p.state.steps[k].before == refs && p.state.steps[k].after == refs
  {
    var second := Disturb(Disturb(State(refs, []), e, 0), e, 1);
    assert second.refs == refs;
    var u := ClaimUpdates(r);
    assert !AllExpected(refs, u) by {
      assert u[0].expected.None? && u[1].expected.None?;
    }
    var (outcome, claimed) := Perform(second, e, 2, Claim, u);
    assert outcome != Committed && claimed.refs == refs;
  }

  /**
   Crash and resume, end to end: let a first attempt at an untouched operation die anywhere, under any
   faults. Then either no recovery ref is left, or the resumed request whose expectedLocal is the present
   canonical value completes the recovery.
   */
  lemma CrashThenResume(refs: Repository, r: Request, e: Environment, cut: nat, e': Environment)
    requires !r.resume && LeavesRecoveryRefs(e) && Healthy(e')
    requires Untouched(r, refs)
    ensures var left := After(refs, Attempt(r, e, cut));
            var again := r.(resume := true, expectedLocal := Lookup(left, Canonical(r)));
            var p := Recover(State(left, []), again, e');
            || Untouched(r, left)
            || (p.result == Observed(Verified, RemoteVerified, Some(false)) && p.state.refs == Completed(r, left))
  {
    var a := Attempt(r, e, cut);
    var left := After(refs, a);
    InterruptedStates([refs, left], [a], r, 1);
    var again := r.(resume := true, expectedLocal := Lookup(left, Canonical(r)));
    ResumeCompletes(left, again, e');
  }
}
