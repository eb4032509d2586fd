/**
 What a recovery reports, told by what it met and by the refs it leaves: which refusal, and whether recovery
 refs are still there for an operator to resume or remove.
 */
module RecoveryReports {
  import opened Common
  import opened Refs
  import opened Recovery
  import opened RecoveryRuns

  // ---------------------------------------------------------------- what is said to be retained

  /** What can be told about the two recovery refs in this order: quarantine first, then owner. */
  function Visible(r: Request, e: Environment, refs: Repository): Option<bool> {
    if Quarantine(r) in e.symbolic(8) then Some(true)
    else if e.unreadable(8) then None
    else if Quarantine(r) in refs then Some(true)
    else if Owner(r) in e.symbolic(9) then Some(true)
    else if e.unreadable(9) then None
    else Some(Owner(r) in refs)
  }

  ghost predicate Truthful(p: Progress, r: Request, e: Environment) {
    p.Ended? && p.result.Observed? ==>
      p.result.retained == if p.result.reason.RemoteVerified? then Some(false) else Visible(r, e, p.state.refs)
  }

  lemma StopTruthful(s: State, r: Request, e: Environment, disposition: Disposition, reason: Reason)
    requires Alone(e) && !reason.RemoteVerified?
    ensures Truthful(Stop(s, r, e, disposition, reason), r, e)
  {
  }

  lemma OpenTruthful(s: State, r: Request, e: Environment)
    requires Alone(e)
    ensures Open(s, r, e).Ended? ==> Open(s, r, e).result.Raised?
  {
    RefsApart(r, r);
    var second := Disturb(Disturb(s, e, 0), e, 1);
    assert second.refs == s.refs;
    ClaimLeavesNoQuarantine(second, r, e);
    hide Perform;
  }

  lemma ClaimLeavesNoQuarantine(s: State, r: Request, e: Environment)
    requires Alone(e)
    ensures var (outcome, claimed) := Perform(s, e, 2, Claim, ClaimUpdates(r));
            outcome == Committed ==> Lookup(claimed.refs, Quarantine(r)).None?
  {
    RefsApart(r, r);
    var u := ClaimUpdates(r);
    WrittenRefs(r, Claim, s.refs);
    assert AllExpected(s.refs, u) ==> Lookup(s.refs, Quarantine(r)) == u[1].expected;
  }

  lemma RetrieveTruthful(s: State, r: Request, e: Environment)
    requires Alone(e)
    ensures Truthful(Retrieve(s, r, e), r, e)
  {
    StopTruthful(s, r, e, Uncertain, TransportUncertain);
    StopTruthful(s, r, e, Uncertain, TransportResultUncertain);
    StopTruthful(s, r, e, Failed, FetchedStateUnavailable);
    var (outcome, after) := Perform(s, e, 4, Quarantining, QuarantineUpdates(r));
    StopTruthful(after, r, e, Failed, Transaction(outcome));
    hide Perform, Stop, Visible;
  }

  lemma ConcludeTruthful(s: State, r: Request, e: Environment)
    requires Alone(e)
    ensures Truthful(Conclude(s, r, e), r, e)
  {
    var seen := Disturb(s, e, 5);
    var objection := Objection(r, e, Read(seen, e, 5, Quarantine(r)));
    if objection.Some? {
      StopTruthful(seen, r, e, Failed, objection.value);
    } else {
      var (outcome, after) := Perform(seen, e, 6, Publication, PublishUpdates(r));
      StopTruthful(after, r, e, Failed, Transaction(outcome));
      StopTruthful(Perform(after, e, 7, Cleanup, CleanupUpdates(r)).1, r, e, Verified, CleanupRetained);
    }
    hide Perform, Stop, Visible;
  }

  lemma RecoveryTruthful(refs: Repository, r: Request, e: Environment)
    requires Alone(e)
    ensures Truthful(Recover(State(refs, []), r, e), r, e)
  {
    var s := State(refs, []);
    OpenTruthful(s, r, e);
    var begun := Open(s, r, e);
    if begun.On? {
      RetrieveTruthful(begun.state, r, e);
      ConcludeTruthful(begun.state, r, e);
      ConcludeTruthful(Retrieve(begun.state, r, e).state, r, e);
    }
    hide Open, Retrieve, Conclude, Visible;
  }

  lemma CleanupRemoves(s: State, r: Request, e: Environment)
    ensures var (outcome, after) := Perform(s, e, 7, Cleanup, CleanupUpdates(r));
            outcome == Committed ==> Untouched(r, after.refs)
  {
    RefsApart(r, r);
    WrittenRefs(r, Cleanup, Disturb(s, e, 7).refs);
    hide WriteAll;
  }

  /** A cleanup that is reported done has removed both refs. */
  lemma CleanedIsGone(s: State, r: Request, e: Environment)
    ensures var p := Conclude(s, r, e);
            p.result.Observed? && p.result.reason.RemoteVerified? ==> Untouched(r, p.state.refs)
  {
    hide Stop, Perform;
    var seen := Disturb(s, e, 5);
    var (outcome, after) := Perform(seen, e, 6, Publication, PublishUpdates(r));
    CleanupRemoves(after, r, e);
    var objection := Objection(r, e, Read(seen, e, 5, Quarantine(r)));
    StopReason(seen, r, e, Failed, if objection.Some? then objection.value else QuarantineMismatch);
    StopReason(after, r, e, Failed, Transaction(outcome));
    StopReason(Perform(after, e, 7, Cleanup, CleanupUpdates(r)).1, r, e, Verified, CleanupRetained);
  }

  lemma StopReason(s: State, r: Request, e: Environment, disposition: Disposition, reason: Reason)
    ensures var p := Stop(s, r, e, disposition, reason);
            p.Ended? && p.result.Observed? && p.result.reason == reason && p.result.disposition == disposition
  {
  }

  lemma VerifiedIsGone(refs: Repository, r: Request, e: Environment)
    requires Alone(e)
    ensures var p := Recover(State(refs, []), r, e);
            p.result.Observed? && p.result.reason.RemoteVerified? ==> Untouched(r, p.state.refs)
  {
    var s := State(refs, []);
    OpenTruthful(s, r, e);
    var begun := Open(s, r, e);
    if begun.On? {
      CleanedIsGone(begun.state, r, e);
      CleanedIsGone(Retrieve(begun.state, r, e).state, r, e);
      NotVerifiedYet(begun.state, r, e);
    }
    hide Open, Retrieve, Conclude;
  }

  lemma NotVerifiedYet(s: State, r: Request, e: Environment)
    ensures var p := Retrieve(s, r, e);
            p.Ended? && p.result.Observed? ==> !p.result.reason.RemoteVerified? && !p.result.reason.QuarantineConflict?
  {
    hide Perform, Stop;
    var (outcome, after) := Perform(s, e, 4, Quarantining, QuarantineUpdates(r));
    StopReason(s, r, e, Uncertain, TransportUncertain);
    StopReason(s, r, e, Uncertain, TransportResultUncertain);
    StopReason(s, r, e, Failed, FetchedStateUnavailable);
    StopReason(after, r, e, Failed, Transaction(outcome));
  }

  /**
   With nobody else about, a report that says whether recovery refs are retained is right about the refs it
   leaves; it says nothing only if a ref could not be inspected, and a symbolic ref counts as retained.
   */
  lemma RetentionTells(refs: Repository, r: Request, e: Environment)
    requires Alone(e)
    ensures var p := Recover(State(refs, []), r, e);
            p.result.Observed? ==>
              && ((forall at :: e.symbolic(at) == {}) && p.result.retained.Some? ==>
                    (p.result.retained.value <==> Owner(r) in p.state.refs || Quarantine(r) in p.state.refs))
              && (p.result.retained.None? ==> e.unreadable(8) || e.unreadable(9))
              && (p.result.retained == Some(false) && !p.result.reason.RemoteVerified? ==>
                    Quarantine(r) !in e.symbolic(8) && Owner(r) !in e.symbolic(9))
              && (p.result.retained == Some(false) ==> Untouched(r, p.state.refs))
  {
    RecoveryTruthful(refs, r, e);
    VerifiedIsGone(refs, r, e);
    hide Recover;
  }

  // ---------------------------------------------------------------- why it stops

  /** Everything can be read. */
  ghost predicate Clear(e: Environment) {
    Alone(e) && forall at :: e.symbolic(at) == {} && !e.unreadable(at)
  }

  /** The operation is claimed by this attempt or an earlier one, and nothing is quarantined yet. */
  ghost predicate ClaimHolds(r: Request, e: Environment, refs: Repository) {
    if r.resume then Owned(r, refs) && Lookup(refs, Quarantine(r)).None?
    else Untouched(r, refs) && e.faults(2).Healthy?
  }

  lemma OpensClaimed(r: Request, e: Environment, refs: Repository)
    requires Clear(e) && ClaimHolds(r, e, refs)
    ensures var p := Open(State(refs, []), r, e);
            p.On? && p.quarantined.None? && Owned(r, p.state.refs) && Lookup(p.state.refs, Quarantine(r)).None?
            && p.state.refs == refs[Owner(r) := r.marker]
  {
    RefsApart(r, r);
    var second := Disturb(Disturb(State(refs, []), e, 0), e, 1);
    assert second.refs == refs;
    if !r.resume {
      WrittenRefs(r, Claim, refs);
      var u := ClaimUpdates(r);
      assert AllExpected(refs, u) by {
        assert u[0].expected.None? && u[1].expected.None?;
      }
    } else {
      assert refs == refs[Owner(r) := r.marker];
    }
  }

  lemma StopLeaves(s: State, r: Request, e: Environment, disposition: Disposition, reason: Reason)
    requires Clear(e)
    ensures var p := Stop(s, r, e, disposition, reason);
            p.state.refs == s.refs
            && p.result == Observed(disposition, reason, Some(Quarantine(r) in s.refs || Owner(r) in s.refs))
  {
  }

  /**
   A claimed operation whose fetch fails: an interrupted or refused transport is uncertain, a State that does
   not resolve is a failure; each is reported as such, with the claim retained and nothing else changed.
   */
  lemma FetchReports(refs: Repository, r: Request, e: Environment)
    requires Clear(e) && e.remoteMatches && ClaimHolds(r, e, refs) && e.fetch != Fetched(true)
    ensures var p := Recover(State(refs, []), r, e);
            && p.state.refs == refs[Owner(r) := r.marker]
            && (e.fetch.TransportFails? ==> p.result == Observed(Uncertain, TransportUncertain, Some(true)))
            && (e.fetch.FetchRefused? ==> p.result == Observed(Uncertain, TransportResultUncertain, Some(true)))
            && (e.fetch == Fetched(false) ==> p.result == Observed(Failed, FetchedStateUnavailable, Some(true)))
  {
    OpensClaimed(r, e, refs);
    var s := Open(State(refs, []), r, e).state;
    StopLeaves(s, r, e, Uncertain, TransportUncertain);
    StopLeaves(s, r, e, Uncertain, TransportResultUncertain);
    StopLeaves(s, r, e, Failed, FetchedStateUnavailable);
    hide Open, Stop;
  }

  /** What stands against publishing a quarantined State, in the order of the tests. */
  predicate Objects(r: Request, e: Environment, reason: Reason) {
    var local := r.expectedLocal.Some?;
    match reason
    case LineageInvalid => !e.lineageValid
    case BindingInvalid => e.lineageValid && local && !e.bindingValid
    case LocalStateConflict => e.lineageValid && local && e.bindingValid && !e.localIsAncestor
    case BranchInUse => e.lineageValid && (local ==> e.bindingValid && e.localIsAncestor) && !e.branchUnused
    case _ => false
  }

  /** A quarantined operation that meets an objection fails for it, and everything stays as it was. */
  lemma ObjectionReports(refs: Repository, r: Request, e: Environment, reason: Reason)
    requires Clear(e) && e.remoteMatches && r.resume && Owned(r, refs) && Lookup(refs, Quarantine(r)) == Some(r.memory)
    requires Objects(r, e, reason)
    ensures var p := Recover(State(refs, []), r, e);
            p.state.refs == refs && p.result == Observed(Failed, reason, Some(true))
  {
    RefsApart(r, r);
    var second := Disturb(Disturb(State(refs, []), e, 0), e, 1);
    assert second.refs == refs;
    assert Open(State(refs, []), r, e) == On(second, Some(r.memory));
    var seen := Disturb(second, e, 5);
    StopLeaves(seen, r, e, Failed, reason);
    hide Open, Stop, Perform;
  }

  /** What is refused before any ref is changed, each exactly for its reason. */
  lemma RefusalReports(refs: Repository, r: Request, e: Environment)
    requires Clear(e)
    ensures var p := Recover(State(refs, []), r, e);
            && (p.result == Raised(RemoteStateMismatch) <==> !e.remoteMatches)
            && (p.result == Raised(OwnerMismatch) <==> e.remoteMatches && r.resume && !Owned(r, refs))
            && (p.result == Raised(QuarantineConflict) <==>
                  && e.remoteMatches && Quarantine(r) in refs
                  && (r.resume ==> Owned(r, refs) && Lookup(refs, Quarantine(r)) != Some(r.memory)))
            && (p.result in [Raised(RemoteStateMismatch), Raised(OwnerMismatch), Raised(QuarantineConflict)] ==>
                  p.state.refs == refs)
  {
    RefsApart(r, r);
    var s := State(refs, []);
    var second := Disturb(Disturb(s, e, 0), e, 1);
    assert second.refs == refs;
    ClaimLeavesNoQuarantine(second, r, e);
    hide Perform;
    OpenRefuses(refs, r, e);
    hide Open;
    NoRefusalLater(s, r, e);
  }

  lemma OpenRefuses(refs: Repository, r: Request, e: Environment)
    requires Clear(e)
    ensures var p := Open(State(refs, []), r, e);
            && (p.Ended? ==> p.result != Raised(RemoteStateMismatch))
            && (p.Ended? && p.result == Raised(OwnerMismatch) <==> r.resume && !Owned(r, refs))
            && (p.Ended? && p.result == Raised(QuarantineConflict) <==>
                  && Quarantine(r) in refs && (r.resume ==> Owned(r, refs) && Lookup(refs, Quarantine(r)) != Some(r.memory)))
            && (p.Ended? && (p.result == Raised(OwnerMismatch) || p.result == Raised(QuarantineConflict)) ==> p.state.refs == refs)
  {
    var second := Disturb(Disturb(State(refs, []), e, 0), e, 1);
    assert second.refs == refs;
    ClaimLeavesNoQuarantine(second, r, e);
    hide Perform;
  }

  /** From the fetch on every end is an observation. */
  lemma NoRefusalLater(s: State, r: Request, e: Environment)
    ensures var begun := Open(s, r, e);
            begun.On? ==>
              && (Retrieve(begun.state, r, e).Ended? ==> Retrieve(begun.state, r, e).result.Observed?)
              && Conclude(begun.state, r, e).result.Observed?
              && Conclude(Retrieve(begun.state, r, e).state, r, e).result.Observed?
  {
    hide Open;
    var begun := Open(s, r, e);
    if begun.On? {
      ConcludeObserves(begun.state, r, e);
      ConcludeObserves(Retrieve(begun.state, r, e).state, r, e);
      hide Conclude, Perform;
    }
  }

  lemma ConcludeObserves(s: State, r: Request, e: Environment)
    ensures Conclude(s, r, e).result.Observed?
  {
    hide Perform, Retained;
  }

  /**
   A quarantine that others put up right after the claim is reported failed and retained, and it is there;
   whoever moves what in between, no other recovery reports it so.
   */
  lemma LateQuarantineIsRetained(refs: Repository, r: Request, e: Environment)
    ensures var p := Recover(State(refs, []), r, e);
            p.result.Observed? && p.result.reason.QuarantineConflict? ==>
              && p.result == Observed(Failed, QuarantineConflict, Some(true))
              && !r.resume && Quarantine(r) in p.state.refs
  {
    hide Perform;
    var s := State(refs, []);
    OpenObserves(s, r, e);
    var begun := Open(s, r, e);
    if begun.On? {
      NotVerifiedYet(begun.state, r, e);
      OtherReasons(begun.state, r, e);
      OtherReasons(Retrieve(begun.state, r, e).state, r, e);
    }
    hide Open, Retrieve, Conclude;
  }

  lemma OpenObserves(s: State, r: Request, e: Environment)
    ensures var p := Open(s, r, e);
            p.Ended? && p.result.Observed? ==>
              p.result == Observed(Failed, QuarantineConflict, Some(true)) && !r.resume && Quarantine(r) in p.state.refs
  {
    hide Perform;
  }

  lemma OtherReasons(s: State, r: Request, e: Environment)
    ensures var p := Conclude(s, r, e); p.result.Observed? ==> !p.result.reason.QuarantineConflict?
  {
    hide Perform, Stop;
    var seen := Disturb(s, e, 5);
    var objection := Objection(r, e, Read(seen, e, 5, Quarantine(r)));
    StopReason(seen, r, e, Failed, if objection.Some? then objection.value else QuarantineMismatch);
    var (published, landed) := Perform(seen, e, 6, Publication, PublishUpdates(r));
    StopReason(landed, r, e, Failed, Transaction(published));
    StopReason(Perform(landed, e, 7, Cleanup, CleanupUpdates(r)).1, r, e, Verified, CleanupRetained);
  }
}
