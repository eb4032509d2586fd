/**
 Recovery together with the lineage test: what a recovery puts on the canonical ref has passed the
 validation that publication demands, and is built on what was there.
 */
module RecoveryLineage {
  import opened Common
  import opened Refs
  import opened Recovery
  import opened RecoveryRuns
  import Lineage

  // ---------------------------------------------------------------- publication comes after the tests

  ghost predicate NoPublication(s: State) {
    forall k | 0 <= k < |s.steps| :: !s.steps[k].author.Publication?
  }

  /** The tests between quarantine and publication had no objection. */
  predicate Approved(r: Request, e: Environment) {
    e.lineageValid && e.branchUnused && (r.expectedLocal.Some? ==> e.bindingValid && e.localIsAncestor)
  }

  lemma DisturbNoPublication(s: State, e: Environment, at: nat)
    requires NoPublication(s)
    ensures NoPublication(Disturb(s, e, at))
  {
  }

  lemma PerformNoPublication(s: State, e: Environment, at: nat, author: Author, updates: seq<Update<string>>)
    requires NoPublication(s) && !author.Publication?
    ensures NoPublication(Perform(s, e, at, author, updates).1)
  {
    DisturbNoPublication(s, e, at);
    hide Transact;
  }

  lemma StopNoPublication(s: State, r: Request, e: Environment, disposition: Disposition, reason: Reason)
    requires NoPublication(s)
    ensures NoPublication(Stop(s, r, e, disposition, reason).state)
  {
  }

  lemma OpenNoPublication(s: State, r: Request, e: Environment)
    requires NoPublication(s)
    ensures NoPublication(Open(s, r, e).state)
  {
    var second := Disturb(Disturb(s, e, 0), e, 1);
    assert NoPublication(second);
    PerformNoPublication(second, e, 2, Claim, ClaimUpdates(r));
    hide Perform;
  }

  lemma RetrieveNoPublication(s: State, r: Request, e: Environment)
    requires NoPublication(s)
    ensures NoPublication(Retrieve(s, r, e).state)
  {
    PerformNoPublication(s, e, 4, Quarantining, QuarantineUpdates(r));
    var (outcome, after) := Perform(s, e, 4, Quarantining, QuarantineUpdates(r));
    StopNoPublication(after, r, e, Failed, Transaction(outcome));
    StopNoPublication(s, r, e, Uncertain, TransportUncertain);
    StopNoPublication(s, r, e, Uncertain, TransportResultUncertain);
    StopNoPublication(s, r, e, Failed, FetchedStateUnavailable);
    hide Perform, Stop;
  }

  lemma ConcludeApproved(s: State, r: Request, e: Environment)
    requires NoPublication(s)
    ensures NoPublication(Conclude(s, r, e).state) || Approved(r, e)
  {
    var seen := Disturb(s, e, 5);
    DisturbNoPublication(s, e, 5);
    var objection := Objection(r, e, Read(seen, e, 5, Quarantine(r)));
    if objection.Some? {
      StopNoPublication(seen, r, e, Failed, objection.value);
    }
    hide Perform, Stop, NoPublication;
  }

  /** No recovery reaches its publication step unless every test passed. */
  lemma PublicationIsApproved(refs: Repository, r: Request, e: Environment)
    ensures NoPublication(Recover(State(refs, []), r, e).state) || Approved(r, e)
  {
    var s := State(refs, []);
    if e.remoteMatches {
      OpenNoPublication(s, r, e);
      var begun := Open(s, r, e);
      if begun.On? {
        RetrieveNoPublication(begun.state, r, e);
        ConcludeApproved(begun.state, r, e);
        ConcludeApproved(Retrieve(begun.state, r, e).state, r, e);
      }
    }
    hide Open, Retrieve, Conclude, NoPublication;
  }

  // ---------------------------------------------------------------- what the tests are

  /** Object IDs stand for commits, and the tests of the recovery are those of the lineage model. */
  ghost predicate Tested(
    commits: map<string, Lineage.Commit>, r: Request, e: Environment, l: Lineage.Request, listed: seq<Lineage.Commit>)
  {
    && r.memory in commits && commits[r.memory] == l.memory
    && Lineage.Enumerates(listed, l.baseline, l.memory)
    && (e.lineageValid <==> Lineage.Accepts(l, listed))
    && (r.expectedLocal.Some? ==>
          && r.expectedLocal.value in commits
          && var local := commits[r.expectedLocal.value];
             && (e.bindingValid <==> Lineage.ValidCommit(l, local))
             && (e.localIsAncestor <==> Lineage.Reaches(l.memory, local)))
  }

  /**
   What a recovery itself puts on the canonical ref, reported or not, is a State whose lineage was accepted:
   every commit above the baseline is a validated checkpoint, and the State it replaces is a valid ancestor,
   so no local history is lost.
   */
  lemma RecoveredIsValidated(
    refs: Repository, r: Request, e: Environment, commits: map<string, Lineage.Commit>, l: Lineage.Request,
    listed: seq<Lineage.Commit>, k: nat)
    requires Tested(commits, r, e, l, listed)
    requires k < |Recover(State(refs, []), r, e).state.steps|
    requires var step := Recover(State(refs, []), r, e).state.steps[k];
             !step.author.Others? && Lookup(step.after, Canonical(r)) != Lookup(step.before, Canonical(r))
    ensures var step := Recover(State(refs, []), r, e).state.steps[k];
            && Lineage.Accepts(l, listed)
            && Lookup(step.after, Canonical(r)) == Some(r.memory)
            && (forall c :: Lineage.Reaches(l.memory, c) && !Lineage.Reaches(l.baseline, c) ==> Lineage.ValidCommit(l, c))
            && match Lookup(step.before, Canonical(r))
               case None => true
               case Some(replaced) =>
                 && replaced in commits && Lineage.ValidCommit(l, commits[replaced])
                 && Lineage.Reaches(l.memory, commits[replaced])
  {
    PublicationIsApproved(refs, r, e);
    OnlyPublicationMovesCanonical(refs, r, e, k);
    hide Recover;
    assert !NoPublication(Recover(State(refs, []), r, e).state);
    Lineage.AcceptedIsTheChain(l, listed);
  }

  /** REMOTE_VERIFIED is reported only for a State with an accepted lineage. */
  lemma VerifiedIsValidated(
    refs: Repository, r: Request, e: Environment, commits: map<string, Lineage.Commit>, l: Lineage.Request,
    listed: seq<Lineage.Commit>)
    requires Tested(commits, r, e, l, listed) && IsVerified(Recover(State(refs, []), r, e).result)
    ensures Lineage.Accepts(l, listed) && Last(listed) == commits[r.memory]
    ensures r.expectedLocal.Some? ==> Lineage.Reaches(commits[r.memory], commits[r.expectedLocal.value])
  {
    RecoveryIsGuarded(refs, r, e);
    PublicationIsApproved(refs, r, e);
    hide Recover;
    assert !NoPublication(Recover(State(refs, []), r, e).state);
    Lineage.AcceptedIsTheChain(l, listed);
  }
}
