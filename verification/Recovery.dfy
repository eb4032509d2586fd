/**
 Guarded recovery of one Instance's memory: claim an operation, quarantine the fetched State, move the
 canonical ref, and clean up, each as one ref transaction.

 Anyone may move any ref between two instants at which the recovery looks at or changes refs. A recovery
 is described by the list of ref changes that happen while it runs, its own and those of others; a process
 that dies leaves the refs after some prefix of that list.
 */
module Recovery {
  import opened Common
  import opened Refs

  type Repository = map<string, string>

  /**
   One request. The marker blob and the identity of the operation refs are digests over the repository,
   environment, Instance, operation ID, memory State and destination; neither covers expectedLocal.
   */
  datatype Request = Request(
    identity: string, marker: string, memory: string, instance: string, expectedLocal: Option<string>, resume: bool)

  function Quarantine(r: Request): string {
    "refs/peoplebot/quarantine/v0/" + r.identity
  }

  function Owner(r: Request): string {
    "refs/peoplebot/quarantine-owners/v0/" + r.identity
  }

  function Canonical(r: Request): string {
    "refs/heads/peoplebot/instances/v0/" + r.instance
  }

  /** The three refs of one request are three refs, and requests share one only if they share its identity. */
  lemma RefsApart(r: Request, other: Request)
    ensures Quarantine(r) != Owner(other) && Quarantine(r) != Canonical(other) && Owner(r) != Canonical(other)
    ensures Quarantine(r) == Quarantine(other) <==> r.identity == other.identity
    ensures Owner(r) == Owner(other) <==> r.identity == other.identity
  {
    var quarantine, owner := "refs/peoplebot/quarantine/v0/", "refs/peoplebot/quarantine-owners/v0/";
    assert Quarantine(r)[25] == '/' && Owner(other)[25] == '-';
    assert Quarantine(r)[5] == 'p' && Owner(r)[5] == 'p' && Canonical(other)[5] == 'h';
    assert Quarantine(r)[|quarantine|..] == r.identity && Quarantine(other)[|quarantine|..] == other.identity;
    assert Owner(r)[|owner|..] == r.identity && Owner(other)[|owner|..] == other.identity;
  }

  // ---------------------------------------------------------------- what a recovery meets

  datatype Fetch = TransportFails | FetchRefused | Fetched(resolves: bool)

  /** Everything outside the process. Instants are numbered in the order in which the refs are touched. */
  datatype Environment = Environment(
    remoteMatches: bool, outside: nat -> (Repository -> Repository), symbolic: nat -> set<string>,
    unreadable: nat -> bool, faults: nat -> Fault, fetch: Fetch, lineageValid: bool, bindingValid: bool,
    localIsAncestor: bool, branchUnused: bool)

  datatype Reason =
    | RemoteStateMismatch | RefSymbolic | RefInspectionFailed | OwnerMismatch | QuarantineConflict
    | Transaction(outcome: Outcome) | TransportUncertain | TransportResultUncertain | FetchedStateUnavailable
    | QuarantineMismatch | LineageInvalid | BindingInvalid | LocalStateConflict | BranchInUse
    | RemoteVerified | CleanupRetained

  datatype Disposition = Verified | Failed | Uncertain

  datatype Result =
    | Raised(reason: Reason)
    | Observed(disposition: Disposition, reason: Reason, retained: Option<bool>)

  datatype Author = Others | Claim | Quarantining | Publication | Cleanup

  /** One change of the refs, possibly none, and who made it. */
  datatype Step = Step(author: Author, before: Repository, after: Repository)

  datatype State = State(refs: Repository, steps: seq<Step>)

  // ---------------------------------------------------------------- reading and writing refs

  function Disturb(s: State, e: Environment, at: nat): State {
    var refs := e.outside(at)(s.refs);
    State(refs, s.steps + [Step(Others, s.refs, refs)])
  }

  datatype Reading = Value(value: Option<string>) | Unknown(reason: Reason)

  function Read(s: State, e: Environment, at: nat, name: string): Reading {
    if name in e.symbolic(at) then Unknown(RefSymbolic)
    else if e.unreadable(at) then Unknown(RefInspectionFailed)
    else Value(Lookup(s.refs, name))
  }

  /** Others may interfere up to the instant at which a transaction is prepared. */
  function Perform(s: State, e: Environment, at: nat, author: Author, updates: seq<Update<string>>): (Outcome, State) {
    var seen := Disturb(s, e, at);
    var (outcome, refs) := Transact(seen.refs, e.symbolic(at), updates, e.faults(at));
    (outcome, State(refs, seen.steps + [Step(author, seen.refs, refs)]))
  }

  function ClaimUpdates(r: Request): seq<Update<string>> {
    [Update(Owner(r), Put(r.marker), None), Update(Quarantine(r), Verify, None)]
  }

  function QuarantineUpdates(r: Request): seq<Update<string>> {
    [Update(Owner(r), Verify, Some(r.marker)), Update(Quarantine(r), Put(r.memory), None)]
  }

  function PublishUpdates(r: Request): seq<Update<string>> {
    [Update(Owner(r), Verify, Some(r.marker)), Update(Quarantine(r), Verify, Some(r.memory)),
     Update(Canonical(r), Put(r.memory), r.expectedLocal)]
  }

  function CleanupUpdates(r: Request): seq<Update<string>> {
    [Update(Quarantine(r), Delete, Some(r.memory)), Update(Owner(r), Delete, Some(r.marker)),
     Update(Canonical(r), Verify, Some(r.memory))]
  }

  // ---------------------------------------------------------------- one recovery

  datatype Progress = Ended(state: State, result: Result) | On(state: State, quarantined: Option<string>)

  /** Whether a recovery ref is still there, as far as can be told: quarantine first, then owner. */
  function Retained(s: State, r: Request, e: Environment): (State, Option<bool>) {
    var first := Disturb(s, e, 8);
    match Read(first, e, 8, Quarantine(r))
    case Unknown(reason) => (first, if reason.RefSymbolic? then Some(true) else None)
    case Value(Some(_)) => (first, Some(true))
    case Value(None) =>
      var second := Disturb(first, e, 9);
      match Read(second, e, 9, Owner(r))
      case Unknown(reason) => (second, if reason.RefSymbolic? then Some(true) else None)
      case Value(owner) => (second, Some(owner.Some?))
  }

  function Stop(s: State, r: Request, e: Environment, disposition: Disposition, reason: Reason): Progress {
    var (after, retained) := Retained(s, r, e);
    Ended(after, Observed(disposition, reason, retained))
  }

  /** A first attempt claims the operation; both refs must be absent. */
  function Begin(s: State, r: Request, e: Environment): Progress {
    var (outcome, claimed) := Perform(s, e, 2, Claim, ClaimUpdates(r));
    if outcome != Committed then Ended(claimed, Raised(Transaction(outcome)))
    else
      var again := Disturb(claimed, e, 3);
      match Read(again, e, 3, Quarantine(r))
      case Unknown(reason) => Ended(again, Raised(reason))
      case Value(None) => On(again, None)
      case Value(Some(_)) => Ended(again, Observed(Failed, QuarantineConflict, Some(true)))
  }

  /** Look at both refs, then continue an exact earlier claim or make a new one. */
  function Open(s: State, r: Request, e: Environment): Progress {
    var first := Disturb(s, e, 0);
    match Read(first, e, 0, Quarantine(r))
    case Unknown(reason) => Ended(first, Raised(reason))
    case Value(quarantine) =>
      var second := Disturb(first, e, 1);
      match Read(second, e, 1, Owner(r))
      case Unknown(reason) => Ended(second, Raised(reason))
      case Value(owner) =>
        if r.resume then
          if owner != Some(r.marker) then Ended(second, Raised(OwnerMismatch))
          else if quarantine != None && quarantine != Some(r.memory) then Ended(second, Raised(QuarantineConflict))
          else On(second, quarantine)
        else if quarantine != None then Ended(second, Raised(QuarantineConflict))
        else Begin(second, r, e)
  }

  /** Fetch the remote State and quarantine it, unless an earlier attempt did. */
  function Retrieve(s: State, r: Request, e: Environment): Progress {
    match e.fetch
    case TransportFails => Stop(s, r, e, Uncertain, TransportUncertain)
    case FetchRefused => Stop(s, r, e, Uncertain, TransportResultUncertain)
    case Fetched(resolves) =>
      if !resolves then Stop(s, r, e, Failed, FetchedStateUnavailable)
      else
        var (outcome, after) := Perform(s, e, 4, Quarantining, QuarantineUpdates(r));
        if outcome != Committed then Stop(after, r, e, Failed, Transaction(outcome)) else On(after, Some(r.memory))
  }

  /** The checks between quarantine and publication, in order. */
  function Objection(r: Request, e: Environment, quarantine: Reading): Option<Reason> {
    if quarantine.Unknown? then Some(quarantine.reason)
    else if quarantine.value != Some(r.memory) then Some(QuarantineMismatch)
    else if !e.lineageValid then Some(LineageInvalid)
    else if r.expectedLocal.Some? && !e.bindingValid then Some(BindingInvalid)
    else if r.expectedLocal.Some? && !e.localIsAncestor then Some(LocalStateConflict)
    else if !e.branchUnused then Some(BranchInUse)
    else None
  }

  function Publish(s: State, r: Request, e: Environment): Progress {
    var seen := Disturb(s, e, 5);
    match Objection(r, e, Read(seen, e, 5, Quarantine(r)))
    case Some(reason) => Stop(seen, r, e, Failed, reason)
    case None =>
      var (outcome, after) := Perform(seen, e, 6, Publication, PublishUpdates(r));
      if outcome != Committed then Stop(after, r, e, Failed, Transaction(outcome)) else On(after, Some(r.memory))
  }

  /** Remove both recovery refs together; a failure to do so does not undo the verified result. */
  function Clean(s: State, r: Request, e: Environment): Progress {
    var (outcome, after) := Perform(s, e, 7, Cleanup, CleanupUpdates(r));
    if outcome == Committed then Ended(after, Observed(Verified, RemoteVerified, Some(false)))
    else Stop(after, r, e, Verified, CleanupRetained)
  }

  function Conclude(s: State, r: Request, e: Environment): (p: Progress)
    ensures p.Ended?
  {
    match Publish(s, r, e)
    case On(published, _) => Clean(published, r, e)
    case ended => ended
  }

  function Recover(s: State, r: Request, e: Environment): (p: Progress)
    ensures p.Ended?
  {
    if !e.remoteMatches then Ended(s, Raised(RemoteStateMismatch))
    else
      match Open(s, r, e)
      case Ended(after, result) => Ended(after, result)
      case On(begun, Some(_)) => Conclude(begun, r, e)
      case On(begun, None) =>
        match Retrieve(begun, r, e)
        case Ended(after, result) => Ended(after, result)
        case On(fetched, _) => Conclude(fetched, r, e)
  }

  /** The running recovery. */
  class Recoverer {
    var refs: Repository
    ghost var steps: seq<Step>

    ghost function Now(): State
      reads this
    {
      State(refs, steps)
    }

    /** Whatever others do up to an instant. */
    method Meanwhile(e: Environment, at: nat)
      modifies this
      ensures Now() == Disturb(old(Now()), e, at)
    {
      ghost var before := refs;
      refs := e.outside(at)(refs);
      steps := steps + [Step(Others, before, refs)];
    }

    method RefValue(e: Environment, at: nat, name: string) returns (reading: Reading)
      ensures reading == Read(Now(), e, at, name)
    {
      reading := if name in e.symbolic(at) then Unknown(RefSymbolic)
                 else if e.unreadable(at) then Unknown(RefInspectionFailed)
                 else Value(Lookup(refs, name));
    }

    method Update(e: Environment, at: nat, author: Author, updates: seq<Update<string>>) returns (outcome: Outcome)
      modifies this
      ensures (outcome, Now()) == Perform(old(Now()), e, at, author, updates)
    {
      Meanwhile(e, at);
      ghost var before := refs;
      var result := Transact(refs, e.symbolic(at), updates, e.faults(at));
      outcome, refs := result.0, result.1;
      steps := steps + [Step(author, before, refs)];
    }

    method Report(r: Request, e: Environment, disposition: Disposition, reason: Reason) returns (result: Result)
      modifies this
      ensures Ended(Now(), result) == Stop(old(Now()), r, e, disposition, reason)
    {
      Meanwhile(e, 8);
      var reading := RefValue(e, 8, Quarantine(r));
      if reading == Value(None) {
        Meanwhile(e, 9);
        reading := RefValue(e, 9, Owner(r));
      }
      var retained := match reading
        case Unknown(why) => if why.RefSymbolic? then Some(true) else None
        case Value(value) => Some(value.Some?);
      result := Observed(disposition, reason, retained);
    }

    method OpenOperation(r: Request, e: Environment) returns (stop: Option<Result>, quarantined: Option<string>)
      modifies this
      ensures Open(old(Now()), r, e) == if stop.Some? then Ended(Now(), stop.value) else On(Now(), quarantined)
    {
      stop, quarantined := None, None;
      Meanwhile(e, 0);
      var reading := RefValue(e, 0, Quarantine(r));
      if reading.Unknown? {
        return Some(Raised(reading.reason)), None;
      }
      quarantined := reading.value;
      Meanwhile(e, 1);
      reading := RefValue(e, 1, Owner(r));
      if reading.Unknown? {
        return Some(Raised(reading.reason)), None;
      }
      if r.resume {
        if reading.value != Some(r.marker) {
          stop := Some(Raised(OwnerMismatch));
        } else if quarantined != None && quarantined != Some(r.memory) {
          stop := Some(Raised(QuarantineConflict));
        }
        return;
      }
      if quarantined != None {
        return Some(Raised(QuarantineConflict)), None;
      }
      var outcome := Update(e, 2, Claim, ClaimUpdates(r));
      if outcome != Committed {
        return Some(Raised(Transaction(outcome))), None;
      }
      Meanwhile(e, 3);
      reading := RefValue(e, 3, Quarantine(r));
      if reading.Unknown? {
        return Some(Raised(reading.reason)), None;
      }
      quarantined := reading.value;
      if quarantined != None {
        stop := Some(Observed(Failed, QuarantineConflict, Some(true)));
      }
    }

    method FetchAndQuarantine(r: Request, e: Environment) returns (stop: Option<Result>)
      modifies this
      ensures Retrieve(old(Now()), r, e) == if stop.Some? then Ended(Now(), stop.value) else On(Now(), Some(r.memory))
    {
      var result: Result;
      match e.fetch {
        case TransportFails => result := Report(r, e, Uncertain, TransportUncertain);
        case FetchRefused => result := Report(r, e, Uncertain, TransportResultUncertain);
        case Fetched(resolves) =>
          if !resolves {
            result := Report(r, e, Failed, FetchedStateUnavailable);
          } else {
            var outcome := Update(e, 4, Quarantining, QuarantineUpdates(r));
            if outcome == Committed {
              return None;
            }
            result := Report(r, e, Failed, Transaction(outcome));
          }
      }
      return Some(result);
    }

    method PublishAndClean(r: Request, e: Environment) returns (result: Result)
      modifies this
      ensures Conclude(old(Now()), r, e) == Ended(Now(), result)
    {
      Meanwhile(e, 5);
      var reading := RefValue(e, 5, Quarantine(r));
      var objection := Objection(r, e, reading);
      if objection.Some? {
        result := Report(r, e, Failed, objection.value);
        return;
      }
      var outcome := Update(e, 6, Publication, PublishUpdates(r));
      if outcome != Committed {
        result := Report(r, e, Failed, Transaction(outcome));
        return;
      }
      outcome := Update(e, 7, Cleanup, CleanupUpdates(r));
      if outcome == Committed {
        result := Observed(Verified, RemoteVerified, Some(false));
      } else {
        result := Report(r, e, Verified, CleanupRetained);
      }
    }

    /** `recover_instance_memory`. */
    method RecoverInstanceMemory(r: Request, e: Environment) returns (result: Result)
      modifies this
      ensures Recover(old(Now()), r, e) == Ended(Now(), result)
    {
      if !e.remoteMatches {
        return Raised(RemoteStateMismatch);
      }
      var stop, quarantined := OpenOperation(r, e);
      if stop.Some? {
        return stop.value;
      }
      if quarantined.None? {
        stop := FetchAndQuarantine(r, e);
        if stop.Some? {
          return stop.value;
        }
      }
      result := PublishAndClean(r, e);
    }
  }
}
