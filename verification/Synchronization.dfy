/**
 Publication of a memory State to its owner's remote, and the later look at an uncertain publication.

 The remote accepts a push only as a fast-forward. A push whose command is stopped or breaks off may reach
 the remote at any later time, and other writers may push there too.
 */
module Synchronization {
  import opened Common
  import opened Lineage

  /** `pending` holds the commits of pushes without an answer, which may still reach the remote. */
  datatype World = World(remote: Option<Commit>, pending: set<Commit>)

  /** What reaches the remote in between: one of our own unanswered pushes, or somebody else's. */
  datatype Arrival = Late(commit: Commit) | Foreign(commit: Commit)

  predicate FastForward(remote: Option<Commit>, next: Commit) {
    remote.Some? ==> Reaches(next, remote.value)
  }

  function Arrive(w: World, a: Arrival): World {
    if (a.Late? ==> a.commit in w.pending) && FastForward(w.remote, a.commit) then w.(remote := Some(a.commit)) else w
  }

  function ArriveAll(w: World, arrivals: seq<Arrival>, n: nat): World
    requires n <= |arrivals|
  {
    if n == 0 then w else Arrive(ArriveAll(w, arrivals, n - 1), arrivals[n - 1])
  }

  function Meanwhile(w: World, arrivals: seq<Arrival>): World {
    ArriveAll(w, arrivals, |arrivals|)
  }

  /** The push command is stopped or breaks off, fails before the remote, or is decided by the remote. */
  datatype PushFate = PushStopped | PushBroken | PushNotSent | PushSent(reported: bool)

  datatype Environment = Environment(
    source: Option<Commit>, destinationOk: bool, arrivals: nat -> seq<Arrival>, inspectFails: nat -> bool,
    push: PushFate)

  datatype Reason =
    | LineageRefused | SourceRefMismatch | DestinationRefused | RemoteInspectionFailed | RemoteStateMismatch

  datatype Code =
    | TransportUncertain | TransportResultUncertain | VerificationUnavailable | VerificationMismatch
    | ReconciliationUnavailable | PriorStateObserved | InterveningState | RemoteVerified

  datatype Disposition = Verified | Failed | Uncertain
  datatype Result = Raised(reason: Reason) | Observed(disposition: Disposition, code: Code, observed: Option<Commit>)

  datatype Published = Published(trace: seq<World>, result: Result)

  /** The push command: the new world, and whether it exits with success. */
  function Push(w: World, commit: Commit, fate: PushFate): (World, bool) {
    match fate
    case PushStopped => (w.(pending := w.pending + {commit}), false)
    case PushBroken => (w.(pending := w.pending + {commit}), false)
    case PushNotSent => (w, false)
    case PushSent(reported) =>
      if FastForward(w.remote, commit) then (w.(remote := Some(commit)), reported) else (w, false)
  }

  /** Push the validated State, then look again. */
  function PushAndVerify(w: World, r: Request, e: Environment): (p: Published)
    ensures p.trace != [] && p.trace[0] == w
  {
    var before := Meanwhile(w, e.arrivals(1));
    var (pushed, exited) := Push(before, r.memory, e.push);
    if e.push.PushStopped? then
      Published([w, before, pushed], Observed(Uncertain, TransportUncertain, r.expectedRemote))
    else if !exited then
      Published([w, before, pushed], Observed(Uncertain, TransportResultUncertain, r.expectedRemote))
    else
      var after := Meanwhile(pushed, e.arrivals(2));
      Published(
        [w, before, pushed, after],
        if e.inspectFails(1) then Observed(Uncertain, VerificationUnavailable, None)
        else if after.remote != Some(r.memory) then Observed(Uncertain, VerificationMismatch, after.remote)
        else Observed(Verified, RemoteVerified, after.remote))
  }

  /** Validate lineage, source and destination, compare the remote, push. */
  function Synchronize(w: World, r: Request, listed: seq<Commit>, e: Environment): (p: Published)
    ensures p.trace != [] && p.trace[0] == w
  {
    if !Accepts(r, listed) then Published([w], Raised(LineageRefused))
    else if e.source != Some(r.memory) then Published([w], Raised(SourceRefMismatch))
    else if !e.destinationOk then Published([w], Raised(DestinationRefused))
    else
      var seen := Meanwhile(w, e.arrivals(0));
      if e.inspectFails(0) then Published([w, seen], Raised(RemoteInspectionFailed))
      else if seen.remote != r.expectedRemote then Published([w, seen], Raised(RemoteStateMismatch))
      else
        var rest := PushAndVerify(seen, r, e);
        Published([w] + rest.trace, rest.result)
  }

  /** Look again at an earlier attempt, without retrying it. */
  function Reconcile(w: World, r: Request, listed: seq<Commit>, e: Environment): (p: Published)
    ensures p.trace != [] && p.trace[0] == w
  {
    if !Accepts(r, listed) then Published([w], Raised(LineageRefused))
    else if !e.destinationOk then Published([w], Raised(DestinationRefused))
    else
      var now := Meanwhile(w, e.arrivals(0));
      Published(
        [w, now],
        if e.inspectFails(0) then Observed(Uncertain, ReconciliationUnavailable, None)
        else if now.remote == Some(r.memory) then Observed(Verified, RemoteVerified, now.remote)
        else if now.remote == r.expectedRemote then Observed(Uncertain, PriorStateObserved, now.remote)
        else Observed(Failed, InterveningState, now.remote))
  }

  // ---------------------------------------------------------------- the running synchronizer

  class Synchronizer {
    var remote: Option<Commit>
    var pending: set<Commit>
    ghost var history: seq<World>

    function Now(): World
      reads this
    {
      World(remote, pending)
    }

    /** The recorded history ends in the present world. */
    ghost predicate Recorded()
      reads this
    {
      history != [] && Last(history) == Now()
    }

    constructor (remote: Option<Commit>)
      ensures Recorded() && history == [World(remote, {})]
    {
      this.remote, this.pending := remote, {};
      history := [World(remote, {})];
    }

    /** What reaches the remote between two commands. */
    method Wait(arrivals: seq<Arrival>)
      requires Recorded()
      modifies this
      ensures Recorded() && history == old(history) + [Meanwhile(old(Now()), arrivals)]
    {
      for n := 0 to |arrivals|
        invariant Now() == ArriveAll(old(Now()), arrivals, n) && history == old(history)
      {
        var next := Arrive(Now(), arrivals[n]);
        remote := next.remote;
      }
      history := history + [Now()];
    }

    method PushCommit(commit: Commit, fate: PushFate) returns (exited: bool)
      requires Recorded()
      modifies this
      ensures Recorded() && (Now(), exited) == Push(old(Now()), commit, fate)
      ensures history == old(history) + [Now()]
    {
      exited := false;
      match fate {
        case PushStopped => pending := pending + {commit};
        case PushBroken => pending := pending + {commit};
        case PushNotSent =>
        case PushSent(reported) =>
          if FastForward(remote, commit) {
            remote, exited := Some(commit), reported;
          }
      }
      history := history + [Now()];
    }

    /** `synchronize_instance_memory` after its preflight. */
    method PushAndInspect(r: Request, e: Environment) returns (result: Result)
      requires Recorded()
      modifies this
      ensures Recorded()
      ensures var p := PushAndVerify(old(Now()), r, e);
              result == p.result && history == old(history) + p.trace[1..]
    {
      Wait(e.arrivals(1));
      var exited := PushCommit(r.memory, e.push);
      if e.push.PushStopped? {
        return Observed(Uncertain, TransportUncertain, r.expectedRemote);
      }
      if !exited {
        return Observed(Uncertain, TransportResultUncertain, r.expectedRemote);
      }
      Wait(e.arrivals(2));
      if e.inspectFails(1) {
        return Observed(Uncertain, VerificationUnavailable, None);
      }
      if remote != Some(r.memory) {
        return Observed(Uncertain, VerificationMismatch, remote);
      }
      return Observed(Verified, RemoteVerified, remote);
    }

    /** `synchronize_instance_memory`. */
    method SynchronizeMemory(r: Request, listed: seq<Commit>, e: Environment) returns (result: Result)
      requires Recorded()
      modifies this
      ensures Recorded()
      ensures var p := Synchronize(old(Now()), r, listed, e);
              result == p.result && history == old(history) + p.trace[1..]
    {
      var verdict := ValidateLineage(r, Reaches(r.memory, r.baseline), listed);
      if verdict.Refused? {
        return Raised(LineageRefused);
      }
      if e.source != Some(r.memory) {
        return Raised(SourceRefMismatch);
      }
      if !e.destinationOk {
        return Raised(DestinationRefused);
      }
      Wait(e.arrivals(0));
      if e.inspectFails(0) {
        return Raised(RemoteInspectionFailed);
      }
      if remote != r.expectedRemote {
        return Raised(RemoteStateMismatch);
      }
      result := PushAndInspect(r, e);
    }

    /** `reconcile_instance_memory`. */
    method ReconcileMemory(r: Request, listed: seq<Commit>, e: Environment) returns (result: Result)
      requires Recorded()
      modifies this
      ensures Recorded()
      ensures var p := Reconcile(old(Now()), r, listed, e);
              result == p.result && history == old(history) + p.trace[1..]
    {
      var verdict := ValidateLineage(r, Reaches(r.memory, r.baseline), listed);
      if verdict.Refused? {
        return Raised(LineageRefused);
      }
      if !e.destinationOk {
        return Raised(DestinationRefused);
      }
      Wait(e.arrivals(0));
      if e.inspectFails(0) {
        return Observed(Uncertain, ReconciliationUnavailable, None);
      }
      if remote == Some(r.memory) {
        return Observed(Verified, RemoteVerified, remote);
      }
      if remote == r.expectedRemote {
        return Observed(Uncertain, PriorStateObserved, remote);
      }
      return Observed(Failed, InterveningState, remote);
    }
  }

  // ---------------------------------------------------------------- what a push adds

  /** Between two commits of a chain lie exactly the chain's commits above the lower one. */
  lemma ChainSuffix(chain: seq<Commit>, baseline: Commit, n: nat, c: Commit)
    requires chain != [] && Chain(chain, baseline) && n <= |chain|
    ensures var x := if n == 0 then baseline else chain[n - 1];
            c in chain[n..] <==> Reaches(Last(chain), c) && !Reaches(x, c)
  {
    ChainDistinct(chain, baseline);
    AboveChain(chain, baseline, c, |chain| - 1);
    if n > 0 {
      AboveChain(chain, baseline, c, n - 1);
    }
    hide Reaches, Chain;
    forall k | 0 <= k < |chain| && chain[k] == c ensures c in chain[n..] <==> k >= n {
      if k >= n {
        assert chain[n..][k - n] == c;
      }
    }
    forall k | 0 <= k < |chain| ensures !Reaches(baseline, chain[k]) {
      ChainNotBelow(chain, baseline, k);
    }
  }

  /** A commit `n` steps up the chain. */
  predicate StandsAt(x: Commit, baseline: Commit, listed: seq<Commit>, n: nat)
    requires n <= |listed|
  {
    x == if n == 0 then baseline else listed[n - 1]
  }

  /** How far up the chain the expected remote State stands. */
  lemma ExpectedPlace(r: Request, listed: seq<Commit>) returns (n: nat)
    requires RemoteOk(r, listed) && r.expectedRemote.Some?
    ensures n <= |listed| && StandsAt(r.expectedRemote.value, r.baseline, listed, n)
  {
    if r.expectedRemote.value == r.baseline {
      return 0;
    }
    var k :| 0 <= k < |listed| && listed[k] == r.expectedRemote.value;
    return k + 1;
  }

  /**
   A push from the expected remote State is a fast-forward, and adds exactly the validated commits of the
   chain above that State; a first publication adds the whole chain and the baseline with its history.
   */
  lemma PushAddsTheChainAbove(r: Request, listed: seq<Commit>, c: Commit)
    requires Enumerates(listed, r.baseline, r.memory) && Accepts(r, listed)
    ensures FastForward(r.expectedRemote, r.memory)
    ensures match r.expectedRemote
            case None => Reaches(r.memory, c) <==> c in listed || Reaches(r.baseline, c)
            case Some(x) =>
              exists n | 0 <= n <= |listed| ::
                StandsAt(x, r.baseline, listed, n) && (c in listed[n..] <==> Reaches(r.memory, c) && !Reaches(x, c))
  {
    AcceptedIsTheChain(r, listed);
    if r.expectedRemote.Some? {
      var n := ExpectedPlace(r, listed);
      hide ValidCommit, Enumerates, AllValid, RemoteOk;
      ChainSuffix(listed, r.baseline, n, c);
      ChainReaches(listed, r.baseline, if n > 0 then n - 1 else 0, |listed| - 1);
      hide Reaches, Chain;
    } else {
      AboveChain(listed, r.baseline, c, |listed| - 1);
      hide Reaches;
      assert c in listed <==> exists j | 0 <= j <= |listed| - 1 :: listed[j] == c;
    }
  }

  // ---------------------------------------------------------------- runs

  /** Remote history is only ever extended. */
  ghost predicate Grows(w: World, next: World) {
    w.remote.Some? ==> next.remote.Some? && Reaches(next.remote.value, w.remote.value)
  }

  lemma GrowsTransitive(a: World, b: World, c: World)
    requires Grows(a, b) && Grows(b, c)
    ensures Grows(a, c)
  {
    if a.remote.Some? {
      ReachesTransitive(c.remote.value, b.remote.value, a.remote.value);
    }
  }

  lemma {:induction false} ArrivalsGrow(w: World, arrivals: seq<Arrival>, n: nat)
    requires n <= |arrivals|
    ensures Grows(w, ArriveAll(w, arrivals, n))
  {
    if n > 0 {
      ArrivalsGrow(w, arrivals, n - 1);
      GrowsTransitive(w, ArriveAll(w, arrivals, n - 1), ArriveAll(w, arrivals, n));
    }
  }

  datatype Action =
    | Publishing(request: Request, listed: seq<Commit>, environment: Environment, cut: nat)
    | Looking(request: Request, listed: seq<Commit>, environment: Environment)

  function Did(w: World, a: Action): Published {
    match a
    case Publishing(r, listed, e, _) => Synchronize(w, r, listed, e)
    case Looking(r, listed, e) => Reconcile(w, r, listed, e)
  }

  /** The process may die at any point of a publication. */
  function After(w: World, a: Action): World {
    var trace := Did(w, a).trace;
    if a.Publishing? && a.cut < |trace| then trace[a.cut] else Last(trace)
  }

  ghost predicate IsRun(ws: seq<World>, actions: seq<Action>) {
    && |ws| == |actions| + 1 && ws[0].pending == {}
    && (forall k | 0 <= k < |actions| ::
          Enumerates(actions[k].listed, actions[k].request.baseline, actions[k].request.memory))
    && forall k | 0 <= k < |actions| :: ws[k + 1] == After(ws[k], actions[k])
  }

  /** Each world of a trace extends the first one. */
  lemma TraceGrows(w: World, a: Action, k: nat)
    requires k < |Did(w, a).trace|
    ensures Grows(w, Did(w, a).trace[k])
  {
    ArrivalsGrow(w, a.environment.arrivals(0), |a.environment.arrivals(0)|);
    var seen := Meanwhile(w, a.environment.arrivals(0));
    if a.Publishing? && |Did(w, a).trace| > 2 {
      PushGrows(seen, a.request, a.environment, if k == 0 then 0 else k - 1);
      hide Meanwhile, PushAndVerify;
      assert k > 0 ==> Did(w, a).trace[k] == PushAndVerify(seen, a.request, a.environment).trace[k - 1];
      if k > 0 {
        GrowsTransitive(w, seen, Did(w, a).trace[k]);
      }
    }
  }

  lemma PushGrows(w: World, r: Request, e: Environment, k: nat)
    requires k < |PushAndVerify(w, r, e).trace|
    ensures Grows(w, PushAndVerify(w, r, e).trace[k])
  {
    var before := Meanwhile(w, e.arrivals(1));
    var pushed := Push(before, r.memory, e.push).0;
    var after := Meanwhile(pushed, e.arrivals(2));
    ArrivalsGrow(w, e.arrivals(1), |e.arrivals(1)|);
    ArrivalsGrow(pushed, e.arrivals(2), |e.arrivals(2)|);
    assert Grows(before, pushed);
    hide Push, Meanwhile;
    GrowsTransitive(w, before, pushed);
    GrowsTransitive(w, pushed, after);
  }

  /** Over any run, whoever pushes and whatever arrives late, no State leaves the remote's history. */
  lemma {:induction false} RemoteOnlyGrows(ws: seq<World>, actions: seq<Action>, j: nat, k: nat)
    requires IsRun(ws, actions) && j <= k < |ws|
    ensures Grows(ws[j], ws[k])
    decreases k
  {
    if j < k {
      RemoteOnlyGrows(ws, actions, j, k - 1);
      var w, a := ws[k - 1], actions[k - 1];
      var trace := Did(w, a).trace;
      TraceGrows(w, a, if a.Publishing? && a.cut < |trace| then a.cut else |trace| - 1);
      assert ws[k] == After(w, a);
      hide Did, Grows;
      GrowsTransitive(ws[j], w, ws[k]);
    }
  }

  // ---------------------------------------------------------------- only validated commits

  /** Somebody else's commit among the first `n` actions. */
  ghost predicate ForeignBefore(actions: seq<Action>, n: nat, c: Commit)
    requires n <= |actions|
  {
    exists k, at: nat | 0 <= k < n :: Foreign(c) in actions[k].environment.arrivals(at)
  }

  /** The State of an accepted request among the first `n` actions. */
  ghost predicate AcceptedBefore(actions: seq<Action>, n: nat, c: Commit)
    requires n <= |actions|
  {
    exists k | 0 <= k < n :: actions[k].request.memory == c && Accepts(actions[k].request, actions[k].listed)
  }

  /** Where the tip of the remote can come from. */
  ghost predicate Known(actions: seq<Action>, n: nat, start: Option<Commit>, w: World)
    requires n <= |actions|
  {
    && (w.remote.Some? ==>
          w.remote == start || ForeignBefore(actions, n, w.remote.value) || AcceptedBefore(actions, n, w.remote.value))
    && forall c | c in w.pending :: AcceptedBefore(actions, n, c)
  }

  lemma {:induction false} ArrivalsKnown(
    actions: seq<Action>, n: nat, start: Option<Commit>, w: World, at: nat, m: nat)
    requires 0 < n <= |actions| && Known(actions, n, start, w)
    requires m <= |actions[n - 1].environment.arrivals(at)|
    ensures Known(actions, n, start, ArriveAll(w, actions[n - 1].environment.arrivals(at), m))
  {
    if m > 0 {
      ArrivalsKnown(actions, n, start, w, at, m - 1);
      hide AcceptedBefore;
      var a := actions[n - 1].environment.arrivals(at)[m - 1];
      assert a.Foreign? ==> Foreign(a.commit) in actions[n - 1].environment.arrivals(at);
    }
  }

  lemma KnownLater(actions: seq<Action>, n: nat, start: Option<Commit>, w: World)
    requires n < |actions| && Known(actions, n, start, w)
    ensures Known(actions, n + 1, start, w)
  {
    hide Accepts;
  }

  lemma PushKnown(actions: seq<Action>, n: nat, start: Option<Commit>, w: World, k: nat)
    requires 0 < n <= |actions| && Known(actions, n, start, w)
    requires AcceptedBefore(actions, n, actions[n - 1].request.memory)
    requires k < |PushAndVerify(w, actions[n - 1].request, actions[n - 1].environment).trace|
    ensures Known(actions, n, start, PushAndVerify(w, actions[n - 1].request, actions[n - 1].environment).trace[k])
  {
    var r, e := actions[n - 1].request, actions[n - 1].environment;
    var before := Meanwhile(w, e.arrivals(1));
    var pushed := Push(before, r.memory, e.push).0;
    ArrivalsKnown(actions, n, start, w, 1, |e.arrivals(1)|);
    hide AcceptedBefore, ForeignBefore;
    assert Known(actions, n, start, pushed);
    ArrivalsKnown(actions, n, start, pushed, 2, |e.arrivals(2)|);
    hide Known, Push;
  }

  lemma TraceKnown(actions: seq<Action>, n: nat, start: Option<Commit>, w: World, k: nat)
    requires 0 < n <= |actions| && Known(actions, n, start, w)
    requires k < |Did(w, actions[n - 1]).trace|
    ensures Known(actions, n, start, Did(w, actions[n - 1]).trace[k])
  {
    var a := actions[n - 1];
    ArrivalsKnown(actions, n, start, w, 0, |a.environment.arrivals(0)|);
    var seen := Meanwhile(w, a.environment.arrivals(0));
    if a.Publishing? && |Did(w, a).trace| > 2 && k > 0 {
      assert AcceptedBefore(actions, n, a.request.memory);
      PushKnown(actions, n, start, seen, k - 1);
      assert Did(w, a).trace[k] == PushAndVerify(seen, a.request, a.environment).trace[k - 1];
    }
    hide Known, PushAndVerify, Accepts;
  }

  lemma {:induction false} RunKnown(ws: seq<World>, actions: seq<Action>, k: nat)
    requires IsRun(ws, actions) && k < |ws|
    ensures Known(actions, k, ws[0].remote, ws[k])
  {
    if k > 0 {
      RunKnown(ws, actions, k - 1);
      KnownLater(actions, k - 1, ws[0].remote, ws[k - 1]);
      var w, a := ws[k - 1], actions[k - 1];
      var trace := Did(w, a).trace;
      TraceKnown(actions, k, ws[0].remote, w, if a.Publishing? && a.cut < |trace| then a.cut else |trace| - 1);
      assert ws[k] == After(w, a);
    }
  }

  /** Accounted for: there from the start, somebody else's, authorized as a baseline, or validated. */
  ghost predicate Sanctioned(actions: seq<Action>, n: nat, start: Option<Commit>, c: Commit)
    requires n <= |actions|
  {
    || (start.Some? && Reaches(start.value, c))
    || (exists f :: ForeignBefore(actions, n, f) && Reaches(f, c))
    || exists k | 0 <= k < n :: Reaches(actions[k].request.baseline, c) || ValidCommit(actions[k].request, c)
  }

  /**
   Over any run, with processes dying anywhere and pushes arriving late: every commit in the remote's
   history was there before, was brought by somebody else, belongs to an authorized baseline, or is a
   checkpoint that passed the validation of some request.
   */
  lemma OnlyValidatedCommitsArePublished(ws: seq<World>, actions: seq<Action>, k: nat, c: Commit)
    requires IsRun(ws, actions) && k < |ws| && ws[k].remote.Some? && Reaches(ws[k].remote.value, c)
    ensures Sanctioned(actions, k, ws[0].remote, c)
  {
    RunKnown(ws, actions, k);
    var tip := ws[k].remote.value;
    if ws[k].remote != ws[0].remote && !ForeignBefore(actions, k, tip) {
      var j :| 0 <= j < k && actions[j].request.memory == tip && Accepts(actions[j].request, actions[j].listed);
      AcceptedIsTheChain(actions[j].request, actions[j].listed);
    }
  }

  // ---------------------------------------------------------------- reports

  /** A verified report means that at that instant the remote stood at the State, whose lineage was accepted. */
  lemma VerifiedMeansPublished(w: World, a: Action)
    requires Did(w, a).result.Observed? && Did(w, a).result.disposition.Verified?
    ensures Accepts(a.request, a.listed) && Last(Did(w, a).trace).remote == Some(a.request.memory)
  {
    hide Accepts, Meanwhile;
  }

  /** And it stays in the remote's history for ever. */
  lemma VerifiedIsForever(ws: seq<World>, actions: seq<Action>, j: nat, k: nat)
    requires IsRun(ws, actions) && j < k < |ws|
    requires Did(ws[j], actions[j]).result.Observed? && Did(ws[j], actions[j]).result.disposition.Verified?
    requires actions[j].Publishing? ==> actions[j].cut >= |Did(ws[j], actions[j]).trace|
    ensures ws[k].remote.Some? && Reaches(ws[k].remote.value, actions[j].request.memory)
  {
    VerifiedMeansPublished(ws[j], actions[j]);
    RemoteOnlyGrows(ws, actions, j + 1, k);
    assert ws[j + 1] == After(ws[j], actions[j]);
  }

  predicate Healthy(r: Request, e: Environment) {
    && e.source == Some(r.memory) && e.destinationOk && e.push == PushSent(true)
    && forall at: nat | at < 3 :: e.arrivals(at) == [] && !e.inspectFails(at)
  }

  /** With nothing in the way it is verified exactly for an accepted lineage over the expected remote State. */
  lemma SynchronizeCompletes(w: World, r: Request, listed: seq<Commit>, e: Environment)
    requires Enumerates(listed, r.baseline, r.memory) && Healthy(r, e)
    ensures var p := Synchronize(w, r, listed, e);
            if Accepts(r, listed) && w.remote == r.expectedRemote then
              p.result == Observed(Verified, RemoteVerified, Some(r.memory))
              && Last(p.trace) == w.(remote := Some(r.memory))
            else p.result.Raised? && Last(p.trace) == w
  {
    if Accepts(r, listed) {
      PushAddsTheChainAbove(r, listed, r.memory);
    }
    assert e.arrivals(0) == [] && e.arrivals(1) == [] && e.arrivals(2) == [];
    assert !e.inspectFails(0) && !e.inspectFails(1);
    hide Accepts;
  }

  // ---------------------------------------------------------------- uncertain publications

  ghost predicate OnlyLate(arrivals: seq<Arrival>) {
    forall a | a in arrivals :: a.Late?
  }

  /** The remote stands where it was, or at the State of the attempt; nothing else is under way. */
  ghost predicate Open(r: Request, w: World) {
    (w.remote == r.expectedRemote || w.remote == Some(r.memory)) && w.pending <= {r.memory}
  }

  lemma {:induction false} OpenArrivals(r: Request, w: World, arrivals: seq<Arrival>, n: nat)
    requires Open(r, w) && OnlyLate(arrivals) && n <= |arrivals|
    ensures Open(r, ArriveAll(w, arrivals, n))
  {
    if n > 0 {
      OpenArrivals(r, w, arrivals, n - 1);
      assert arrivals[n - 1] in arrivals;
    }
  }

  /**
   Without other writers an attempt that ends uncertain, or whose process dies, leaves the remote at the
   expected State or at the attempted one, and so does every later attempt at the same State.
   */
  lemma AttemptStaysOpen(w: World, a: Action, k: nat)
    requires Open(a.request, w) && (forall at: nat :: OnlyLate(a.environment.arrivals(at)))
    requires k < |Did(w, a).trace|
    ensures Open(a.request, Did(w, a).trace[k])
  {
    var r, e := a.request, a.environment;
    OpenArrivals(r, w, e.arrivals(0), |e.arrivals(0)|);
    var seen := Meanwhile(w, e.arrivals(0));
    OpenArrivals(r, seen, e.arrivals(1), |e.arrivals(1)|);
    var before := Meanwhile(seen, e.arrivals(1));
    var pushed := Push(before, r.memory, e.push).0;
    assert Open(r, pushed);
    OpenArrivals(r, pushed, e.arrivals(2), |e.arrivals(2)|);
    hide Open, Accepts, Push, Meanwhile;
  }

  /**
   Looking again at such an attempt never reports an intervening State: it finds it published, or the
   expected State in front of which the push is still open.
   */
  lemma ReconciliationNeverBlames(w: World, r: Request, listed: seq<Commit>, e: Environment)
    requires Open(r, w) && (forall at: nat :: OnlyLate(e.arrivals(at)))
    requires Accepts(r, listed) && e.destinationOk && !e.inspectFails(0)
    ensures var p := Reconcile(w, r, listed, e);
            && p.result.Observed? && !p.result.disposition.Failed?
            && (p.result.disposition.Verified? <==> Last(p.trace).remote == Some(r.memory))
  {
    OpenArrivals(r, w, e.arrivals(0), |e.arrivals(0)|);
    hide Accepts, Meanwhile;
  }

  /** The State is in the remote's history. */
  ghost predicate IsPublished(w: World, r: Request) {
    w.remote.Some? && Reaches(w.remote.value, r.memory)
  }

  /**
   What the reports tell: a verified State is published and a prior State observed means it is not. An
   intervening State is reported both when it is not and when somebody has already built on it: the test
   compares tips, so a published State that is no longer the tip is reported as failed.
   */
  lemma ReconciliationTells(w: World, r: Request, listed: seq<Commit>, e: Environment)
    requires Enumerates(listed, r.baseline, r.memory) && Accepts(r, listed) && e.destinationOk && !e.inspectFails(0)
    ensures var p := Reconcile(w, r, listed, e);
            var now := Last(p.trace);
            && p.result.Observed?
            && (p.result.code == RemoteVerified ==> IsPublished(now, r))
            && (p.result.code == PriorStateObserved ==> !IsPublished(now, r))
            && (IsPublished(now, r) ==>
                  p.result.disposition == if now.remote == Some(r.memory) then Verified else Failed)
  {
    if r.expectedRemote.Some? && r.expectedRemote != Some(r.memory) {
      ExpectedIsBelow(r, listed);
    }
    assert Reaches(r.memory, r.memory);
    hide Reaches, Accepts, Meanwhile, Enumerates;
  }

  lemma ExpectedIsBelow(r: Request, listed: seq<Commit>)
    requires Enumerates(listed, r.baseline, r.memory) && Accepts(r, listed)
    requires r.expectedRemote.Some? && r.expectedRemote.value != r.memory
    ensures !Reaches(r.expectedRemote.value, r.memory)
  {
    PushAddsTheChainAbove(r, listed, r.memory);
    if Reaches(r.expectedRemote.value, r.memory) {
      AncestorIsLower(r.memory, r.expectedRemote.value);
      AncestorIsLower(r.expectedRemote.value, r.memory);
    }
  }
}
