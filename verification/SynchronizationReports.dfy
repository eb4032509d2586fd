/**
 What a publication of memory and a later look at it report, told by what they met and by what the remote
 holds at the end.
 */
module SynchronizationReports {
  import opened Common
  import opened Lineage
  import opened Synchronization

  /** Every check before the push is passed. */
  predicate Admitted(w: World, r: Request, listed: seq<Commit>, e: Environment) {
    && Accepts(r, listed) && e.source == Some(r.memory) && e.destinationOk && !e.inspectFails(0)
    && Meanwhile(w, e.arrivals(0)).remote == r.expectedRemote
  }

  /** The remote as the push command finds it. */
  function Met(w: World, e: Environment): Option<Commit> {
    Meanwhile(Meanwhile(w, e.arrivals(0)), e.arrivals(1)).remote
  }

  /** The remote took the State and the command said so. */
  predicate Succeeded(w: World, r: Request, e: Environment) {
    e.push == PushSent(true) && FastForward(Met(w, e), r.memory)
  }

  /** Why a publication is refused before anything is pushed; the remote then is as others left it. */
  lemma SynchronizationRefusals(w: World, r: Request, listed: seq<Commit>, e: Environment)
    ensures var s, seen := Synchronize(w, r, listed, e), Meanwhile(w, e.arrivals(0));
            var ours := Accepts(r, listed) && e.source == Some(r.memory);
            && s.trace != []
            && (s.result == Raised(LineageRefused) <==> !Accepts(r, listed))
            && (s.result == Raised(SourceRefMismatch) <==> Accepts(r, listed) && e.source != Some(r.memory))
            && (s.result == Raised(DestinationRefused) <==> ours && !e.destinationOk)
            && (s.result == Raised(RemoteInspectionFailed) <==> ours && e.destinationOk && e.inspectFails(0))
            && (s.result == Raised(RemoteStateMismatch) <==>
                  ours && e.destinationOk && !e.inspectFails(0) && seen.remote != r.expectedRemote)
            && (s.result.Observed? <==> Admitted(w, r, listed, e))
            && (s.result.Raised? ==> Last(s.trace) == w || Last(s.trace) == seen)
  {
    hide Accepts, Meanwhile, Push;
  }

  /**
   Each report of a push exactly when its reason holds. Verified takes a push that succeeded and a look that
   finds the State; nothing is ever reported failed, for the push may have landed or may still land; and only
   after a push that was stopped or broke off is the State still under way.
   */
  lemma SynchronizationReports(w: World, r: Request, listed: seq<Commit>, e: Environment)
    requires Admitted(w, r, listed, e)
    ensures var s := Synchronize(w, r, listed, e);
            && s.result.Observed? && s.trace != []
            && var code, end, succeeded := s.result.code, Last(s.trace), Succeeded(w, r, e);
               && (s.result.disposition == if code.RemoteVerified? then Verified else Uncertain)
               && (code.TransportUncertain? <==> e.push.PushStopped?)
               && (code.TransportResultUncertain? <==> !e.push.PushStopped? && !succeeded)
               && (code.VerificationUnavailable? <==> succeeded && e.inspectFails(1))
               && (code.RemoteVerified? <==> succeeded && !e.inspectFails(1) && end.remote == Some(r.memory))
               && (code.VerificationMismatch? <==> succeeded && !e.inspectFails(1) && end.remote != Some(r.memory))
               && s.result.observed == (if !succeeded then r.expectedRemote
                                        else if e.inspectFails(1) then None else end.remote)
               && end.pending == (if e.push.PushStopped? || e.push.PushBroken? then w.pending + {r.memory} else w.pending)
  {
    PendingStays(w, e.arrivals(0), |e.arrivals(0)|);
    var seen := Meanwhile(w, e.arrivals(0));
    PendingStays(seen, e.arrivals(1), |e.arrivals(1)|);
    var pushed := Push(Meanwhile(seen, e.arrivals(1)), r.memory, e.push).0;
    PendingStays(pushed, e.arrivals(2), |e.arrivals(2)|);
    hide Accepts, Meanwhile, FastForward;
  }

  lemma {:induction false} PendingStays(w: World, arrivals: seq<Arrival>, n: nat)
    requires n <= |arrivals|
    ensures ArriveAll(w, arrivals, n).pending == w.pending
  {
    if n > 0 {
      PendingStays(w, arrivals, n - 1);
    }
  }

  /** A later look pushes nothing and reports what the remote holds then. */
  lemma LookReports(w: World, r: Request, listed: seq<Commit>, e: Environment)
    ensures var s := Reconcile(w, r, listed, e);
            && s.trace != []
            && (s.result == Raised(LineageRefused) <==> !Accepts(r, listed))
            && (s.result == Raised(DestinationRefused) <==> Accepts(r, listed) && !e.destinationOk)
            && (s.result.Observed? <==> Accepts(r, listed) && e.destinationOk)
            && (s.result.Observed? ==>
                  var code, now, found := s.result.code, Last(s.trace), !e.inspectFails(0);
                  && now == Meanwhile(w, e.arrivals(0)) && now.pending == w.pending
                  && (code.ReconciliationUnavailable? <==> !found)
                  && (code.RemoteVerified? <==> found && now.remote == Some(r.memory))
                  && (code.PriorStateObserved? <==> found && now.remote == r.expectedRemote && now.remote != Some(r.memory))
                  && (code.InterveningState? <==> found && now.remote !in {Some(r.memory), r.expectedRemote})
                  && (s.result.disposition.Verified? <==> code.RemoteVerified?)
                  && (s.result.disposition.Failed? <==> code.InterveningState?)
                  && s.result.observed == if found then now.remote else None)
  {
    PendingStays(w, e.arrivals(0), |e.arrivals(0)|);
    hide Accepts, ArriveAll;
  }
}
