/**
 Which requests a manifest names, and why one is not built.
 */
module ManifestReports {
  import opened Common
  import opened Inbox
  import opened Manifest

  /** The leaves that the first `k` requests ask for. */
  ghost function Covered(leaves: seq<Leaf>, requests: seq<string>, k: nat): set<Leaf>
    requires k <= |requests|
  {
    set x | x in leaves && exists i | 0 <= i < k :: Requests(requests[i], x)
  }

  /** The first `k` requests go through. */
  ghost predicate GoneThrough(leaves: seq<Leaf>, policy: Policy, requests: seq<string>, k: nat)
    requires k <= |requests|
  {
    && (forall i | 0 <= i < k :: Names(leaves, requests[i]) && !NamesUnsupported(leaves, requests[i]))
    && |Covered(leaves, requests, k)| <= policy.maxEntries
  }

  ghost predicate Names(leaves: seq<Leaf>, path: string) {
    exists x | x in leaves :: Requests(path, x)
  }

  ghost predicate NamesUnsupported(leaves: seq<Leaf>, path: string) {
    exists x | x in leaves :: Requests(path, x) && !x.supported
  }

  /** The k-th request is the first that cannot be met, and this is why. */
  ghost predicate FailsAt(leaves: seq<Leaf>, policy: Policy, requests: seq<string>, k: nat, failure: Failure)
    requires k < |requests|
  {
    && GoneThrough(leaves, policy, requests, k)
    && match failure
       case RequestsInvalid => false
       case PathUnavailable => !Names(leaves, requests[k])
       case EntryUnsupported => NamesUnsupported(leaves, requests[k])
       case EntryLimitExceeded =>
         && Names(leaves, requests[k]) && !NamesUnsupported(leaves, requests[k])
         && |Covered(leaves, requests, k + 1)| > policy.maxEntries
  }

  lemma ExpandNames(leaves: seq<Leaf>, path: string)
    requires ValidTree(leaves)
    ensures Expand(leaves, path) != [] <==> Names(leaves, path)
    ensures AllSupported(Expand(leaves, path)) <==> !NamesUnsupported(leaves, path)
  {
    var expanded := Expand(leaves, path);
    forall x ensures x in expanded <==> x in leaves && Requests(path, x) {
      ExpandExact(leaves, path, x);
    }
    hide Expand, Requests, ValidTree;
    assert expanded != [] ==> expanded[0] in leaves && Requests(path, expanded[0]);
    if !AllSupported(expanded) {
      var k :| 0 <= k < |expanded| && !expanded[k].supported;
      assert expanded[k] in expanded;
    }
    if x :| x in leaves && Requests(path, x) && !x.supported {
      assert x in expanded;
      var k :| 0 <= k < |expanded| && expanded[k] == x;
    }
  }

  /** The candidates so far are exactly what the requests so far ask for. */
  ghost predicate Holds(leaves: seq<Leaf>, requests: seq<string>, k: nat, sofar: seq<Leaf>)
    requires k <= |requests|
  {
    SortedLeaves(sofar) && forall x :: x in sofar <==> x in Covered(leaves, requests, k)
  }

  lemma HoldsSize(leaves: seq<Leaf>, requests: seq<string>, k: nat, sofar: seq<Leaf>)
    requires k <= |requests| && Holds(leaves, requests, k, sofar)
    ensures |sofar| == |Covered(leaves, requests, k)|
  {
    forall i, j | 0 <= i < |sofar| && 0 <= j < |sofar| && i != j ensures sofar[i] != sofar[j] {
      LexIrreflexive(sofar[i].path);
    }
    NoDupSize(sofar);
    assert (set x | x in sofar) == Covered(leaves, requests, k);
  }

  lemma HoldsNext(leaves: seq<Leaf>, requests: seq<string>, k: nat, sofar: seq<Leaf>)
    requires ValidTree(leaves) && k < |requests| && Holds(leaves, requests, k, sofar)
    ensures Holds(leaves, requests, k + 1, PutAll(sofar, Expand(leaves, requests[k])))
  {
    var expanded := Expand(leaves, requests[k]);
    forall x ensures x in expanded <==> x in leaves && Requests(requests[k], x) {
      ExpandExact(leaves, requests[k], x);
    }
    PutAllKeeps(leaves, sofar, expanded);
    hide Expand, PutAll, ValidTree, Requests, SortedLeaves;
    forall x ensures x in Covered(leaves, requests, k + 1)
                     <==> x in Covered(leaves, requests, k) || (x in leaves && Requests(requests[k], x)) {
    }
  }

  /** One more request, given what the earlier ones ask for. */
  lemma GatherStep(leaves: seq<Leaf>, policy: Policy, requests: seq<string>, k: nat, sofar: seq<Leaf>)
    requires ValidTree(leaves) && k < |requests| && Holds(leaves, requests, k, sofar)
    requires GoneThrough(leaves, policy, requests, k)
    ensures var gathered, next := Gather(leaves, policy, requests, k, sofar), PutAll(sofar, Expand(leaves, requests[k]));
            && Holds(leaves, requests, k + 1, next)
            && (GoneThrough(leaves, policy, requests, k + 1) ==> gathered == Gather(leaves, policy, requests, k + 1, next))
            && (!GoneThrough(leaves, policy, requests, k + 1) ==>
                  gathered.Stopped? && forall f :: FailsAt(leaves, policy, requests, k, f) <==> f == gathered.failure)
  {
    var next := PutAll(sofar, Expand(leaves, requests[k]));
    ExpandNames(leaves, requests[k]);
    HoldsNext(leaves, requests, k, sofar);
    HoldsSize(leaves, requests, k + 1, next);
    hide Expand, PutAll, ValidTree, Holds, Names, NamesUnsupported, Covered, AllSupported;
  }

  /** What stops the expansion is the first request that cannot be met. */
  lemma {:induction false} GatherTells(leaves: seq<Leaf>, policy: Policy, requests: seq<string>, k: nat, sofar: seq<Leaf>)
    requires ValidTree(leaves) && k <= |requests| && Holds(leaves, requests, k, sofar)
    requires GoneThrough(leaves, policy, requests, k)
    ensures var gathered := Gather(leaves, policy, requests, k, sofar);
            gathered.Stopped? ==> exists n | k <= n < |requests| :: FailsAt(leaves, policy, requests, n, gathered.failure)
    decreases |requests| - k
  {
    hide Holds, FailsAt, ValidTree;
    if k < |requests| {
      GatherStep(leaves, policy, requests, k, sofar);
      var next := PutAll(sofar, Expand(leaves, requests[k]));
      hide PutAll, Expand;
      if GoneThrough(leaves, policy, requests, k + 1) {
        GatherTells(leaves, policy, requests, k + 1, next);
      } else {
        assert FailsAt(leaves, policy, requests, k, Gather(leaves, policy, requests, k, sofar).failure);
      }
    }
  }

  lemma Shorter(leaves: seq<Leaf>, policy: Policy, requests: seq<string>, k: nat, n: nat)
    requires k <= n <= |requests| && GoneThrough(leaves, policy, requests, n)
    ensures GoneThrough(leaves, policy, requests, k)
  {
    assert Covered(leaves, requests, k) <= Covered(leaves, requests, n);
    SubsetSize(Covered(leaves, requests, k), Covered(leaves, requests, n));
  }

  /** And that request does stop it. */
  lemma {:induction false} GatherStops(
    leaves: seq<Leaf>, policy: Policy, requests: seq<string>, k: nat, sofar: seq<Leaf>, n: nat, failure: Failure)
    requires ValidTree(leaves) && k <= n < |requests| && Holds(leaves, requests, k, sofar)
    requires FailsAt(leaves, policy, requests, n, failure)
    ensures Gather(leaves, policy, requests, k, sofar) == Stopped(failure)
    decreases n - k
  {
    Shorter(leaves, policy, requests, k, n);
    GatherStep(leaves, policy, requests, k, sofar);
    var next := PutAll(sofar, Expand(leaves, requests[k]));
    if k < n {
      Shorter(leaves, policy, requests, k + 1, n);
      hide Holds, FailsAt, ValidTree, PutAll, Expand, GoneThrough;
      GatherStops(leaves, policy, requests, k + 1, next, n, failure);
    } else {
      NotGoneThrough(leaves, policy, requests, k, failure);
    }
  }

  lemma NotGoneThrough(leaves: seq<Leaf>, policy: Policy, requests: seq<string>, k: nat, failure: Failure)
    requires k < |requests| && FailsAt(leaves, policy, requests, k, failure)
    ensures !GoneThrough(leaves, policy, requests, k + 1)
  {
  }

  /**
   The manifest names each requested path once, in order. It is refused at once for requests that are not
   well formed or too many; otherwise exactly for the first path in that order that names nothing, or names
   something of an unsupported kind, or takes the leaves asked for beyond the limit, with that report.
   */
  lemma FailureTells(leaves: seq<Leaf>, requests: seq<string>, policy: Policy, failure: Failure)
    requires ValidTree(leaves)
    ensures var result, paths := Manifested(leaves, requests, policy), Normalize(requests);
            && SortedPaths(paths) && (forall p :: p in paths <==> p in requests)
            && (result.Built? ==> result.manifest.requested == paths)
            && (result == Failed(RequestsInvalid) <==> !ValidRequests(requests))
            && (ValidRequests(requests) ==>
                  (result == Failed(failure) <==> exists k | 0 <= k < |paths| :: FailsAt(leaves, policy, paths, k, failure)))
  {
    NormalizeKeeps(requests);
    var paths := Normalize(requests);
    assert Covered(leaves, paths, 0) == {};
    assert Holds(leaves, paths, 0, []) && GoneThrough(leaves, policy, paths, 0);
    hide Holds, GoneThrough, ValidTree, ValidRequests, Normalize, SortedPaths;
    GatherTells(leaves, policy, paths, 0, []);
    if k :| 0 <= k < |paths| && FailsAt(leaves, policy, paths, k, failure) {
      GatherStops(leaves, policy, paths, 0, [], k, failure);
    }
    assert !exists k | 0 <= k < |paths| :: FailsAt(leaves, policy, paths, k, RequestsInvalid) by {
      assert forall k | 0 <= k < |paths| :: !FailsAt(leaves, policy, paths, k, RequestsInvalid);
    }
  }
}
