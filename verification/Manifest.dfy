/**
 Context selection: expand the requested paths to tracked leaves, then decide each leaf in path order under
 the policy's exclusions and byte limits.

 UTF-8 keeps the order of code points, so sorting by encoded path is sorting by path.
 */
module Manifest {
  import opened Common
  import opened Inbox
  import opened Memory
  import opened MemoryTree

  const MAX_REQUESTS := 256

  /** A tracked leaf; gitlinks have no size, and `supported` fails for modes the manifest does not know. */
  datatype Leaf = Leaf(path: string, blob: string, size: Option<nat>, supported: bool)

  datatype Rule = Rule(path: string, reason: string)

  datatype Policy = Policy(maxEntries: nat, maxBlobBytes: nat, maxTotalBytes: nat, exclusions: seq<Rule>)

  datatype Failure = RequestsInvalid | PathUnavailable | EntryUnsupported | EntryLimitExceeded

  datatype Cause = PathExcluded(rule: Rule) | BlobTooLarge | TotalExceeded

  datatype Excluded = Excluded(leaf: Leaf, cause: Cause)

  datatype Manifest = Manifest(requested: seq<string>, selected: seq<Leaf>, excluded: seq<Excluded>, bytes: nat)

  datatype Result = Failed(failure: Failure) | Built(manifest: Manifest)

  /** The leaves of one commit: paths are unique and no leaf lies under another. */
  predicate ValidTree(leaves: seq<Leaf>) {
    forall i, j | 0 <= i < |leaves| && 0 <= j < |leaves| && i != j ::
      leaves[i].path != leaves[j].path && !Below(leaves[i].path, leaves[j].path)
  }

  predicate Below(directory: string, path: string) {
    directory + "/" <= path
  }

  /** A canonical relative path without control characters. */
  predicate ContextPath(path: string) {
    && path != ""
    && (forall k | 0 <= k < |path| :: path[k] != '\\' && path[k] as int >= 32 && path[k] as int != 127)
    && forall k | 0 <= k < |Parts(path)| :: Parts(path)[k] != "" && Parts(path)[k] != "." && Parts(path)[k] != ".."
  }

  predicate ValidRequests(requests: seq<string>) {
    0 < |requests| <= MAX_REQUESTS && forall p | p in requests :: ContextPath(p)
  }

  // ---------------------------------------------------------------- sorted collections

  predicate SortedPaths(s: seq<string>) {
    forall i, j | 0 <= i < j < |s| :: LexLess(s[i], s[j])
  }

  predicate SortedLeaves(s: seq<Leaf>) {
    forall i, j | 0 <= i < j < |s| :: LexLess(s[i].path, s[j].path)
  }

  /** `candidates[path] = entry`, with the keys kept in order. */
  function Put(s: seq<Leaf>, x: Leaf): seq<Leaf> {
    if s == [] then [x]
    else if LexLess(s[0].path, x.path) then [s[0]] + Put(s[1..], x)
    else if s[0].path == x.path then [x] + s[1..]
    else [x] + s
  }

  function PutAll(s: seq<Leaf>, xs: seq<Leaf>): seq<Leaf>
    decreases |xs|
  {
    if xs == [] then s else PutAll(Put(s, xs[0]), xs[1..])
  }

  function PutPath(s: seq<string>, x: string): seq<string> {
    if s == [] then [x]
    else if LexLess(s[0], x) then [s[0]] + PutPath(s[1..], x)
    else if s[0] == x then s
    else [x] + s
  }

  /** `sorted(set(paths))`. */
  function Normalize(paths: seq<string>): seq<string> {
    if paths == [] then [] else PutPath(Normalize(paths[..|paths| - 1]), Last(paths))
  }

  // ---------------------------------------------------------------- candidates

  function FindLeaf(leaves: seq<Leaf>, path: string, k: nat): Option<Leaf>
    requires k <= |leaves|
    decreases |leaves| - k
  {
    if k == |leaves| then None
    else if leaves[k].path == path then Some(leaves[k])
    else FindLeaf(leaves, path, k + 1)
  }

  function Under(leaves: seq<Leaf>, directory: string, k: nat): seq<Leaf>
    requires k <= |leaves|
    decreases |leaves| - k
  {
    if k == |leaves| then []
    else if Below(directory, leaves[k].path) then [leaves[k]] + Under(leaves, directory, k + 1)
    else Under(leaves, directory, k + 1)
  }

  /** A requested leaf stands for itself, a requested directory for everything under it. */
  function Expand(leaves: seq<Leaf>, path: string): seq<Leaf> {
    var exact := FindLeaf(leaves, path, 0);
    if exact.Some? then [exact.value] else Under(leaves, path, 0)
  }

  predicate AllSupported(leaves: seq<Leaf>) {
    forall k | 0 <= k < |leaves| :: leaves[k].supported
  }

  datatype Gathered = Stopped(failure: Failure) | Candidates(leaves: seq<Leaf>)

  function Gather(leaves: seq<Leaf>, policy: Policy, requests: seq<string>, k: nat, sofar: seq<Leaf>): Gathered
    requires k <= |requests|
    decreases |requests| - k
  {
    if k == |requests| then Candidates(sofar)
    else
      var expanded := Expand(leaves, requests[k]);
      if expanded == [] then Stopped(PathUnavailable)
      else if !AllSupported(expanded) then Stopped(EntryUnsupported)
      else
        var next := PutAll(sofar, expanded);
        if |next| > policy.maxEntries then Stopped(EntryLimitExceeded)
        else Gather(leaves, policy, requests, k + 1, next)
  }

  // ---------------------------------------------------------------- selection

  predicate Matches(rule: Rule, path: string) {
    path == rule.path || Below(rule.path, path)
  }

  /** The order `max` uses among matching rules: encoded length, then path. */
  predicate Weaker(a: Rule, b: Rule) {
    Utf8Size(a.path) < Utf8Size(b.path) || (Utf8Size(a.path) == Utf8Size(b.path) && LexLess(a.path, b.path))
  }

  function Matching(path: string, rules: seq<Rule>, k: nat, best: Option<Rule>): Option<Rule>
    requires k <= |rules|
    decreases |rules| - k
  {
    if k == |rules| then best
    else
      Matching(path, rules, k + 1,
               if Matches(rules[k], path) && (best.None? || Weaker(best.value, rules[k])) then Some(rules[k]) else best)
  }

  function MatchingExclusion(path: string, rules: seq<Rule>): Option<Rule> {
    Matching(path, rules, 0, None)
  }

  datatype Decision = Select | Exclude(cause: Cause)

  function Decide(policy: Policy, leaf: Leaf, total: nat): Decision {
    var rule := MatchingExclusion(leaf.path, policy.exclusions);
    if rule.Some? then Exclude(PathExcluded(rule.value))
    else if leaf.size.Some? && leaf.size.value > policy.maxBlobBytes then Exclude(BlobTooLarge)
    else if leaf.size.Some? && total + leaf.size.value > policy.maxTotalBytes then Exclude(TotalExceeded)
    else Select
  }

  function SizeOf(leaf: Leaf): nat {
    if leaf.size.Some? then leaf.size.value else 0
  }

  datatype Chosen = Chosen(selected: seq<Leaf>, excluded: seq<Excluded>, bytes: nat)

  /** Decide the first `k` candidates one after the other. */
  function Choose(policy: Policy, candidates: seq<Leaf>, k: nat): Chosen
    requires k <= |candidates|
  {
    if k == 0 then Chosen([], [], 0)
    else
      var before, leaf := Choose(policy, candidates, k - 1), candidates[k - 1];
      match Decide(policy, leaf, before.bytes)
      case Select => Chosen(before.selected + [leaf], before.excluded, before.bytes + SizeOf(leaf))
      case Exclude(cause) => before.(excluded := before.excluded + [Excluded(leaf, cause)])
  }

  function Build(leaves: seq<Leaf>, requests: seq<string>, policy: Policy): Result {
    var normalized := Normalize(requests);
    match Gather(leaves, policy, normalized, 0, [])
    case Stopped(failure) => Failed(failure)
    case Candidates(candidates) =>
      var chosen := Choose(policy, candidates, |candidates|);
      Built(Manifest(normalized, chosen.selected, chosen.excluded, chosen.bytes))
  }

  /** The checks on the requests come first, before they are sorted and repetitions dropped. */
  function Manifested(leaves: seq<Leaf>, requests: seq<string>, policy: Policy): Result {
    if !ValidRequests(requests) then Failed(RequestsInvalid) else Build(leaves, requests, policy)
  }

  /** `build_context_manifest`. */
  method BuildContextManifest(leaves: seq<Leaf>, requests: seq<string>, policy: Policy) returns (result: Result)
    ensures result == Manifested(leaves, requests, policy)
  {
    if requests == [] || |requests| > MAX_REQUESTS {
      return Failed(RequestsInvalid);
    }
    for k := 0 to |requests|
      invariant forall i | 0 <= i < k :: ContextPath(requests[i])
    {
      if !ContextPath(requests[k]) {
        return Failed(RequestsInvalid);
      }
    }
    assert ValidRequests(requests);
    hide ContextPath, ValidRequests;
    var normalized := Normalize(requests);
    var candidates: seq<Leaf> := [];
    for k := 0 to |normalized|
      invariant Gather(leaves, policy, normalized, k, candidates) == Gather(leaves, policy, normalized, 0, [])
    {
      var expanded := Expand(leaves, normalized[k]);
      if expanded == [] {
        return Failed(PathUnavailable);
      }
      if !AllSupported(expanded) {
        return Failed(EntryUnsupported);
      }
      candidates := PutAll(candidates, expanded);
      if |candidates| > policy.maxEntries {
        return Failed(EntryLimitExceeded);
      }
    }
    var selected: seq<Leaf>, excluded: seq<Excluded>, bytes: nat := [], [], 0;
    for k := 0 to |candidates|
      invariant Chosen(selected, excluded, bytes) == Choose(policy, candidates, k)
    {
      var leaf := candidates[k];
      var rule := MatchingExclusion(leaf.path, policy.exclusions);
      if rule.Some? {
        excluded := excluded + [Excluded(leaf, PathExcluded(rule.value))];
        continue;
      }
      if leaf.size.Some? && leaf.size.value > policy.maxBlobBytes {
        excluded := excluded + [Excluded(leaf, BlobTooLarge)];
        continue;
      }
      if leaf.size.Some? && bytes + leaf.size.value > policy.maxTotalBytes {
        excluded := excluded + [Excluded(leaf, TotalExceeded)];
        continue;
      }
      selected, bytes := selected + [leaf], bytes + SizeOf(leaf);
    }
    result := Built(Manifest(normalized, selected, excluded, bytes));
  }

  // ---------------------------------------------------------------- what is selected

  function TotalSize(leaves: seq<Leaf>): nat {
    if leaves == [] then 0 else TotalSize(leaves[..|leaves| - 1]) + SizeOf(Last(leaves))
  }

  /** Every candidate lands on exactly one side, for the reason that applies to it at its turn. */
  ghost predicate Accounted(policy: Policy, candidates: seq<Leaf>, chosen: Chosen, i: nat)
    requires i < |candidates|
  {
    var leaf := candidates[i];
    var rule, size := MatchingExclusion(leaf.path, policy.exclusions), SizeOf(leaf);
    if leaf in chosen.selected then
      rule.None? && (leaf.size.Some? ==> size <= policy.maxBlobBytes) && forall c :: Excluded(leaf, c) !in chosen.excluded
    else if rule.Some? then Excluded(leaf, PathExcluded(rule.value)) in chosen.excluded
    else if size > policy.maxBlobBytes then Excluded(leaf, BlobTooLarge) in chosen.excluded
    else Excluded(leaf, TotalExceeded) in chosen.excluded && chosen.bytes + size > policy.maxTotalBytes
  }

  lemma {:induction false} BytesGrow(policy: Policy, candidates: seq<Leaf>, j: nat, k: nat)
    requires j <= k <= |candidates|
    ensures Choose(policy, candidates, j).bytes <= Choose(policy, candidates, k).bytes
    ensures Choose(policy, candidates, j).selected <= Choose(policy, candidates, k).selected
    ensures Choose(policy, candidates, j).excluded <= Choose(policy, candidates, k).excluded
    decreases k
  {
    if j < k {
      BytesGrow(policy, candidates, j, k - 1);
    }
  }

  /** Selected and excluded leaves are candidates before `k`. */
  lemma {:induction false} SidesAreCandidates(policy: Policy, candidates: seq<Leaf>, k: nat)
    requires k <= |candidates|
    ensures forall x | x in Choose(policy, candidates, k).selected :: x in candidates[..k]
    ensures forall x | x in Choose(policy, candidates, k).excluded :: x.leaf in candidates[..k]
  {
    if k > 0 {
      SidesAreCandidates(policy, candidates, k - 1);
      assert candidates[..k] == candidates[..k - 1] + [candidates[k - 1]];
    }
  }

  predicate SortedExcluded(s: seq<Excluded>) {
    forall i, j | 0 <= i < j < |s| :: LexLess(s[i].leaf.path, s[j].leaf.path)
  }

  /** Both sides keep the order of the candidates. */
  lemma {:induction false} SidesInOrder(policy: Policy, candidates: seq<Leaf>, k: nat)
    requires k <= |candidates| && SortedLeaves(candidates)
    ensures SortedLeaves(Choose(policy, candidates, k).selected)
    ensures SortedExcluded(Choose(policy, candidates, k).excluded)
  {
    if k > 0 {
      SidesInOrder(policy, candidates, k - 1);
      SidesAreCandidates(policy, candidates, k - 1);
      var before, leaf := Choose(policy, candidates, k - 1), candidates[k - 1];
      assert forall x | x in candidates[..k - 1] :: LexLess(x.path, leaf.path);
      AppendSorted(before.selected, leaf);
      match Decide(policy, leaf, before.bytes) {
        case Select =>
        case Exclude(cause) => AppendExcluded(before.excluded, Excluded(leaf, cause));
      }
    }
  }

  lemma AppendSorted(s: seq<Leaf>, x: Leaf)
    requires SortedLeaves(s) && forall y | y in s :: LexLess(y.path, x.path)
    ensures SortedLeaves(s + [x])
  {
  }

  lemma AppendExcluded(s: seq<Excluded>, x: Excluded)
    requires SortedExcluded(s) && forall y | y in s :: LexLess(y.leaf.path, x.leaf.path)
    ensures SortedExcluded(s + [x])
  {
  }

  /** The byte count is the sum of the selected sizes, and stays within the limit. */
  lemma {:induction false} BytesAddUp(policy: Policy, candidates: seq<Leaf>, k: nat)
    requires k <= |candidates|
    ensures var c := Choose(policy, candidates, k);
            c.bytes == TotalSize(c.selected) && c.bytes <= policy.maxTotalBytes
  {
    if k > 0 {
      BytesAddUp(policy, candidates, k - 1);
      var before, leaf := Choose(policy, candidates, k - 1), candidates[k - 1];
      assert (before.selected + [leaf])[..|before.selected|] == before.selected;
    }
  }

  /**
   The candidates are divided into selected and excluded, both in path order; the byte total is the sum of
   the selected sizes and within the limit; and what was left out only for the total would not fit into what
   is left at the end either.
   */
  lemma SelectionIsExact(policy: Policy, candidates: seq<Leaf>, i: nat)
    requires SortedLeaves(candidates) && i < |candidates|
    ensures var c := Choose(policy, candidates, |candidates|);
            && Accounted(policy, candidates, c, i)
            && SortedLeaves(c.selected) && SortedExcluded(c.excluded)
            && c.bytes == TotalSize(c.selected) && c.bytes <= policy.maxTotalBytes
  {
    var c, leaf := Choose(policy, candidates, |candidates|), candidates[i];
    SidesInOrder(policy, candidates, |candidates|);
    BytesAddUp(policy, candidates, |candidates|);
    SidesAreCandidates(policy, candidates, i);
    var before, after := Choose(policy, candidates, i), Choose(policy, candidates, i + 1);
    BytesGrow(policy, candidates, i + 1, |candidates|);
    BytesGrow(policy, candidates, i, |candidates|);
    Later(policy, candidates, i, |candidates|);
    LexIrreflexive(leaf.path);
    assert leaf !in candidates[..i];
    match Decide(policy, leaf, before.bytes) {
      case Select => assert Last(after.selected) == leaf;
      case Exclude(cause) => assert Last(after.excluded) == Excluded(leaf, cause);
    }
  }

  lemma LexIrreflexive(a: string)
    ensures !LexLess(a, a)
  {
    if LexLess(a, a) {
      LexAsymmetric(a, a);
    }
  }

  /** A leaf is decided once: what its turn did not do to it happens to it never. */
  lemma {:induction false} Later(policy: Policy, candidates: seq<Leaf>, i: nat, k: nat)
    requires SortedLeaves(candidates) && i < k <= |candidates|
    ensures var c, at := Choose(policy, candidates, k), Choose(policy, candidates, i + 1);
            && (candidates[i] in c.selected <==> candidates[i] in at.selected)
            && forall cause :: Excluded(candidates[i], cause) in c.excluded <==> Excluded(candidates[i], cause) in at.excluded
    decreases k
  {
    if k > i + 1 {
      Later(policy, candidates, i, k - 1);
      LexIrreflexive(candidates[i].path);
      assert candidates[k - 1] != candidates[i];
    }
  }

  // ---------------------------------------------------------------- the most specific rule

  lemma {:induction false} LongerIsLarger(a: string, b: string)
    requires a <= b
    ensures Utf8Size(a) <= Utf8Size(b) && (Utf8Size(a) == Utf8Size(b) ==> a == b)
  {
    if a != [] {
      LongerIsLarger(a[1..], b[1..]);
      assert a == [a[0]] + a[1..] && b == [b[0]] + b[1..];
    }
  }

  lemma Nested(a: Rule, b: Rule, path: string)
    requires Matches(a, path) && Matches(b, path)
    ensures a.path <= b.path || b.path <= a.path
  {
    assert a.path <= path && b.path <= path by {
      assert a.path <= a.path + "/" && b.path <= b.path + "/";
    }
  }

  lemma {:induction false} MatchingIsLongest(path: string, rules: seq<Rule>, k: nat, best: Option<Rule>)
    requires k <= |rules|
    requires best.Some? ==> Matches(best.value, path)
    ensures var m := Matching(path, rules, k, best);
            && (m.None? <==> best.None? && forall i | k <= i < |rules| :: !Matches(rules[i], path))
            && (m.Some? ==>
                  && Matches(m.value, path) && (Some(m.value) == best || m.value in rules[k..])
                  && (best.Some? ==> best.value.path <= m.value.path)
                  && forall i | k <= i < |rules| && Matches(rules[i], path) :: rules[i].path <= m.value.path)
    decreases |rules| - k
  {
    if k < |rules| {
      var next := if Matches(rules[k], path) && (best.None? || Weaker(best.value, rules[k])) then Some(rules[k]) else best;
      MatchingIsLongest(path, rules, k + 1, next);
      var m := Matching(path, rules, k, best);
      if Matches(rules[k], path) && best.Some? {
        Nested(best.value, rules[k], path);
        if best.value.path <= rules[k].path {
          LongerIsLarger(best.value.path, rules[k].path);
        } else {
          LongerIsLarger(rules[k].path, best.value.path);
        }
      }
      assert forall x | x in rules[k + 1..] :: x in rules[k..];
      assert rules[k] in rules[k..];
    }
  }

  /** A path is excluded exactly if some rule covers it, and the reported rule is the most specific one. */
  lemma MostSpecificRule(path: string, rules: seq<Rule>)
    ensures var m := MatchingExclusion(path, rules);
            && (m.Some? <==> exists i | 0 <= i < |rules| :: Matches(rules[i], path))
            && (m.Some? ==>
                  && m.value in rules && Matches(m.value, path)
                  && forall i | 0 <= i < |rules| && Matches(rules[i], path) :: rules[i].path <= m.value.path)
  {
    MatchingIsLongest(path, rules, 0, None);
  }

  // ---------------------------------------------------------------- which leaves are candidates

  lemma {:induction false} PutKeeps(s: seq<Leaf>, x: Leaf)
    requires SortedLeaves(s)
    ensures SortedLeaves(Put(s, x)) && x in Put(s, x) && |s| <= |Put(s, x)|
    ensures forall y | y in s && y.path != x.path :: y in Put(s, x)
    ensures forall y | y in Put(s, x) :: y == x || y in s
  {
    if s != [] {
      assert s == [s[0]] + s[1..];
      LexTotal(s[0].path, x.path);
      if LexLess(s[0].path, x.path) {
        PutKeeps(s[1..], x);
        assert forall y | y in Put(s[1..], x) :: LexLess(s[0].path, y.path);
      } else if s[0].path != x.path {
        forall k | 0 <= k < |s| ensures LexLess(x.path, s[k].path) {
          if k > 0 {
            LexTransitive(x.path, s[0].path, s[k].path);
          }
        }
      }
    }
  }

  /** Everything comes from one tree, so a path determines its leaf. */
  predicate From(leaves: seq<Leaf>, s: seq<Leaf>) {
    forall x | x in s :: x in leaves
  }

  lemma {:induction false} PutAllKeeps(leaves: seq<Leaf>, s: seq<Leaf>, xs: seq<Leaf>)
    requires ValidTree(leaves) && From(leaves, s) && From(leaves, xs) && SortedLeaves(s)
    ensures SortedLeaves(PutAll(s, xs)) && |s| <= |PutAll(s, xs)|
    ensures forall y :: y in PutAll(s, xs) <==> y in s || y in xs
    decreases |xs|
  {
    if xs != [] {
      PutKeeps(s, xs[0]);
      var next := Put(s, xs[0]);
      forall y | y in s ensures y in next {
        if y.path == xs[0].path {
          SamePath(leaves, y, xs[0]);
        }
      }
      PutAllKeeps(leaves, next, xs[1..]);
      assert xs == [xs[0]] + xs[1..];
    }
  }

  lemma SamePath(leaves: seq<Leaf>, x: Leaf, y: Leaf)
    requires ValidTree(leaves) && x in leaves && y in leaves && x.path == y.path
    ensures x == y
  {
    var i :| 0 <= i < |leaves| && leaves[i] == x;
    var j :| 0 <= j < |leaves| && leaves[j] == y;
  }

  lemma {:induction false} PutAllConcat(s: seq<Leaf>, a: seq<Leaf>, b: seq<Leaf>)
    ensures PutAll(s, a + b) == PutAll(PutAll(s, a), b)
    decreases |a|
  {
    if a == [] {
      assert a + b == b;
    } else {
      PutAllConcat(Put(s, a[0]), a[1..], b);
      assert (a + b)[1..] == a[1..] + b;
    }
  }

  lemma BothEmpty(a: seq<Leaf>, b: seq<Leaf>)
    requires forall x :: x in a <==> x in b
    ensures a == [] <==> b == []
  {
    if a != [] {
      assert a[0] in b;
    }
    if b != [] {
      assert b[0] in a;
    }
  }

  lemma {:induction false} SortedSame(a: seq<Leaf>, b: seq<Leaf>)
    requires SortedLeaves(a) && SortedLeaves(b) && forall x :: x in a <==> x in b
    ensures a == b
  {
    BothEmpty(a, b);
    if a != [] {
      assert a[0] in a && b[0] in b;
      var i :| 0 <= i < |b| && b[i] == a[0];
      var j :| 0 <= j < |a| && a[j] == b[0];
      if i > 0 && j > 0 {
        LexAsymmetric(a[0].path, b[0].path);
      }
      LexIrreflexive(a[0].path);
      assert a == [a[0]] + a[1..] && b == [b[0]] + b[1..];
      forall x ensures x in a[1..] <==> x in b[1..] {
        if x in a[1..] {
          var n :| 0 <= n < |a[1..]| && a[1..][n] == x;
          assert a[n + 1] == x && x in b && x != a[0];
        }
        if x in b[1..] {
          var n :| 0 <= n < |b[1..]| && b[1..][n] == x;
          assert b[n + 1] == x && x in a && x != b[0];
        }
      }
      SortedSame(a[1..], b[1..]);
    }
  }

  lemma {:induction false} FindExact(leaves: seq<Leaf>, path: string, k: nat)
    requires k <= |leaves|
    ensures var f := FindLeaf(leaves, path, k);
            && (f.Some? ==> f.value in leaves && f.value.path == path)
            && (f.None? ==> forall i | k <= i < |leaves| :: leaves[i].path != path)
    decreases |leaves| - k
  {
    if k < |leaves| && leaves[k].path != path {
      FindExact(leaves, path, k + 1);
    }
  }

  lemma {:induction false} UnderExact(leaves: seq<Leaf>, directory: string, k: nat, x: Leaf)
    requires k <= |leaves|
    ensures x in Under(leaves, directory, k) <==> x in leaves[k..] && Below(directory, x.path)
    decreases |leaves| - k
  {
    if k < |leaves| {
      UnderExact(leaves, directory, k + 1, x);
      assert leaves[k..] == [leaves[k]] + leaves[k + 1..];
    }
  }

  /** A request covers the leaf of that path, or everything below it. */
  predicate Requests(path: string, leaf: Leaf) {
    leaf.path == path || Below(path, leaf.path)
  }

  lemma ExpandExact(leaves: seq<Leaf>, path: string, x: Leaf)
    requires ValidTree(leaves)
    ensures x in Expand(leaves, path) <==> x in leaves && Requests(path, x)
  {
    FindExact(leaves, path, 0);
    UnderExact(leaves, path, 0, x);
    assert leaves[0..] == leaves;
    var exact := FindLeaf(leaves, path, 0);
    if exact.Some? && x in leaves {
      NothingBelowLeaf(leaves, exact.value, x);
      if x.path == path {
        SamePath(leaves, x, exact.value);
      }
    }
  }

  lemma NothingBelowLeaf(leaves: seq<Leaf>, leaf: Leaf, x: Leaf)
    requires ValidTree(leaves) && leaf in leaves && x in leaves
    ensures !Below(leaf.path, x.path)
  {
    var i :| 0 <= i < |leaves| && leaves[i] == leaf;
    var j :| 0 <= j < |leaves| && leaves[j] == x;
    if i == j {
      assert |leaf.path + "/"| > |x.path|;
    }
  }

  function Flat(leaves: seq<Leaf>, requests: seq<string>, k: nat): seq<Leaf>
    requires k <= |requests|
    decreases |requests| - k
  {
    if k == |requests| then [] else Expand(leaves, requests[k]) + Flat(leaves, requests, k + 1)
  }

  predicate Available(leaves: seq<Leaf>, path: string) {
    Expand(leaves, path) != [] && AllSupported(Expand(leaves, path))
  }

  lemma {:induction false} FlatExact(leaves: seq<Leaf>, requests: seq<string>, k: nat, x: Leaf)
    requires ValidTree(leaves) && k <= |requests|
    ensures x in Flat(leaves, requests, k) <==> x in leaves && Asked(requests, k, x)
    decreases |requests| - k
  {
    if k < |requests| {
      FlatExact(leaves, requests, k + 1, x);
      ExpandExact(leaves, requests[k], x);
      AskedFirst(requests, k, x);
    }
  }

  predicate Asked(requests: seq<string>, k: nat, x: Leaf) {
    exists i | k <= i < |requests| :: Requests(requests[i], x)
  }

  lemma AskedFirst(requests: seq<string>, k: nat, x: Leaf)
    requires k < |requests|
    ensures Asked(requests, k, x) <==> Requests(requests[k], x) || Asked(requests, k + 1, x)
  {
  }

  /** The expansion succeeds exactly if every request does and all candidates together fit the entry limit. */
  lemma {:induction false} GatherExact(leaves: seq<Leaf>, policy: Policy, requests: seq<string>, k: nat, sofar: seq<Leaf>)
    requires ValidTree(leaves) && k <= |requests| && From(leaves, sofar) && SortedLeaves(sofar)
    requires |sofar| <= policy.maxEntries
    ensures var all := PutAll(sofar, Flat(leaves, requests, k));
            if (forall i | k <= i < |requests| :: Available(leaves, requests[i])) && |all| <= policy.maxEntries then
              Gather(leaves, policy, requests, k, sofar) == Candidates(all)
            else Gather(leaves, policy, requests, k, sofar).Stopped?
    decreases |requests| - k
  {
    if k < |requests| {
      var expanded := Expand(leaves, requests[k]);
      var next := PutAll(sofar, expanded);
      var rest := Flat(leaves, requests, k + 1);
      forall x | x in expanded ensures x in leaves {
        ExpandExact(leaves, requests[k], x);
      }
      forall x | x in rest ensures x in leaves {
        FlatExact(leaves, requests, k + 1, x);
      }
      PutAllKeeps(leaves, sofar, expanded);
      PutAllConcat(sofar, expanded, rest);
      PutAllKeeps(leaves, next, rest);
      if Available(leaves, requests[k]) && |next| <= policy.maxEntries {
        GatherExact(leaves, policy, requests, k + 1, next);
      }
    }
  }

  // ---------------------------------------------------------------- requests only name leaves

  lemma {:induction false} PutPathKeeps(s: seq<string>, x: string)
    requires SortedPaths(s)
    ensures SortedPaths(PutPath(s, x)) && forall y :: y in PutPath(s, x) <==> y == x || y in s
  {
    if s != [] {
      assert s == [s[0]] + s[1..];
      LexTotal(s[0], x);
      if LexLess(s[0], x) {
        PutPathKeeps(s[1..], x);
        assert forall y | y in PutPath(s[1..], x) :: LexLess(s[0], y);
      } else if s[0] != x {
        forall k | 0 <= k < |s| ensures LexLess(x, s[k]) {
          if k > 0 {
            LexTransitive(x, s[0], s[k]);
          }
        }
      }
    }
  }

  lemma {:induction false} NormalizeKeeps(paths: seq<string>)
    ensures SortedPaths(Normalize(paths)) && forall y :: y in Normalize(paths) <==> y in paths
  {
    if paths != [] {
      var init := paths[..|paths| - 1];
      NormalizeKeeps(init);
      PutPathKeeps(Normalize(init), Last(paths));
      assert paths == init + [Last(paths)];
    }
  }

  lemma {:induction false} SortedPathsSame(a: seq<string>, b: seq<string>)
    requires SortedPaths(a) && SortedPaths(b) && forall x :: x in a <==> x in b
    ensures a == b
  {
    var left, right := seq(|a|, i requires 0 <= i < |a| => Leaf(a[i], "", None, true)),
                       seq(|b|, i requires 0 <= i < |b| => Leaf(b[i], "", None, true));
    forall x ensures x in left <==> x in right {
      if x in left {
        var i :| 0 <= i < |left| && left[i] == x;
        assert a[i] in b;
        var j :| 0 <= j < |b| && b[j] == a[i];
        assert right[j] == x;
      }
      if x in right {
        var i :| 0 <= i < |right| && right[i] == x;
        assert b[i] in a;
        var j :| 0 <= j < |a| && a[j] == b[i];
        assert left[j] == x;
      }
    }
    SortedSame(left, right);
    forall i | 0 <= i < |a| ensures a[i] == b[i] {
      assert left[i].path == right[i].path;
    }
  }

  /**
   The manifest does not depend on the order or the repetition of requests, unless the repetitions alone
   make them too many: they are counted before they are dropped.
   */
  lemma OrderAndRepetitionDoNotMatter(leaves: seq<Leaf>, a: seq<string>, b: seq<string>, policy: Policy)
    requires forall p :: p in a <==> p in b
    ensures (|a| <= MAX_REQUESTS <==> |b| <= MAX_REQUESTS) ==> Manifested(leaves, a, policy) == Manifested(leaves, b, policy)
    ensures |a| <= MAX_REQUESTS < |b| ==> Manifested(leaves, b, policy) == Failed(RequestsInvalid)
  {
    assert (forall p | p in a :: ContextPath(p)) <==> (forall p | p in b :: ContextPath(p));
    assert a == [] <==> b == [] by {
      assert a != [] ==> a[0] in b;
      assert b != [] ==> b[0] in a;
    }
    hide ContextPath;
    NormalizeKeeps(a);
    NormalizeKeeps(b);
    SortedPathsSame(Normalize(a), Normalize(b));
  }

  /** When a manifest is built: every request names something supported, and the leaves together fit. */
  lemma BuildExact(leaves: seq<Leaf>, requests: seq<string>, policy: Policy)
    requires ValidTree(leaves)
    ensures var all := PutAll([], Flat(leaves, Normalize(requests), 0));
            && (Build(leaves, requests, policy).Built? <==>
                  (forall p | p in requests :: Available(leaves, p)) && |all| <= policy.maxEntries)
            && (Build(leaves, requests, policy).Built? ==>
                  var m, c := Build(leaves, requests, policy).manifest, Choose(policy, all, |all|);
                  m.selected == c.selected && m.excluded == c.excluded && m.bytes == c.bytes)
            && SortedLeaves(all)
            && forall x :: x in all <==> x in leaves && exists p | p in requests :: Requests(p, x)
  {
    var normalized := Normalize(requests);
    NormalizeKeeps(requests);
    GatherExact(leaves, policy, normalized, 0, []);
    forall x ensures x in Flat(leaves, normalized, 0) <==> x in leaves && exists p | p in requests :: Requests(p, x) {
      FlatExact(leaves, normalized, 0, x);
      if Asked(normalized, 0, x) {
        var i :| 0 <= i < |normalized| && Requests(normalized[i], x);
        assert normalized[i] in requests;
      }
      if exists p | p in requests :: Requests(p, x) {
        var p :| p in requests && Requests(p, x);
        assert p in normalized;
      }
    }
    PutAllKeeps(leaves, [], Flat(leaves, normalized, 0));
  }

  /**
   Asking also for a path below a requested directory goes through exactly if that path is well formed,
   names something, and is not one request too many; it then changes no decision.
   */
  lemma RequestsBelowAddNothing(leaves: seq<Leaf>, requests: seq<string>, directory: string, path: string, policy: Policy)
    requires ValidTree(leaves) && Manifested(leaves, requests, policy).Built?
    requires directory in requests && Below(directory, path)
    ensures Manifested(leaves, requests + [path], policy).Built?
            <==> ContextPath(path) && |requests| < MAX_REQUESTS && Expand(leaves, path) != []
    ensures Manifested(leaves, requests + [path], policy).Built? ==>
              var m, n := Manifested(leaves, requests, policy).manifest, Manifested(leaves, requests + [path], policy).manifest;
              m.selected == n.selected && m.excluded == n.excluded && m.bytes == n.bytes
  {
    var more := requests + [path];
    assert ValidRequests(more) <==> ContextPath(path) && |requests| < MAX_REQUESTS by {
      assert path in more && forall p | p in requests :: p in more;
    }
    if Expand(leaves, path) != [] {
      BelowAddsNothing(leaves, requests, directory, path, policy);
    } else {
      BuildExact(leaves, more, policy);
      assert path in more && !Available(leaves, path);
    }
  }

  lemma BelowAddsNothing(leaves: seq<Leaf>, requests: seq<string>, directory: string, path: string, policy: Policy)
    requires ValidTree(leaves) && Build(leaves, requests, policy).Built?
    requires directory in requests && Below(directory, path) && Expand(leaves, path) != []
    ensures Build(leaves, requests + [path], policy).Built?
    ensures var m, n := Build(leaves, requests, policy).manifest, Build(leaves, requests + [path], policy).manifest;
            m.selected == n.selected && m.excluded == n.excluded && m.bytes == n.bytes
  {
    var more := requests + [path];
    BuildExact(leaves, requests, policy);
    BuildExact(leaves, more, policy);
    var a, b := PutAll([], Flat(leaves, Normalize(requests), 0)), PutAll([], Flat(leaves, Normalize(more), 0));
    forall x | Requests(path, x) ensures Requests(directory, x) {
      assert directory + "/" <= path <= x.path;
    }
    forall x ensures x in a <==> x in b {
      if exists p | p in more :: Requests(p, x) {
        var p :| p in more && Requests(p, x);
        if p == path {
          assert directory in requests && Requests(directory, x);
        }
      }
      if exists p | p in requests :: Requests(p, x) {
        var p :| p in requests && Requests(p, x);
        assert p in more;
      }
    }
    SortedSame(a, b);
    forall k | 0 <= k < |Expand(leaves, path)| ensures Expand(leaves, path)[k].supported {
      var x := Expand(leaves, path)[k];
      ExpandExact(leaves, path, x);
      ExpandExact(leaves, directory, x);
      assert Available(leaves, directory);
    }
  }
}
