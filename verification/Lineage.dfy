/**
 The lineage test before publication: which commits a push would add above the authorized baseline.

 A commit ID identifies the commit, so a commit is its tree, its parents and the rest of its record; the
 history is therefore acyclic. `rev-list A..B` enumerates what is reachable from B and not from A.
 */
module Lineage {
  import opened Common
  import opened MemoryTree
  import opened Memory
  import opened MemoryAgreement

  datatype Commit = Commit(tree: Tree<Object>, parents: seq<Commit>, record: string)

  /** `a` is `c` or one of its ancestors. */
  predicate Reaches(c: Commit, a: Commit)
    decreases c
  {
    a == c || exists k | 0 <= k < |c.parents| :: Reaches(c.parents[k], a)
  }

  /** The longest way down to a root. */
  function Height(c: Commit): nat
    decreases c, |c.parents| + 1
  {
    MaxHeight(c, |c.parents|)
  }

  function MaxHeight(c: Commit, n: nat): nat
    requires n <= |c.parents|
    decreases c, n
  {
    if n == 0 then 0
    else
      var rest, last := MaxHeight(c, n - 1), Height(c.parents[n - 1]) + 1;
      if rest >= last then rest else last
  }

  lemma {:induction false} ParentIsLower(c: Commit, n: nat, k: nat)
    requires k < n <= |c.parents|
    ensures Height(c.parents[k]) < MaxHeight(c, n)
  {
    if k < n - 1 {
      ParentIsLower(c, n - 1, k);
    }
  }

  /** History has no cycles. */
  lemma {:induction false} AncestorIsLower(c: Commit, a: Commit)
    requires Reaches(c, a) && a != c
    ensures Height(a) < Height(c)
    decreases c
  {
    var k :| 0 <= k < |c.parents| && Reaches(c.parents[k], a);
    ParentIsLower(c, |c.parents|, k);
    if a != c.parents[k] {
      AncestorIsLower(c.parents[k], a);
    }
  }

  lemma {:induction false} ReachesTransitive(c: Commit, b: Commit, a: Commit)
    requires Reaches(c, b) && Reaches(b, a)
    ensures Reaches(c, a)
    decreases c
  {
    if b != c {
      var k :| 0 <= k < |c.parents| && Reaches(c.parents[k], b);
      ReachesTransitive(c.parents[k], b, a);
    }
  }

  // ---------------------------------------------------------------- the validator

  datatype Request = Request(
    codec: Codec, binding: Binding, baseline: Commit, memory: Commit, expectedRemote: Option<Commit>, maximum: nat)

  datatype Refusal =
    | UnauthorizedAncestry | LineageLimitExceeded | UnsupportedLineage | MemoryInvalid | RemoteBoundaryUnauthorized

  datatype Verdict = Accepted(lineage: seq<Commit>) | Refused(refusal: Refusal)

  /** Exactly the commits above the baseline, each once, in whatever order. */
  ghost predicate Enumerates(listed: seq<Commit>, baseline: Commit, memory: Commit) {
    NoDup(listed) && forall c :: c in listed <==> Reaches(memory, c) && !Reaches(baseline, c)
  }

  /** A listing walks down from the tip: every other commit was found as a parent of one found before. */
  ghost predicate Walked(listed: seq<Commit>) {
    forall k | 0 <= k < |listed| - 1 :: exists j | k < j < |listed| :: listed[k] in listed[j].parents
  }

  predicate ValidCommit(r: Request, c: Commit) {
    Valid(r.codec, r.binding, c.tree)
  }

  predicate ChainLink(listed: seq<Commit>, baseline: Commit, k: nat)
    requires k < |listed|
  {
    listed[k].parents == [if k == 0 then baseline else listed[k - 1]]
  }

  predicate Chain(listed: seq<Commit>, baseline: Commit) {
    forall k | 0 <= k < |listed| :: ChainLink(listed, baseline, k)
  }

  predicate RemoteOk(r: Request, listed: seq<Commit>) {
    r.expectedRemote.Some? ==>
      (r.expectedRemote.value == r.baseline || r.expectedRemote.value in listed)
      && ValidCommit(r, r.expectedRemote.value)
  }

  predicate AllValid(r: Request, listed: seq<Commit>) {
    forall k | 0 <= k < |listed| :: ValidCommit(r, listed[k])
  }

  /** The whole test. */
  predicate Accepts(r: Request, listed: seq<Commit>) {
    && Reaches(r.memory, r.baseline) && 0 < |listed| <= r.maximum
    && Chain(listed, r.baseline) && AllValid(r, listed) && RemoteOk(r, listed)
  }

  /** Below the first invalid commit some commit leaves the chain. */
  predicate StraysFirst(r: Request, listed: seq<Commit>) {
    exists k | 0 <= k < |listed| ::
      !ChainLink(listed, r.baseline, k) && forall i | 0 <= i < k :: ValidCommit(r, listed[i])
  }

  /** The commit loop: walk up the list, stop at the first commit out of line. */
  method CheckChain(r: Request, listed: seq<Commit>) returns (refusal: Option<Refusal>)
    ensures refusal.None? <==> Chain(listed, r.baseline) && AllValid(r, listed)
    ensures refusal == Some(UnsupportedLineage) <==> StraysFirst(r, listed)
    ensures refusal.Some? ==> refusal.value.UnsupportedLineage? || refusal.value.MemoryInvalid?
  {
    hide ValidCommit;
    var previous := r.baseline;
    for k := 0 to |listed|
      invariant previous == if k == 0 then r.baseline else listed[k - 1]
      invariant forall i | 0 <= i < k :: ChainLink(listed, r.baseline, i)
      invariant forall i | 0 <= i < k :: ValidCommit(r, listed[i])
    {
      var direct := listed[k].parents == [previous];
      assert direct <==> ChainLink(listed, r.baseline, k);
      if !direct {
        return Some(UnsupportedLineage);
      }
      var valid := ValidCommit(r, listed[k]);
      if !valid {
        return Some(MemoryInvalid);
      }
      previous := listed[k];
    }
    return None;
  }

  method CheckRemote(r: Request, listed: seq<Commit>) returns (refusal: Option<Refusal>)
    ensures refusal.None? <==> RemoteOk(r, listed)
    ensures refusal.Some? ==>
              refusal.value == if r.expectedRemote.value == r.baseline || r.expectedRemote.value in listed
                               then MemoryInvalid else RemoteBoundaryUnauthorized
  {
    hide ValidCommit;
    if r.expectedRemote.None? {
      return None;
    }
    var remote := r.expectedRemote.value;
    if remote != r.baseline && remote !in listed {
      return Some(RemoteBoundaryUnauthorized);
    }
    var valid := ValidCommit(r, remote);
    refusal := if valid then None else Some(MemoryInvalid);
  }

  /** `_validate_lineage`, given Git's answers about ancestry and the listing. */
  method ValidateLineage(r: Request, descended: bool, listed: seq<Commit>) returns (verdict: Verdict)
    requires descended <==> Reaches(r.memory, r.baseline)
    ensures verdict.Accepted? <==> Accepts(r, listed)
    ensures verdict.Accepted? ==> verdict.lineage == listed
    ensures verdict == Refused(UnauthorizedAncestry) <==> !descended
    ensures verdict == Refused(LineageLimitExceeded) <==> descended && (listed == [] || |listed| > r.maximum)
    ensures verdict == Refused(UnsupportedLineage) <==>
              descended && 0 < |listed| <= r.maximum && StraysFirst(r, listed)
    ensures verdict == Refused(RemoteBoundaryUnauthorized) <==>
              && descended && 0 < |listed| <= r.maximum && Chain(listed, r.baseline) && AllValid(r, listed)
              && r.expectedRemote.Some? && r.expectedRemote.value !in [r.baseline] + listed
  {
    if !descended {
      return Refused(UnauthorizedAncestry);
    }
    if listed == [] || |listed| > r.maximum {
      return Refused(LineageLimitExceeded);
    }
    var refusal := CheckChain(r, listed);
    if refusal.None? {
      refusal := CheckRemote(r, listed);
    }
    verdict := if refusal.None? then Accepted(listed) else Refused(refusal.value);
  }

  // ---------------------------------------------------------------- what acceptance means

  lemma {:induction false} ChainReaches(listed: seq<Commit>, baseline: Commit, j: nat, k: nat)
    requires Chain(listed, baseline) && j <= k < |listed|
    ensures Reaches(listed[k], listed[j]) && Reaches(listed[k], baseline)
    decreases k
  {
    assert ChainLink(listed, baseline, k);
    if k > 0 {
      ChainReaches(listed, baseline, if j < k then j else k - 1, k - 1);
      assert Reaches(listed[k].parents[0], baseline);
      assert j < k ==> Reaches(listed[k].parents[0], listed[j]);
    } else {
      assert Reaches(listed[k].parents[0], baseline);
    }
  }

  /**
   The test never asks whether the list ends at the commit to be published; an accepted list does. It is
   the whole difference between the two histories, one single-parent chain on the baseline, and every
   commit in it passed validation: the push adds no other commit.
   */
  lemma AcceptedIsTheChain(r: Request, listed: seq<Commit>)
    requires Enumerates(listed, r.baseline, r.memory) && Accepts(r, listed)
    ensures Last(listed) == r.memory && Chain(listed, r.baseline)
    ensures forall c :: Reaches(r.memory, c) && !Reaches(r.baseline, c) ==>
              ValidCommit(r, c) && |c.parents| == 1 && c in listed
  {
    hide ValidCommit;
    forall c | Reaches(r.memory, c) && !Reaches(r.baseline, c)
      ensures ValidCommit(r, c) && |c.parents| == 1 && c in listed
    {
      assert c in listed;
      var k :| 0 <= k < |listed| && listed[k] == c;
      assert ChainLink(listed, r.baseline, k);
    }
    ChainEndsAtTip(r.baseline, r.memory, listed);
  }

  lemma ChainEndsAtTip(baseline: Commit, memory: Commit, listed: seq<Commit>)
    requires Enumerates(listed, baseline, memory) && listed != [] && Chain(listed, baseline)
    ensures Last(listed) == memory
  {
    assert !Reaches(baseline, memory) by {
      if Reaches(baseline, memory) {
        assert listed[0] in listed;
        ReachesTransitive(baseline, memory, listed[0]);
      }
    }
    assert memory in listed;
    var k :| 0 <= k < |listed| && listed[k] == memory;
    var above := Last(listed);
    assert above in listed;
    ChainReaches(listed, baseline, k, |listed| - 1);
    if above != memory {
      AncestorIsLower(above, memory);
      AncestorIsLower(memory, above);
    }
  }

  // ---------------------------------------------------------------- a chain is accepted

  lemma {:induction false} AboveChain(chain: seq<Commit>, baseline: Commit, c: Commit, k: nat)
    requires Chain(chain, baseline) && k < |chain|
    ensures Reaches(chain[k], c) <==> Reaches(baseline, c) || exists j | 0 <= j <= k :: chain[j] == c
  {
    assert ChainLink(chain, baseline, k);
    if k > 0 {
      AboveChain(chain, baseline, c, k - 1);
      assert Reaches(chain[k], c) <==> c == chain[k] || Reaches(chain[k].parents[0], c);
    } else {
      assert Reaches(chain[k], c) <==> c == chain[k] || Reaches(chain[k].parents[0], c);
    }
  }

  lemma ChainNotBelow(chain: seq<Commit>, baseline: Commit, k: nat)
    requires Chain(chain, baseline) && k < |chain|
    ensures !Reaches(baseline, chain[k])
  {
    ChainReaches(chain, baseline, k, k);
    if Reaches(baseline, chain[k]) {
      if baseline == chain[k] {
        assert ChainLink(chain, baseline, k);
        ParentIsLower(chain[k], 1, 0);
        if k > 0 {
          ChainReaches(chain, baseline, k - 1, k - 1);
          if chain[k - 1] != baseline {
            AncestorIsLower(chain[k - 1], baseline);
          }
        }
      } else {
        AncestorIsLower(baseline, chain[k]);
        AncestorIsLower(chain[k], baseline);
      }
      assert false;
    }
  }

  lemma ChainDistinct(chain: seq<Commit>, baseline: Commit)
    requires Chain(chain, baseline)
    ensures NoDup(chain)
  {
    forall i, j | 0 <= i < j < |chain| ensures chain[i] != chain[j] {
      assert ChainLink(chain, baseline, j);
      ChainReaches(chain, baseline, i, j - 1);
      ParentIsLower(chain[j], 1, 0);
      if chain[j - 1] != chain[i] {
        AncestorIsLower(chain[j - 1], chain[i]);
      }
    }
  }

  /** The commits above the baseline are the chain. */
  lemma ChainIsDifference(chain: seq<Commit>, baseline: Commit, memory: Commit, c: Commit)
    requires chain != [] && Chain(chain, baseline) && Last(chain) == memory
    ensures c in chain <==> Reaches(memory, c) && !Reaches(baseline, c)
  {
    AboveChain(chain, baseline, c, |chain| - 1);
    if c in chain {
      var k :| 0 <= k < |chain| && chain[k] == c;
      ChainNotBelow(chain, baseline, k);
    }
  }

  ghost predicate SameElements(a: seq<Commit>, b: seq<Commit>) {
    forall c :: c in a <==> c in b
  }

  /** The later commit from which the walk found this one. */
  lemma FoundFrom(listed: seq<Commit>, k: nat) returns (j: nat)
    requires Walked(listed) && k < |listed| - 1
    ensures k < j < |listed| && listed[k] in listed[j].parents
  {
    j :| k < j < |listed| && listed[k] in listed[j].parents;
  }

  /** For a chain the listing has only one possible order. */
  lemma {:induction false} WalkFollowsChain(listed: seq<Commit>, chain: seq<Commit>, baseline: Commit, k: nat)
    requires NoDup(listed) && NoDup(chain) && Walked(listed) && Chain(chain, baseline)
    requires |listed| == |chain| && SameElements(listed, chain) && k < |chain|
    ensures listed[k] == chain[k]
    decreases |chain| - k
  {
    hide Reaches, Walked, SameElements;
    if k < |chain| - 1 {
      var j := FoundFrom(listed, k);
      WalkFollowsChain(listed, chain, baseline, j);
      assert ChainLink(chain, baseline, j);
      assert listed[k] == chain[j - 1];
      if j - 1 > k {
        WalkFollowsChain(listed, chain, baseline, j - 1);
      }
    } else {
      TipIsLast(listed, chain, baseline);
    }
  }

  lemma TipIsLast(listed: seq<Commit>, chain: seq<Commit>, baseline: Commit)
    requires NoDup(listed) && NoDup(chain) && Walked(listed) && Chain(chain, baseline) && chain != []
    requires |listed| == |chain| && SameElements(listed, chain)
    ensures Last(listed) == Last(chain)
  {
    hide Reaches;
    assert Last(chain) in chain;
    var k :| 0 <= k < |listed| && listed[k] == Last(chain);
    if k < |listed| - 1 {
      var j := FoundFrom(listed, k);
      hide Walked;
      assert listed[j] in chain;
      var m :| 0 <= m < |chain| && chain[m] == listed[j];
      TipHasNoChild(chain, baseline, m);
    }
  }

  lemma TipHasNoChild(chain: seq<Commit>, baseline: Commit, m: nat)
    requires NoDup(chain) && Chain(chain, baseline) && m < |chain|
    ensures Last(chain) !in chain[m].parents
  {
    assert ChainLink(chain, baseline, m);
    ChainNotBelow(chain, baseline, |chain| - 1);
    assert Reaches(baseline, baseline);
  }

  lemma SameLength(a: seq<Commit>, b: seq<Commit>)
    requires NoDup(a) && NoDup(b) && SameElements(a, b)
    ensures |a| == |b|
  {
    NoDupFits(a, b);
    NoDupFits(b, a);
  }

  /** The condition under which publication of a memory State is allowed, stated without a listing. */
  ghost predicate Publishable(r: Request, chain: seq<Commit>) {
    && 0 < |chain| <= r.maximum && Chain(chain, r.baseline) && Last(chain) == r.memory
    && AllValid(r, chain) && RemoteOk(r, chain)
  }

  /**
   Exactness: a lineage is accepted if and only if the State sits on top of a single-parent chain of at
   most `maximum` valid checkpoints on the baseline, and the expected remote State is absent or a valid
   one of chain and baseline. Then the chain is the list.
   */
  lemma LineageIsExact(r: Request, listed: seq<Commit>)
    requires Enumerates(listed, r.baseline, r.memory) && Walked(listed)
    ensures Accepts(r, listed) <==> exists chain :: Publishable(r, chain)
    ensures forall chain :: Publishable(r, chain) ==> chain == listed
  {
    hide ValidCommit;
    forall chain | Publishable(r, chain) ensures chain == listed {
      ListedIsChain(r.baseline, r.memory, listed, chain);
    }
    if exists chain :: Publishable(r, chain) {
      ChainReaches(listed, r.baseline, 0, |listed| - 1);
    }
    if Accepts(r, listed) {
      AcceptedIsTheChain(r, listed);
      assert Publishable(r, listed);
    }
  }

  // ---------------------------------------------------------------- the writer's chain

  /** One saved checkpoint and the record it is committed with. */
  datatype Save = Save(items: seq<Item>, record: string)

  /** A run of changed checkpoints, the first with `initial=True` on the baseline. */
  ghost predicate Saves(codec: Codec, binding: Binding, baseline: Commit, saves: seq<Save>, chain: seq<Commit>) {
    && |chain| == |saves| && Chain(chain, baseline)
    && forall k | 0 <= k < |saves| :: ValidRequest(saves[k].items)
         && Written(codec, binding, saves[k].items) == Some(chain[k].tree) && chain[k].record == saves[k].record
  }

  /**
   Writer and validator, end to end: what was saved, one checkpoint after the other, can be published
   exactly when it is not too long, no checkpoint has an item path that is the Git path of an item sorted
   before it, and the expected remote State is absent, one of the checkpoints, or a baseline that is
   itself a valid checkpoint.
   */
  lemma SavedIsPublishable(r: Request, saves: seq<Save>, chain: seq<Commit>, listed: seq<Commit>)
    requires ValidCodec(r.codec) && chain != [] && Saves(r.codec, r.binding, r.baseline, saves, chain)
    requires Last(chain) == r.memory && Enumerates(listed, r.baseline, r.memory) && Walked(listed)
    ensures Accepts(r, listed) <==>
              && |saves| <= r.maximum
              && (forall k | 0 <= k < |saves| :: !PathTakesGitPath(saves[k].items))
              && match r.expectedRemote
                 case None => true
                 case Some(remote) => remote in chain || (remote == r.baseline && ValidCommit(r, r.baseline))
  {
    SavedAreValid(r, saves, chain);
    hide ValidCommit, PathTakesGitPath, Written, ValidRequest, Reaches;
    ListedIsChain(r.baseline, r.memory, listed, chain);
    ChainReaches(chain, r.baseline, 0, |chain| - 1);
    if AllValid(r, chain) && r.expectedRemote.Some? && r.expectedRemote.value in chain {
      var n :| 0 <= n < |chain| && chain[n] == r.expectedRemote.value;
      assert ValidCommit(r, chain[n]);
    }
  }

  lemma SavedAreValid(r: Request, saves: seq<Save>, chain: seq<Commit>)
    requires ValidCodec(r.codec) && Saves(r.codec, r.binding, r.baseline, saves, chain)
    ensures AllValid(r, chain) <==> forall k | 0 <= k < |saves| :: !PathTakesGitPath(saves[k].items)
  {
    forall k | 0 <= k < |saves| ensures ValidCommit(r, chain[k]) <==> !PathTakesGitPath(saves[k].items) {
      WriterMeetsValidator(r.codec, r.binding, saves[k].items);
    }
    hide ValidCommit, PathTakesGitPath, Written, ValidRequest;
  }

  /** The listing of a chain is the chain. */
  lemma ListedIsChain(baseline: Commit, memory: Commit, listed: seq<Commit>, chain: seq<Commit>)
    requires chain != [] && Chain(chain, baseline) && Last(chain) == memory
    requires Enumerates(listed, baseline, memory) && Walked(listed)
    ensures listed == chain
  {
    ChainDistinct(chain, baseline);
    forall c ensures c in listed <==> c in chain {
      ChainIsDifference(chain, baseline, memory, c);
    }
    SameLength(listed, chain);
    forall k | 0 <= k < |chain| ensures listed[k] == chain[k] {
      WalkFollowsChain(listed, chain, baseline, k);
    }
  }
}
