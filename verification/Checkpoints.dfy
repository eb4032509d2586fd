/**
 Saving checkpoints on the Instance's own ref, and what any sequence of saves leaves there.
 */
module Checkpoints {
  import opened Common
  import opened Refs
  import opened MemoryTree
  import opened Memory
  import opened MemoryAgreement
  import opened Lineage

  datatype Save = Save(
    expected: Commit, items: seq<Item>, record: string, initial: bool, branchUnused: bool, fault: Fault)

  datatype Reason = IdentityMismatch | MetadataLimitExceeded | PathsOverlap | DestinationCheckedOut | NotPersisted

  datatype Result = Saved(state: Commit, changed: bool) | Failed(reason: Reason)

  /** The expected State must be a readable checkpoint of this Instance, unless this is the first one. */
  predicate BoundTo(codec: Codec, binding: Binding, c: Commit) {
    var m := MetadataIn(codec, c.tree);
    m.Some? && m.value.binding == binding
  }

  /** The ref is written with one guarded update, or verified if the tree did not change. */
  function Checkpoint(codec: Codec, binding: Binding, current: Option<Commit>, s: Save): (Result, Option<Commit>) {
    var m := MetadataOf(binding, s.items);
    var tree := Written(codec, binding, s.items);
    if !s.initial && !BoundTo(codec, binding, s.expected) then (Failed(IdentityMismatch), current)
    else if Utf8Size(codec.encode(m)) > MAX_METADATA_BYTES then (Failed(MetadataLimitExceeded), current)
    else if tree.None? then (Failed(PathsOverlap), current)
    else if !s.initial && tree.value == s.expected.tree then
      var (ok, after) := Cas(current, Some(s.expected), s.expected, s.fault);
      (if ok then Saved(s.expected, false) else Failed(NotPersisted), after)
    else if !s.branchUnused then (Failed(DestinationCheckedOut), current)
    else
      var commit := Commit(tree.value, [s.expected], s.record);
      var (ok, after) := Cas(current, if s.initial then None else Some(s.expected), commit, s.fault);
      (if ok then Saved(commit, true) else Failed(NotPersisted), after)
  }

  /** The store of one Instance. */
  class MemoryStore {
    const codec: Codec
    const binding: Binding
    var canonical: Option<Commit>

    constructor (codec: Codec, binding: Binding)
      ensures this.codec == codec && this.binding == binding && canonical.None?
    {
      this.codec, this.binding, canonical := codec, binding, None;
    }

    /** `GitMemoryStore._checkpoint`. */
    method Save(s: Save) returns (result: Result)
      modifies this`canonical
      ensures (result, canonical) == Checkpoint(codec, binding, old(canonical), s)
    {
      if !s.initial && !BoundTo(codec, binding, s.expected) {
        return Failed(IdentityMismatch);
      }
      var m := MetadataOf(binding, s.items);
      if Utf8Size(codec.encode(m)) > MAX_METADATA_BYTES {
        return Failed(MetadataLimitExceeded);
      }
      var tree := BuildTree(AllEntries(codec, m, DeclareAll(s.items)));
      if tree.None? {
        return Failed(PathsOverlap);
      }
      var same := !s.initial && tree.value == s.expected.tree;
      if !same && !s.branchUnused {
        return Failed(DestinationCheckedOut);
      }
      var next := if same then s.expected else Commit(tree.value, [s.expected], s.record);
      var update := Cas(canonical, if s.initial then None else Some(s.expected), next, s.fault);
      canonical := update.1;
      result := if update.0 then Saved(next, !same) else Failed(NotPersisted);
    }
  }

  // ---------------------------------------------------------------- what a save reports

  /** Everything but the ref itself lets the checkpoint be stored. */
  ghost predicate Storable(codec: Codec, binding: Binding, s: Save) {
    && (s.initial || BoundTo(codec, binding, s.expected)) && Written(codec, binding, s.items).Some?
    && (s.branchUnused || Unchanged(codec, binding, s))
  }

  predicate Unchanged(codec: Codec, binding: Binding, s: Save) {
    !s.initial && Written(codec, binding, s.items) == Some(s.expected.tree)
  }

  /**
   A save is reported done exactly if the checkpoint can be stored, the ref is where the request expects it
   and the write succeeds; the ref then holds the reported State, which is the expected one or a single-parent
   child of it with the requested content. A refusal moves nothing; only a write that went wrong can.
   */
  lemma SaveReports(codec: Codec, binding: Binding, current: Option<Commit>, s: Save)
    requires ValidRequest(s.items)
    ensures var (result, after) := Checkpoint(codec, binding, current, s);
            var asExpected := current == if s.initial then None else Some(s.expected);
            && (result.Saved? <==> Storable(codec, binding, s) && asExpected && s.fault.Healthy?)
            && (result.Saved? ==>
                  && after == Some(result.state) && Written(codec, binding, s.items) == Some(result.state.tree)
                  && (result.changed <==> !Unchanged(codec, binding, s))
                  && (result.changed ==> result.state.parents == [s.expected])
                  && (!result.changed ==> result.state == s.expected))
            && (result == Failed(NotPersisted) <==> Storable(codec, binding, s) && !(asExpected && s.fault.Healthy?))
            && (after != current && !result.Saved? ==> result == Failed(NotPersisted) && s.fault.CommitRaises?)
  {
    hide Written, BoundTo, ValidRequest;
    StorableTree(codec, binding, s);
  }

  lemma StorableTree(codec: Codec, binding: Binding, s: Save)
    ensures Written(codec, binding, s.items).Some? ==>
              Utf8Size(codec.encode(MetadataOf(binding, s.items))) <= MAX_METADATA_BYTES
  {
  }

  /** Why a save is refused before its ref is touched, each reason exactly when it is reported. */
  lemma SaveRefusals(codec: Codec, binding: Binding, current: Option<Commit>, s: Save)
    requires ValidRequest(s.items)
    ensures var result := Checkpoint(codec, binding, current, s).0;
            var bound := s.initial || BoundTo(codec, binding, s.expected);
            var small := Utf8Size(codec.encode(MetadataOf(binding, s.items))) <= MAX_METADATA_BYTES;
            var apart := forall i, j | 0 <= i < j < |s.items| :: !Overlap(Parts(s.items[i].path), Parts(s.items[j].path));
            && (result == Failed(IdentityMismatch) <==> !bound)
            && (result == Failed(MetadataLimitExceeded) <==> bound && !small)
            && (result == Failed(PathsOverlap) <==> bound && small && !apart)
            && (result == Failed(DestinationCheckedOut) <==>
                  bound && small && apart && !s.branchUnused && !Unchanged(codec, binding, s))
  {
    WriterSucceeds(codec, binding, s.items);
    hide Written, BoundTo, ValidRequest, Overlap, MetadataOf, Utf8Size;
  }

  // ---------------------------------------------------------------- runs

  ghost predicate IsRun(codec: Codec, binding: Binding, refs: seq<Option<Commit>>, saves: seq<Save>) {
    && |refs| == |saves| + 1 && refs[0].None?
    && (forall k | 0 <= k < |saves| :: ValidRequest(saves[k].items))
    && forall k | 0 <= k < |saves| :: refs[k + 1] == Checkpoint(codec, binding, refs[k], saves[k]).1
  }

  /** The ref stands on a chain of written checkpoints that starts on some baseline. */
  ghost predicate StandsOn(
    codec: Codec, binding: Binding, tip: Commit, baseline: Commit, saves: seq<Lineage.Save>, chain: seq<Commit>)
  {
    chain != [] && Last(chain) == tip && Saves(codec, binding, baseline, saves, chain)
  }

  lemma ChainGrows(
    codec: Codec, binding: Binding, baseline: Commit, saves: seq<Lineage.Save>, chain: seq<Commit>,
    save: Lineage.Save, next: Commit)
    requires Saves(codec, binding, baseline, saves, chain) && ValidRequest(save.items)
    requires Written(codec, binding, save.items) == Some(next.tree) && next.record == save.record
    requires next.parents == [if chain == [] then baseline else Last(chain)]
    ensures Saves(codec, binding, baseline, saves + [save], chain + [next])
  {
    hide Written, ValidRequest;
    var longer := chain + [next];
    forall k | 0 <= k < |longer| ensures ChainLink(longer, baseline, k) {
      if k < |chain| {
        assert ChainLink(chain, baseline, k);
      }
    }
  }

  /**
   Whatever is saved, refused, raised or lost, the ref stands on an unbroken chain of this writer's
   checkpoints since the first one; with `SavedIsPublishable` that decides whether it can be published.
   */
  lemma {:induction false} RefStandsOnItsCheckpoints(
    codec: Codec, binding: Binding, refs: seq<Option<Commit>>, saves: seq<Save>, k: nat)
    returns (baseline: Commit, done: seq<Lineage.Save>, chain: seq<Commit>)
    requires IsRun(codec, binding, refs, saves) && k < |refs| && refs[k].Some?
    ensures StandsOn(codec, binding, refs[k].value, baseline, done, chain)
  {
    hide Checkpoint, Written, ValidRequest;
    var s, before := saves[k - 1], refs[k - 1];
    if before.Some? {
      baseline, done, chain := RefStandsOnItsCheckpoints(codec, binding, refs, saves, k - 1);
      if refs[k] != before {
        NextState(codec, binding, before, s, refs[k]);
        var save := Lineage.Save(s.items, s.record);
        ChainGrows(codec, binding, baseline, done, chain, save, refs[k].value);
        done, chain := done + [save], chain + [refs[k].value];
      }
    } else {
      NextState(codec, binding, before, s, refs[k]);
      var save := Lineage.Save(s.items, s.record);
      baseline := s.expected;
      ChainGrows(codec, binding, baseline, [], [], save, refs[k].value);
      done, chain := [save], [refs[k].value];
      assert [] + [save] == done && [] + [refs[k].value] == chain;
    }
  }

  /** History is only ever extended: each value of the ref has every earlier one as an ancestor. */
  lemma {:induction false} EarlierStatesStay(
    codec: Codec, binding: Binding, refs: seq<Option<Commit>>, saves: seq<Save>, j: nat, k: nat)
    requires IsRun(codec, binding, refs, saves) && j <= k < |refs| && refs[j].Some?
    ensures refs[k].Some? && Reaches(refs[k].value, refs[j].value)
    decreases k
  {
    if j < k {
      EarlierStatesStay(codec, binding, refs, saves, j, k - 1);
      if refs[k] != refs[k - 1] {
        NextState(codec, binding, refs[k - 1], saves[k - 1], refs[k]);
        assert Reaches(refs[k].value.parents[0], refs[j].value);
      }
    }
  }

  lemma NextState(codec: Codec, binding: Binding, current: Option<Commit>, s: Save, next: Option<Commit>)
    requires next == Checkpoint(codec, binding, current, s).1 && next != current
    ensures next.Some? && Written(codec, binding, s.items) == Some(next.value.tree) && next.value.record == s.record
    ensures next.value.parents == [if current.Some? then current.value else s.expected]
  {
    hide Written, BoundTo, MetadataOf;
  }
}
