/**
 The one durable primitive of the system: a prepared Git transaction over several refs.

 A ref either is absent or holds one object. Each entry of a transaction names a ref, the value it
 must hold, and what to do with it: leave it (verify), remove it, or point it at a new object.
 */
module Refs {
  import opened Common

  datatype Change<+T> = Verify | Delete | Put(value: T)
  datatype Update<+T> = Update(name: string, change: Change<T>, expected: Option<T>)

  /** What the environment does to one transaction. */
  datatype Fault =
    | Healthy
    | GitUnavailable
    | PrepareRefused
    | InspectionFails
    | StallsBeforeCommit
    | CommitRaises(landed: bool, timedOut: bool)  // a timeout or another bad answer; the commit may have happened

  datatype Outcome =
    | Committed | InvalidInput | Unavailable | Conflict | Symbolic | InspectionFailed | PersistenceFailed | TimedOut

  function Lookup<T>(refs: map<string, T>, name: string): Option<T> {
    if name in refs then Some(refs[name]) else None
  }

  function Target<T>(u: Update<T>): Option<T> {
    match u.change
    case Verify => u.expected
    case Delete => None
    case Put(v) => Some(v)
  }

  function Write<T>(refs: map<string, T>, u: Update<T>): map<string, T> {
    match u.change
    case Verify => refs
    case Delete => refs - {u.name}
    case Put(v) => refs[u.name := v]
  }

  function WriteAll<T>(refs: map<string, T>, updates: seq<Update<T>>): map<string, T>
    decreases |updates|
  {
    if updates == [] then refs else WriteAll(Write(refs, updates[0]), updates[1..])
  }

  predicate AllExpected<T(==)>(refs: map<string, T>, updates: seq<Update<T>>) {
    forall k | 0 <= k < |updates| :: Lookup(refs, updates[k].name) == updates[k].expected
  }

  predicate AnySymbolic<T>(symbolic: set<string>, updates: seq<Update<T>>) {
    exists k | 0 <= k < |updates| :: updates[k].name in symbolic
  }

  /** Entries of one Python mapping: every ref is named once. */
  predicate DistinctNames<T>(updates: seq<Update<T>>) {
    forall i, j | 0 <= i < j < |updates| :: updates[i].name != updates[j].name
  }

  /** The input checks that run before Git is started. */
  predicate WellFormed<T>(updates: seq<Update<T>>) {
    updates != [] && forall k | 0 <= k < |updates| :: !(updates[k].change.Delete? && updates[k].expected.None?)
  }

  /** The complete effect of one transaction on the refs, with the outcome its caller sees. */
  function Transact<T(==)>(refs: map<string, T>, symbolic: set<string>, updates: seq<Update<T>>, fault: Fault)
    : (result: (Outcome, map<string, T>))
  {
    if !WellFormed(updates) then (InvalidInput, refs)
    else if fault.GitUnavailable? then (Unavailable, refs)
    else if fault.StallsBeforeCommit? then (TimedOut, refs)
    else if fault.InspectionFails? then (InspectionFailed, refs)
    else if AnySymbolic(symbolic, updates) then (Symbolic, refs)
    else if !AllExpected(refs, updates) then (Conflict, refs)
    else if fault.PrepareRefused? then (PersistenceFailed, refs)
    else
      var after := WriteAll(refs, updates);
      match fault
      case CommitRaises(landed, timedOut) =>
        (if timedOut then TimedOut else PersistenceFailed, if landed then after else refs)
      case _ => (Committed, after)
  }

  lemma {:induction false} WriteAllLookup<T>(refs: map<string, T>, updates: seq<Update<T>>, name: string)
    requires DistinctNames(updates) && AllExpected(refs, updates)
    ensures (forall k | 0 <= k < |updates| :: updates[k].name != name)
            ==> Lookup(WriteAll(refs, updates), name) == Lookup(refs, name)
    ensures forall k | 0 <= k < |updates| && updates[k].name == name ::
              Lookup(WriteAll(refs, updates), name) == Target(updates[k])
    decreases |updates|
  {
    if updates != [] {
      var rest, next := updates[1..], Write(refs, updates[0]);
      forall k | 0 <= k < |rest| ensures Lookup(next, rest[k].name) == rest[k].expected {
        assert rest[k] == updates[k + 1];
      }
      WriteAllLookup(next, rest, name);
      forall k | 0 <= k < |updates| && updates[k].name == name
        ensures Lookup(WriteAll(refs, updates), name) == Target(updates[k])
      {
        if k > 0 {
          assert rest[k - 1] == updates[k];
        }
      }
    }
  }

  /** Reports after which the transaction may or may not have happened. */
  predicate LeavesOpen(outcome: Outcome) {
    outcome.TimedOut? || outcome.PersistenceFailed?
  }

  /**
   A transaction is all-or-nothing: afterwards either no ref changed, or every named ref held exactly
   its expected value before and holds its target now, and no other ref moved. A reported commit means
   the second case; a timeout and a failed persistence leave open which; every other report means the first.
   */
  lemma TransactionIsAtomic<T>(
    refs: map<string, T>, symbolic: set<string>, updates: seq<Update<T>>, fault: Fault)
    requires DistinctNames(updates)
    ensures var (outcome, after) := Transact(refs, symbolic, updates, fault);
            && (after == refs
                || (&& AllExpected(refs, updates)
                    && (forall k | 0 <= k < |updates| :: Lookup(after, updates[k].name) == Target(updates[k]))
                    && (forall name | (forall k | 0 <= k < |updates| :: updates[k].name != name) ::
                          Lookup(after, name) == Lookup(refs, name))))
            && (outcome == Committed ==>
                  AllExpected(refs, updates)
                  && forall k | 0 <= k < |updates| :: Lookup(after, updates[k].name) == Target(updates[k]))
            && (outcome != Committed && !LeavesOpen(outcome) ==> after == refs)
  {
    if AllExpected(refs, updates) {
      forall name: string ensures
          (forall k | 0 <= k < |updates| :: updates[k].name != name)
            ==> Lookup(WriteAll(refs, updates), name) == Lookup(refs, name)
      {
        WriteAllLookup(refs, updates, name);
      }
      forall k | 0 <= k < |updates| ensures Lookup(WriteAll(refs, updates), updates[k].name) == Target(updates[k]) {
        WriteAllLookup(refs, updates, updates[k].name);
      }
    }
  }

  /** A healthy Git reports a conflict exactly when some ref does not hold its expected value. */
  lemma ConflictIsExact<T>(refs: map<string, T>, symbolic: set<string>, updates: seq<Update<T>>, fault: Fault)
    requires WellFormed(updates) && !AnySymbolic(symbolic, updates)
    requires !fault.GitUnavailable? && !fault.StallsBeforeCommit? && !fault.InspectionFails?
    ensures Transact(refs, symbolic, updates, fault).0 == Conflict
            <==> exists k | 0 <= k < |updates| :: Lookup(refs, updates[k].name) != updates[k].expected
  {
  }

  /** When a transaction is reported committed, and which reports tell that its input or its refs were not as they must be. */
  lemma OutcomeTells<T>(refs: map<string, T>, symbolic: set<string>, updates: seq<Update<T>>, fault: Fault)
    ensures var outcome := Transact(refs, symbolic, updates, fault).0;
            var wellFormed := updates != [] && forall u | u in updates :: u.change.Delete? ==> u.expected.Some?;
            var direct := forall u | u in updates :: u.name !in symbolic;
            var expected := forall u | u in updates :: Lookup(refs, u.name) == u.expected;
            && (outcome == InvalidInput <==> !wellFormed)
            && (outcome == Committed <==> wellFormed && direct && expected && fault.Healthy?)
            && (outcome == Conflict ==> direct && !expected) && (outcome == Symbolic ==> !direct)
            && (fault.Healthy? && wellFormed ==> outcome in {Committed, Conflict, Symbolic})
            && (outcome == TimedOut ==> fault.StallsBeforeCommit? || (fault.CommitRaises? && fault.timedOut))
            && (outcome == PersistenceFailed ==> fault.PrepareRefused? || (fault.CommitRaises? && !fault.timedOut))
  {
    assert forall k | 0 <= k < |updates| :: updates[k] in updates;
  }

  /** One guarded write of one ref, as the progress, message and evidence stores use it. */
  function Cas<T(==)>(current: Option<T>, expected: Option<T>, next: T, fault: Fault): (result: (bool, Option<T>)) {
    if current != expected || fault.GitUnavailable? || fault.StallsBeforeCommit? || fault.InspectionFails?
       || fault.PrepareRefused? then
      (false, current)
    else
      match fault
      case CommitRaises(landed, _) => (false, if landed then Some(next) else current)
      case _ => (true, Some(next))
  }

  /** The single-ref write is the one-entry transaction on a direct ref. */
  lemma CasIsTransact<T>(refs: map<string, T>, symbolic: set<string>, name: string, expected: Option<T>, next: T, fault: Fault)
    requires name !in symbolic
    ensures var (outcome, after) := Transact(refs, symbolic, [Update(name, Put(next), expected)], fault);
            var (ok, value) := Cas(Lookup(refs, name), expected, next, fault);
            && (ok <==> outcome == Committed)
            && Lookup(after, name) == value
            && forall other | other != name :: Lookup(after, other) == Lookup(refs, other)
  {
    var updates := [Update(name, Put(next), expected)];
    assert AllExpected(refs, updates) <==> Lookup(refs, name) == expected by {
      assert updates[0] == Update(name, Put(next), expected);
    }
    assert WriteAll(refs, updates) == Write(refs, updates[0]) by {
      assert updates[1..] == [];
    }
  }

  /** The direct refs of one repository. */
  class RefStore<T(==)> {
    var refs: map<string, T>
    var symbolic: set<string>

    /** `_update_refs`: validate the entries, prepare them all, then commit or abort. */
    method UpdateRefs(updates: seq<Update<T>>, fault: Fault) returns (outcome: Outcome)
      requires DistinctNames(updates)
      modifies this`refs
      ensures (outcome, refs) == Transact(old(refs), symbolic, updates, fault)
    {
      if updates == [] {
        return InvalidInput;
      }
      for k := 0 to |updates|
        invariant forall j | 0 <= j < k :: !(updates[j].change.Delete? && updates[j].expected.None?)
      {
        if updates[k].change.Delete? && updates[k].expected.None? {
          return InvalidInput;
        }
      }
      if fault.GitUnavailable? {
        return Unavailable;
      }
      if fault.StallsBeforeCommit? {
        return TimedOut;
      }
      var conflict := false;
      for k := 0 to |updates|
        invariant !fault.InspectionFails? || k == 0
        invariant forall j | 0 <= j < k :: updates[j].name !in symbolic
        invariant conflict <==> exists j | 0 <= j < k :: Lookup(refs, updates[j].name) != updates[j].expected
      {
        if fault.InspectionFails? {
          return InspectionFailed;
        }
        if updates[k].name in symbolic {
          return Symbolic;
        }
        if Lookup(refs, updates[k].name) != updates[k].expected {
          conflict := true;
        }
      }
      if conflict {
        return Conflict;
      }
      if fault.PrepareRefused? {
        return PersistenceFailed;
      }
      if fault.CommitRaises? {
        outcome := if fault.timedOut then TimedOut else PersistenceFailed;
        if !fault.landed {
          return;
        }
      } else {
        outcome := Committed;
      }
      ghost var before := refs;
      for k := 0 to |updates|
        invariant WriteAll(refs, updates[k..]) == WriteAll(before, updates)
      {
        assert updates[k..][0] == updates[k] && updates[k..][1..] == updates[k + 1..];
        refs := Write(refs, updates[k]);
      }
      assert updates[|updates|..] == [];
    }
  }
}
