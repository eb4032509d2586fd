/**
 Admission: one operating-system lock per environment and Instance, held through a descriptor that exactly
 one handle owns.
 */
module Admission {
  import opened Common

  // ---------------------------------------------------------------- identities

  type Bytes = seq<int>

  const BASE := 256

  /** `len(encoded).to_bytes(4, "big")`. */
  function FourBytes(n: nat): Bytes {
    [n / BASE / BASE / BASE % BASE, n / BASE / BASE % BASE, n / BASE % BASE, n % BASE]
  }

  predicate Short(value: Bytes) {
    |value| < 4294967296
  }

  lemma FourBytesInjective(m: nat, n: nat)
    requires m < 4294967296 && n < 4294967296 && FourBytes(m) == FourBytes(n)
    ensures m == n
  {
    var a, b := FourBytes(m), FourBytes(n);
    assert a[0] == b[0] && a[1] == b[1] && a[2] == b[2] && a[3] == b[3];
    var k, l := m / BASE, n / BASE;
    assert m == BASE * k + a[3] && n == BASE * l + b[3];
    assert k == BASE * (k / BASE) + a[2] && l == BASE * (l / BASE) + b[2];
    assert k / BASE == BASE * (k / BASE / BASE) + a[1] && l / BASE == BASE * (l / BASE / BASE) + b[1];
    assert k / BASE / BASE < BASE && l / BASE / BASE < BASE;
  }

  /** The text that is hashed: every field behind its length. */
  function Framed(values: seq<Bytes>): Bytes {
    if values == [] then [] else FourBytes(|values[0]|) + values[0] + Framed(values[1..])
  }

  /** Different identities are hashed from different text, wherever the field boundaries fall. */
  lemma {:induction false} FramedInjective(a: seq<Bytes>, b: seq<Bytes>)
    requires (forall v | v in a :: Short(v)) && forall v | v in b :: Short(v)
    requires Framed(a) == Framed(b)
    ensures a == b
  {
    if a != [] && b != [] {
      var left, right := Framed(a), Framed(b);
      assert left[..4] == FourBytes(|a[0]|) && right[..4] == FourBytes(|b[0]|);
      assert a[0] in a && b[0] in b;
      FourBytesInjective(|a[0]|, |b[0]|);
      var n := 4 + |a[0]|;
      assert left[4..n] == a[0] && right[4..n] == b[0];
      assert left[n..] == Framed(a[1..]) && right[n..] == Framed(b[1..]);
      FramedInjective(a[1..], b[1..]);
      assert a == [a[0]] + a[1..] && b == [b[0]] + b[1..];
    }
  }

  // ---------------------------------------------------------------- the operating system

  /** Descriptor numbers are per process and reused after close. */
  datatype Fd = Fd(process: nat, number: nat)

  datatype System = System(files: map<Fd, string>, locks: map<string, Fd>)

  datatype AcquireFault = NoFault | OpenFails | LockFails | CloseAlsoFails

  datatype Attempt = Acquired | AlreadyRunning | RuntimeUnavailable | LockUnavailable

  /** Open the resource under a free number and try its lock once. */
  function Acquire(s: System, resource: string, fd: Fd, fault: AcquireFault): (Attempt, System) {
    if fault.OpenFails? then (RuntimeUnavailable, s)
    else if !fault.LockFails? && resource !in s.locks then
      (Acquired, System(s.files[fd := resource], s.locks[resource := fd]))
    else if fault.CloseAlsoFails? then (LockUnavailable, s.(files := s.files[fd := resource]))
    else (if fault.LockFails? then LockUnavailable else AlreadyRunning, s)
  }

  datatype ReleaseFault = Clean | UnlockFails | CloseFails(closed: bool)

  datatype Release = Released | NotOwner | ReleaseFailed

  /** Unlock, then close; the handle forgets its descriptor unless the unlock failed. */
  function Give(s: System, fd: Fd, fault: ReleaseFault): (Release, bool, System)
    requires fd in s.files
  {
    var unlocked := s.(locks := s.locks - {s.files[fd]});
    match fault
    case UnlockFails => (ReleaseFailed, true, s)
    case CloseFails(closed) => (ReleaseFailed, false, if closed then unlocked.(files := s.files - {fd}) else unlocked)
    case Clean => (Released, false, unlocked.(files := s.files - {fd}))
  }

  class OperatingSystem {
    var files: map<Fd, string>
    var locks: map<string, Fd>

    ghost function Now(): System
      reads this
    {
      System(files, locks)
    }

    /** `try_acquire_execution`, up to the handle. */
    method TryAcquire(resource: string, fd: Fd, fault: AcquireFault) returns (attempt: Attempt)
      requires fd !in files
      modifies this
      ensures (attempt, Now()) == Acquire(old(Now()), resource, fd, fault)
    {
      if fault.OpenFails? {
        return RuntimeUnavailable;
      }
      files := files[fd := resource];
      if !fault.LockFails? && resource !in locks {
        locks := locks[resource := fd];
        return Acquired;
      }
      if fault.CloseAlsoFails? {
        return LockUnavailable;
      }
      files := files - {fd};
      assert files == old(files);
      attempt := if fault.LockFails? then LockUnavailable else AlreadyRunning;
    }
  }

  /** The handle: its descriptor is all it has. */
  class ExecutionAdmission {
    const process: nat
    const resource: string
    var descriptor: Option<nat>

    constructor (process: nat, resource: string, number: nat)
      ensures this.process == process && this.resource == resource && descriptor == Some(number)
    {
      this.process, this.resource, descriptor := process, resource, Some(number);
    }

    /** `ExecutionAdmission.release`. */
    method Release(os: OperatingSystem, fault: ReleaseFault) returns (release: Release)
      requires descriptor.Some? ==> Fd(process, descriptor.value) in os.files
      modifies this`descriptor, os
      ensures if old(descriptor).None? then release.NotOwner? && os.Now() == old(os.Now()) && descriptor.None?
              else var (result, keeps, after) := Give(old(os.Now()), Fd(process, old(descriptor).value), fault);
                   release == result && os.Now() == after && descriptor == if keeps then old(descriptor) else None
    {
      if descriptor.None? {
        return NotOwner;
      }
      var fd := Fd(process, descriptor.value);
      if fault.UnlockFails? {
        return ReleaseFailed;
      }
      os.locks := os.locks - {os.files[fd]};
      if !fault.CloseFails? || fault.closed {
        os.files := os.files - {fd};
      }
      descriptor := None;
      release := if fault.Clean? then Released else ReleaseFailed;
    }
  }

  // ---------------------------------------------------------------- many handles

  datatype Handle = Handle(process: nat, resource: string, descriptor: Option<nat>)

  datatype World = World(system: System, handles: seq<Handle>)

  datatype Operation =
    | Acquiring(process: nat, resource: string, number: nat, fault: AcquireFault)
    | Releasing(handle: nat, releaseFault: ReleaseFault)
    | Exiting(process: nat)

  predicate Owns(h: Handle, s: System) {
    h.descriptor.Some? && var fd := Fd(h.process, h.descriptor.value);
    fd in s.files && s.files[fd] == h.resource && h.resource in s.locks && s.locks[h.resource] == fd
  }

  /** Every handle with a descriptor owns its lock. */
  ghost predicate AllOwn(w: World) {
    forall k | 0 <= k < |w.handles| && w.handles[k].descriptor.Some? :: Owns(w.handles[k], w.system)
  }

  ghost predicate NoSharing(w: World) {
    forall i, j | 0 <= i < j < |w.handles| && w.handles[i].descriptor.Some? && w.handles[j].descriptor.Some? ::
      Fd(w.handles[i].process, w.handles[i].descriptor.value) != Fd(w.handles[j].process, w.handles[j].descriptor.value)
  }

  ghost predicate HeldBySome(w: World, resource: string) {
    exists k | 0 <= k < |w.handles| :: w.handles[k].resource == resource && Owns(w.handles[k], w.system)
  }

  /** Handles own their locks, no two share a descriptor, and no lock is left without a handle. */
  ghost predicate Inv(w: World) {
    AllOwn(w) && NoSharing(w) && forall r | r in w.system.locks :: HeldBySome(w, r)
  }

  predicate Enabled(w: World, op: Operation) {
    match op
    case Acquiring(process, _, number, _) => Fd(process, number) !in w.system.files
    case Releasing(h, _) => h < |w.handles|
    case Exiting(_) => true
  }

  function Forget(handles: seq<Handle>, process: nat): (left: seq<Handle>)
    ensures |left| == |handles|
    ensures forall k | 0 <= k < |handles| ::
              left[k] == if handles[k].process == process then handles[k].(descriptor := None) else handles[k]
  {
    seq(|handles|, k requires 0 <= k < |handles| =>
      if handles[k].process == process then handles[k].(descriptor := None) else handles[k])
  }

  /** Process exit closes its descriptors, and closing gives up the locks held through them. */
  function Exit(s: System, process: nat): System {
    System(map fd | fd in s.files && fd.process != process :: s.files[fd],
           map r | r in s.locks && s.locks[r].process != process :: s.locks[r])
  }

  function Step(w: World, op: Operation): World
    requires Enabled(w, op)
  {
    match op
    case Acquiring(process, resource, number, fault) =>
      var (attempt, system) := Acquire(w.system, resource, Fd(process, number), fault);
      World(system, if attempt.Acquired? then w.handles + [Handle(process, resource, Some(number))] else w.handles)
    case Releasing(k, fault) =>
      var h := w.handles[k];
      if h.descriptor.None? || Fd(h.process, h.descriptor.value) !in w.system.files then w
      else
        var (_, keeps, system) := Give(w.system, Fd(h.process, h.descriptor.value), fault);
        World(system, if keeps then w.handles else w.handles[k := h.(descriptor := None)])
    case Exiting(process) => World(Exit(w.system, process), Forget(w.handles, process))
  }

  lemma StillHeld(w: World, after: World, resource: string, k: nat)
    requires k < |w.handles| && w.handles[k].resource == resource && Owns(w.handles[k], w.system)
    requires k < |after.handles| && after.handles[k] == w.handles[k] && Owns(after.handles[k], after.system)
    ensures HeldBySome(after, resource)
  {
  }

  lemma AcquireKeeps(w: World, process: nat, resource: string, number: nat, fault: AcquireFault)
    requires Inv(w) && Fd(process, number) !in w.system.files
    ensures Inv(Step(w, Acquiring(process, resource, number, fault)))
  {
    var after := Step(w, Acquiring(process, resource, number, fault));
    forall k | 0 <= k < |after.handles| && after.handles[k].descriptor.Some? ensures Owns(after.handles[k], after.system) {
      if k < |w.handles| {
        assert after.handles[k] == w.handles[k] && Owns(w.handles[k], w.system);
      }
    }
    assert NoSharing(after) by {
      assert forall k | 0 <= k < |w.handles| && w.handles[k].descriptor.Some? :: Owns(w.handles[k], w.system);
    }
    forall r | r in after.system.locks ensures HeldBySome(after, r) {
      if r in w.system.locks {
        assert HeldBySome(w, r);
        var k :| 0 <= k < |w.handles| && w.handles[k].resource == r && Owns(w.handles[k], w.system);
        StillHeld(w, after, r, k);
      } else {
        assert after.handles[|w.handles|].resource == r && Owns(after.handles[|w.handles|], after.system);
      }
    }
  }

  lemma ReleaseKeeps(w: World, h: nat, fault: ReleaseFault)
    requires Inv(w) && h < |w.handles|
    ensures Inv(Step(w, Releasing(h, fault)))
  {
    var after := Step(w, Releasing(h, fault));
    if w.handles[h].descriptor.Some? && !fault.UnlockFails? {
      assert Owns(w.handles[h], w.system);
      forall k | 0 <= k < |after.handles| && after.handles[k].descriptor.Some? ensures Owns(after.handles[k], after.system) {
        assert after.handles[k] == w.handles[k] && Owns(w.handles[k], w.system);
      }
      assert NoSharing(after);
      forall r | r in after.system.locks ensures HeldBySome(after, r) {
        assert HeldBySome(w, r);
        var k :| 0 <= k < |w.handles| && w.handles[k].resource == r && Owns(w.handles[k], w.system);
        StillHeld(w, after, r, k);
      }
    }
  }

  lemma ExitKeeps(w: World, process: nat)
    requires Inv(w)
    ensures Inv(Step(w, Exiting(process)))
  {
    var after := Step(w, Exiting(process));
    forall k | 0 <= k < |after.handles| && after.handles[k].descriptor.Some? ensures Owns(after.handles[k], after.system) {
      assert after.handles[k] == w.handles[k] && Owns(w.handles[k], w.system);
    }
    assert NoSharing(after);
    forall r | r in after.system.locks ensures HeldBySome(after, r) {
      assert HeldBySome(w, r);
      var k :| 0 <= k < |w.handles| && w.handles[k].resource == r && Owns(w.handles[k], w.system);
      StillHeld(w, after, r, k);
    }
  }

  /** All three kinds of operations keep the ownership of descriptors and locks consistent. */
  lemma OwnershipIsKept(w: World, op: Operation)
    requires Inv(w) && Enabled(w, op)
    ensures Inv(Step(w, op))
  {
    match op {
      case Acquiring(process, resource, number, fault) => AcquireKeeps(w, process, resource, number, fault);
      case Releasing(h, fault) => ReleaseKeeps(w, h, fault);
      case Exiting(process) => ExitKeeps(w, process);
    }
  }

  ghost predicate IsRun(ws: seq<World>, ops: seq<Operation>) {
    && |ws| == |ops| + 1 && ws[0] == World(System(map[], map[]), [])
    && forall k | 0 <= k < |ops| :: Enabled(ws[k], ops[k]) && ws[k + 1] == Step(ws[k], ops[k])
  }

  lemma {:induction false} RunKeepsOwnership(ws: seq<World>, ops: seq<Operation>, k: nat)
    requires IsRun(ws, ops) && k < |ws|
    ensures Inv(ws[k])
  {
    if k > 0 {
      RunKeepsOwnership(ws, ops, k - 1);
      OwnershipIsKept(ws[k - 1], ops[k - 1]);
    }
  }

  /** Over any run, per environment and Instance at most one handle owns admission. */
  lemma OneOwnerPerInstance(ws: seq<World>, ops: seq<Operation>, k: nat, i: nat, j: nat)
    requires IsRun(ws, ops) && k < |ws| && i < |ws[k].handles| && j < |ws[k].handles|
    requires ws[k].handles[i].descriptor.Some? && ws[k].handles[j].descriptor.Some?
    requires ws[k].handles[i].resource == ws[k].handles[j].resource
    ensures i == j
  {
    RunKeepsOwnership(ws, ops, k);
    assert Owns(ws[k].handles[i], ws[k].system) && Owns(ws[k].handles[j], ws[k].system);
  }

  /**
   A lock is lost only through its own handle or the end of its process. In particular releasing a handle
   that was released before frees nothing, even if the system has given its descriptor number to a later
   owner.
   */
  lemma OnlyTheOwnerFrees(ws: seq<World>, ops: seq<Operation>, k: nat, i: nat)
    requires IsRun(ws, ops) && k < |ops| && i < |ws[k].handles| && ws[k].handles[i].descriptor.Some?
    ensures i < |ws[k + 1].handles|
    ensures match ops[k]
            case Releasing(h, _) => h == i || Owns(ws[k + 1].handles[i], ws[k + 1].system)
            case Exiting(process) => process == ws[k].handles[i].process || Owns(ws[k + 1].handles[i], ws[k + 1].system)
            case Acquiring(_, _, _, _) => Owns(ws[k + 1].handles[i], ws[k + 1].system)
  {
    RunKeepsOwnership(ws, ops, k);
    OwnershipIsKept(ws[k], ops[k]);
    assert Owns(ws[k].handles[i], ws[k].system);
  }

  /** A handle without descriptor stays one. */
  lemma {:induction false} ReleasedStays(ws: seq<World>, ops: seq<Operation>, j: nat, k: nat, h: nat)
    requires IsRun(ws, ops) && j <= k < |ws| && h < |ws[j].handles| && ws[j].handles[h].descriptor.None?
    ensures h < |ws[k].handles| && ws[k].handles[h].descriptor.None?
    decreases k
  {
    if j < k {
      ReleasedStays(ws, ops, j, k - 1, h);
      assert ws[k] == Step(ws[k - 1], ops[k - 1]);
    }
  }

  /**
   A handle released once is inert for good: releasing it again at any later point of a run changes nothing,
   whoever owns the Instance or holds its old descriptor number by then.
   */
  lemma StaleReleaseIsIdle(ws: seq<World>, ops: seq<Operation>, j: nat, k: nat, h: nat)
    requires IsRun(ws, ops) && j < k < |ops| && ops[j].Releasing? && ops[j].handle == h && !ops[j].releaseFault.UnlockFails?
    requires ops[k].Releasing? && ops[k].handle == h
    ensures ws[k + 1] == ws[k]
  {
    RunKeepsOwnership(ws, ops, j);
    assert ws[j + 1] == Step(ws[j], ops[j]) && ws[k + 1] == Step(ws[k], ops[k]);
    assert ws[j].handles[h].descriptor.Some? ==> Owns(ws[j].handles[h], ws[j].system);
    ReleasedStays(ws, ops, j + 1, k, h);
  }

  /** Why an attempt fails, each report exactly when its reason holds; only success and a failed close leave a descriptor. */
  lemma AttemptTells(w: World, resource: string, fd: Fd, fault: AcquireFault)
    requires Inv(w) && fd !in w.system.files
    ensures var (attempt, after) := Acquire(w.system, resource, fd, fault);
            var owned := exists k | 0 <= k < |w.handles| :: w.handles[k].resource == resource && w.handles[k].descriptor.Some?;
            && (attempt.Acquired? <==> !owned && !fault.OpenFails? && !fault.LockFails?)
            && (attempt.AlreadyRunning? <==> owned && fault.NoFault?)
            && (attempt.RuntimeUnavailable? <==> fault.OpenFails?)
            && (fd in after.files <==> attempt.Acquired? || (owned && fault.CloseAlsoFails?))
            && (resource in after.locks <==> owned || attempt.Acquired?)
  {
    RefusedWhileOwned(w, resource, fd);
  }

  /** With a working system the attempt is refused exactly while somebody owns the Instance. */
  lemma RefusedWhileOwned(w: World, resource: string, fd: Fd)
    requires Inv(w) && fd !in w.system.files
    ensures Acquire(w.system, resource, fd, NoFault).0
            == if exists k | 0 <= k < |w.handles| :: w.handles[k].resource == resource && w.handles[k].descriptor.Some?
               then AlreadyRunning else Acquired
  {
    if resource in w.system.locks {
      assert HeldBySome(w, resource);
      var k :| 0 <= k < |w.handles| && w.handles[k].resource == resource && Owns(w.handles[k], w.system);
    }
    if k :| 0 <= k < |w.handles| && w.handles[k].resource == resource && w.handles[k].descriptor.Some? {
      assert Owns(w.handles[k], w.system);
    }
  }
}
