/** One device and the delivery plane it polls, interleaved at every rename and crashing anywhere. */
module Registrant {
  import opened A2aDoc
  import opened Slots
  import opened Bundles
  import Delivery
  import opened IdentityStore

  /** A bundle being applied, and how many of its renames are done. */
  datatype Job = Job(bundle: IdentityBundle, done: nat)

  /**
   * `hist` records every bundle stored for this device.  `local` is the watcher's version, None while
   * no watcher runs; `applying` is the apply in progress.
   */
  datatype System = System(
    d: Delivery.Uuid, plane: Delivery.Plane, hist: seq<IdentityBundle>,
    disk: Disk, applying: Option<Job>, local: Option<nat>)

  datatype Event =
    | Registrar(e: Delivery.Event)
    | Receive(now: int)
    | WriteNext
    | Boot
    | Crash
    | LoseMarker

  /**
   * Receive is a bootstrap call of this device: on a first boot, or when its poll saw a version above
   * its own.  The hypothesis on rotations is that no bundle names a file like the store's own two.
   */
  predicate Enabled(s: System, x: Event) {
    match x
    case Registrar(e) => Delivery.IsRotation(s.plane, e, s.d) ==> Clean(NextBundle(Delivery.Current(s.plane, s.d), e.input).value)
    case Receive(now) => s.applying.None? && (if s.local.None? then ReadBundle(s.disk).None? else Delivery.VersionOf(s.plane, s.d) > s.local.value)
    case WriteNext => s.applying.Some? && s.applying.value.done < |Writes(s.applying.value.bundle)|
    case Boot => s.local.None? && s.applying.None? && ReadBundle(s.disk).Some?
    case Crash => true
    case LoseMarker => s.local.None? && s.applying.None?
  }

  function Do(s: System, x: Event): System
    requires Enabled(s, x)
  {
    match x
    case Registrar(e) =>
      s.(plane := Delivery.Step(s.plane, e),
         hist := if Delivery.IsRotation(s.plane, e, s.d) then s.hist + [NextBundle(Delivery.Current(s.plane, s.d), e.input).value] else s.hist)
    case Receive(now) =>
      var (p, reply) := Delivery.Bootstrapped(s.plane, s.d, now);
      s.(plane := p, applying := if reply.Delivered? then Some(Job(reply.bundle, 0)) else None)
    case WriteNext =>
      var j := s.applying.value;
      var disk := WriteOne(s.disk, j.bundle, j.done);
      if j.done + 1 < |Writes(j.bundle)| then s.(disk := disk, applying := Some(j.(done := j.done + 1)))
      else s.(disk := disk, applying := None, local := Some(j.bundle.version))
    case Boot =>
      var b := ReadBundle(s.disk).value;
      if IsReady(s.disk) then s.(local := Some(b.version)) else s.(applying := Some(Job(b, 0)))
    case Crash => s.(applying := None, local := None)
    case LoseMarker => s.(disk := s.disk - {READY_MARKER})
  }

  predicate IsRun(s: System, es: seq<Event>)
    decreases |es|
  {
    es == [] || (Enabled(s, es[0]) && IsRun(Do(s, es[0]), es[1..]))
  }

  function After(s: System, es: seq<Event>): System
    requires IsRun(s, es)
    decreases |es|
  {
    if es == [] then s else After(Do(s, es[0]), es[1..])
  }

  // ---------------------------------------------------------------------- invariant

  ghost predicate PlaneSide(s: System) {
    Delivery.PlaneOk(s.plane) && HistoryOk(s.hist) && Delivery.VersionOf(s.plane, s.d) == |s.hist| &&
    (s.d in s.plane.blobs ==> |s.hist| > 0 && s.plane.blobs[s.d].bundle == s.hist[|s.hist| - 1])
  }

  predicate JobOk(s: System, j: Job) {
    1 <= j.bundle.version <= |s.hist| && j.bundle == s.hist[j.bundle.version - 1] && j.done < |Writes(j.bundle)| &&
    SnapshotVersion(s.disk) <= j.bundle.version && (j.done > |j.bundle.files| ==> SnapshotVersion(s.disk) == j.bundle.version) &&
    Holds(s.disk, j.bundle, if j.done < |j.bundle.files| then j.done else |j.bundle.files|)
  }

  ghost predicate SystemOk(s: System) {
    PlaneSide(s) && CrashSafe(s.disk, s.hist) &&
    (s.applying.Some? ==> JobOk(s, s.applying.value)) &&
    (s.local.Some? ==> 1 <= s.local.value <= SnapshotVersion(s.disk)) &&
    (s.local.Some? && s.applying.None? ==> s.local.value == SnapshotVersion(s.disk))
  }

  lemma MoreHistory(disk: Disk, hist: seq<IdentityBundle>, more: seq<IdentityBundle>)
    requires CrashSafe(disk, hist) && hist <= more
    ensures CrashSafe(disk, more)
  {
    forall p | p in disk && p != BUNDLE_FILE && p != READY_MARKER ensures FromVersion(more, p, disk[p]) {
      assert FromVersion(hist, p, disk[p]);
    }
  }

  lemma RegistrarKeeps(s: System, e: Delivery.Event)
    requires SystemOk(s) && Enabled(s, Registrar(e))
    ensures SystemOk(Do(s, Registrar(e)))
  {
    hide CrashSafe, NextBundle, Delivery.PlaneOk, Delivery.Bootstrapped;
    var g := Do(s, Registrar(e));
    Delivery.StepKeepsPlane(s.plane, e);
    Delivery.VersionStep(s.plane, e, s.d);
    assert Delivery.DeviceOk(s.plane, s.d) by { PlaneDevice(s.plane, s.d); }
    if e.Rotate? && e.d == s.d { Delivery.NextIsNumbered(Delivery.Current(s.plane, s.d), e.input); }
    assert PlaneSide(g) by { BlobAfter(s.plane, e, s.d); }
    MoreHistory(s.disk, s.hist, g.hist);
  }

  lemma PlaneDevice(p: Delivery.Plane, d: Delivery.Uuid)
    requires Delivery.PlaneOk(p)
    ensures Delivery.DeviceOk(p, d)
  {
  }

  /** Only an effective rotation of d changes what is stored for d. */
  lemma BlobAfter(p: Delivery.Plane, e: Delivery.Event, d: Delivery.Uuid)
    ensures var g := Delivery.Step(p, e);
            if Delivery.IsRotation(p, e, d) then d in g.blobs && g.blobs[d].bundle == NextBundle(Delivery.Current(p, d), e.input).value
            else (d in g.blobs <==> d in p.blobs) && (d in p.blobs ==> g.blobs[d] == p.blobs[d])
  {
    hide NextBundle;
  }

  lemma ReceiveKeeps(s: System, now: int)
    requires SystemOk(s) && Enabled(s, Receive(now))
    ensures SystemOk(Do(s, Receive(now)))
  {
    hide CrashSafe, HistoryOk, Delivery.PlaneOk;
    Delivery.StepKeepsPlane(s.plane, Delivery.Bootstrap(s.d, now));
    PlaneDevice(s.plane, s.d);
    SnapshotBound(s.disk, s.hist);
  }

  lemma SnapshotBound(disk: Disk, hist: seq<IdentityBundle>)
    requires CrashSafe(disk, hist)
    ensures SnapshotVersion(disk) <= |hist|
  {
  }

  lemma WriteNextKeeps(s: System)
    requires SystemOk(s) && Enabled(s, WriteNext)
    ensures SystemOk(Do(s, WriteNext)) && SnapshotVersion(s.disk) <= SnapshotVersion(Do(s, WriteNext).disk)
  {
    hide CrashSafe, HistoryOk, WriteOne, Delivery.PlaneOk;
    var j := s.applying.value;
    WriteKeeps(s.disk, s.hist, j.bundle, j.done);
  }

  lemma BootKeeps(s: System)
    requires SystemOk(s) && Enabled(s, Boot)
    ensures SystemOk(Do(s, Boot))
  {
    assert ReadBundle(s.disk).value.version == SnapshotVersion(s.disk);
  }

  /** Every event keeps the invariant, and no event takes the snapshot back. */
  lemma EventKeeps(s: System, x: Event)
    requires SystemOk(s) && Enabled(s, x)
    ensures SystemOk(Do(s, x)) && SnapshotVersion(s.disk) <= SnapshotVersion(Do(s, x).disk)
  {
    match x
    case Registrar(e) => RegistrarKeeps(s, e);
    case Receive(now) => ReceiveKeeps(s, now);
    case WriteNext => WriteNextKeeps(s);
    case Boot => BootKeeps(s);
    case Crash =>
    case LoseMarker => assert READY_MARKER != BUNDLE_FILE;
  }

  lemma DeviceFacts(s: System)
    requires SystemOk(s)
    ensures SnapshotVersion(s.disk) <= Delivery.VersionOf(s.plane, s.d)
    ensures IsReady(s.disk) ==> ReadBundle(s.disk).Some?
  {
    if IsReady(s.disk) { ReadyMeansParseable(s.disk, s.hist); }
  }

  /** What holds of a device in every state of every run, whatever crashed in between. */
  lemma {:induction false} DeviceRun(s: System, es: seq<Event>)
    requires SystemOk(s) && IsRun(s, es)
    ensures var g := After(s, es);
            SystemOk(g) && SnapshotVersion(s.disk) <= SnapshotVersion(g.disk) <= Delivery.VersionOf(g.plane, g.d) &&
            (g.local.Some? ==> g.local.value <= SnapshotVersion(g.disk)) &&
            (IsReady(g.disk) ==> ReadBundle(g.disk).Some?)
    decreases |es|
  {
    hide CrashSafe, PlaneSide;
    if es == [] {
      DeviceFacts(s);
    } else {
      EventKeeps(s, es[0]);
      DeviceRun(Do(s, es[0]), es[1..]);
    }
  }

  // -------------------------------------------------------------------- convergence

  lemma {:induction false} RunConcat(s: System, xs: seq<Event>, ys: seq<Event>)
    requires IsRun(s, xs) && IsRun(After(s, xs), ys)
    ensures IsRun(s, xs + ys) && After(s, xs + ys) == After(After(s, xs), ys)
    decreases |xs|
  {
    if xs == [] {
      assert xs + ys == ys;
    } else {
      assert (xs + ys)[1..] == xs[1..] + ys;
      RunConcat(Do(s, xs[0]), xs[1..], ys);
    }
  }

  lemma OneEvent(s: System, x: Event)
    requires Enabled(s, x)
    ensures IsRun(s, [x]) && After(s, [x]) == Do(s, x) && Receives([x]) == if x.Receive? then 1 else 0
  {
    assert [x][1..] == [];
    assert IsRun(Do(s, x), []);
  }

  /** The device on its own: no registrar writes, no crash; `receives` bootstrap calls. */
  predicate OnItsOwn(es: seq<Event>, receives: nat) {
    (forall x :: x in es ==> x.Receive? || x.WriteNext? || x.Boot?) && Receives(es) <= receives
  }

  function Receives(es: seq<Event>): nat {
    if es == [] then 0 else (if es[0].Receive? then 1 else 0) + Receives(es[1..])
  }

  lemma {:induction false} ReceivesConcat(xs: seq<Event>, ys: seq<Event>)
    ensures Receives(xs + ys) == Receives(xs) + Receives(ys)
  {
    if xs == [] {
      assert xs + ys == ys;
    } else {
      assert (xs + ys)[1..] == xs[1..] + ys;
      ReceivesConcat(xs[1..], ys);
    }
  }

  /** Same registrar side, same device. */
  predicate SameBundles(s: System, g: System) {
    g.d == s.d && g.hist == s.hist && g.plane.blobs == s.plane.blobs
  }

  lemma {:induction false} FinishApply(s: System) returns (es: seq<Event>)
    requires SystemOk(s) && s.applying.Some?
    ensures IsRun(s, es) && OnItsOwn(es, 0)
    ensures var g := After(s, es);
            SystemOk(g) && g.plane == s.plane && SameBundles(s, g) && g.applying.None? && g.local == Some(s.applying.value.bundle.version)
    decreases |Writes(s.applying.value.bundle)| - s.applying.value.done
  {
    hide SystemOk, WriteOne;
    assert JobOk(s, s.applying.value) by { JobFacts(s); }
    var g := Do(s, WriteNext);
    EventKeeps(s, WriteNext);
    OneEvent(s, WriteNext);
    if g.applying.None? {
      es := [WriteNext];
    } else {
      var rest := FinishApply(g);
      RunConcat(s, [WriteNext], rest);
      ReceivesConcat([WriteNext], rest);
      es := [WriteNext] + rest;
    }
  }

  lemma JobFacts(s: System)
    requires SystemOk(s) && s.applying.Some?
    ensures JobOk(s, s.applying.value)
  {
  }

  /** At most two bootstrap calls, and the second one delivers the stored bundle. */
  lemma ReceiveDelivers(s: System, now: int) returns (es: seq<Event>)
    requires SystemOk(s) && Enabled(s, Receive(now)) && s.d in s.plane.blobs
    ensures IsRun(s, es) && OnItsOwn(es, 2)
    ensures var g := After(s, es);
            SystemOk(g) && SameBundles(s, g) && g.applying.Some? && g.applying.value.bundle.version == Delivery.VersionOf(s.plane, s.d)
  {
    hide SystemOk, Delivery.Bootstrapped, Delivery.DeviceOk;
    StoredSlot(s);
    var slot := s.plane.slots[s.d];
    OneEvent(s, Receive(now));
    if ConsumeSlot(slot, now).Some? {
      Delivers(s, now);
      es := [Receive(now)];
    } else {
      RetryAfterExact(slot, now);
      var later := now + 1000 * RetryAfterSeconds(ReadSlot(slot), now).value;
      RefusedChangesNothing(s, now);
      OneEvent(s, Receive(later));
      Delivers(s, later);
      RunConcat(s, [Receive(now)], [Receive(later)]);
      ReceivesConcat([Receive(now)], [Receive(later)]);
      es := [Receive(now)] + [Receive(later)];
    }
  }

  lemma Delivers(s: System, now: int)
    requires SystemOk(s) && Enabled(s, Receive(now)) && s.d in s.plane.blobs && s.d in s.plane.slots
    requires ConsumeSlot(s.plane.slots[s.d], now).Some?
    ensures var g := Do(s, Receive(now));
            SystemOk(g) && SameBundles(s, g) && g.applying.Some? && g.applying.value.bundle.version == Delivery.VersionOf(s.plane, s.d)
  {
    hide SystemOk, Delivery.Bootstrapped;
    StoredSlot(s);
    EventKeeps(s, Receive(now));
    Delivery.AvailableDelivers(s.plane, s.d, now);
  }

  lemma RefusedChangesNothing(s: System, now: int)
    requires Enabled(s, Receive(now)) && s.d in s.plane.slots && ConsumeSlot(s.plane.slots[s.d], now).None?
    ensures Do(s, Receive(now)) == s
  {
  }

  /** What a stored bundle comes with. */
  lemma StoredSlot(s: System)
    requires SystemOk(s) && s.d in s.plane.blobs
    ensures Delivery.PlaneOk(s.plane) && s.d in s.plane.slots && SlotOk(s.plane.slots[s.d])
    ensures s.plane.blobs[s.d].version == s.plane.blobs[s.d].bundle.version == Delivery.VersionOf(s.plane, s.d) == |s.hist| > 0
  {
    PlaneDevice(s.plane, s.d);
  }

  /** An idle watcher, or a first boot: one poll brings it to the registrar's version. */
  lemma PollCatchesUp(s: System, now: int) returns (es: seq<Event>)
    requires SystemOk(s) && s.d in s.plane.blobs && s.applying.None? && (s.local.None? ==> ReadBundle(s.disk).None?)
    ensures IsRun(s, es) && OnItsOwn(es, 2)
    ensures var g := After(s, es); SameBundles(s, g) && g.applying.None? && g.local == Some(Delivery.VersionOf(s.plane, s.d))
  {
    hide SystemOk;
    StoredSlot(s);
    if s.local.Some? && Delivery.VersionOf(s.plane, s.d) <= s.local.value {
      UpToDate(s);
      es := [];
    } else {
      var xs := ReceiveDelivers(s, now);
      var ys := FinishApply(After(s, xs));
      RunConcat(s, xs, ys);
      ReceivesConcat(xs, ys);
      es := xs + ys;
    }
  }

  lemma UpToDate(s: System)
    requires SystemOk(s) && s.local.Some?
    ensures s.local.value <= Delivery.VersionOf(s.plane, s.d)
  {
    DeviceFacts(s);
  }

  /** The device is back at its watch loop, or at a first boot with nothing on disk. */
  lemma Settle(s: System) returns (es: seq<Event>)
    requires SystemOk(s)
    ensures IsRun(s, es) && OnItsOwn(es, 0)
    ensures var g := After(s, es);
            SystemOk(g) && g.plane == s.plane && SameBundles(s, g) && g.applying.None? && (g.local.None? ==> ReadBundle(g.disk).None?)
  {
    hide SystemOk;
    if s.applying.Some? {
      es := FinishApply(s);
    } else if s.local.None? && ReadBundle(s.disk).Some? {
      OneEvent(s, Boot);
      EventKeeps(s, Boot);
      var g := Do(s, Boot);
      es := [Boot];
      if g.applying.Some? {
        var rest := FinishApply(g);
        RunConcat(s, [Boot], rest);
        ReceivesConcat([Boot], rest);
        es := [Boot] + rest;
      }
    } else {
      es := [];
    }
  }

  /**
   * Convergence.  From any reachable state, a crash in the middle of an apply included, once nobody else
   * acts the device reaches the registrar's version with at most two bootstrap calls.
   */
  lemma Converges(s: System, now: int) returns (es: seq<Event>)
    requires SystemOk(s) && s.d in s.plane.blobs
    ensures IsRun(s, es) && OnItsOwn(es, 2)
    ensures var g := After(s, es);
            g.plane.blobs == s.plane.blobs && g.applying.None? && g.local == Some(Delivery.VersionOf(g.plane, g.d))
  {
    hide SystemOk;
    var xs := Settle(s);
    var ys := PollCatchesUp(After(s, xs), now);
    RunConcat(s, xs, ys);
    ReceivesConcat(xs, ys);
    es := xs + ys;
  }

  // ------------------------------------------------------------- every run of its own

  /** The device's own events: everything but the registrar's acts, crashes and a lost marker. */
  predicate Own(x: Event) { x.Receive? || x.WriteNext? || x.Boot? }

  /** Nothing in progress, and the watcher's version is the registrar's. */
  predicate Level(s: System) { s.applying.None? && s.local == Some(Delivery.VersionOf(s.plane, s.d)) }

  /** From version v: one delivering bootstrap call and the renames of the stored bundle, if it is newer. */
  function CatchUp(s: System, v: nat): nat {
    if v < Delivery.VersionOf(s.plane, s.d) && s.d in s.plane.blobs then 1 + |Writes(s.plane.blobs[s.d].bundle)| else 0
  }

  /** The number of effective events between here and being level. */
  function Distance(s: System): nat {
    match s.applying
    case Some(j) => (if j.done <= |Writes(j.bundle)| then |Writes(j.bundle)| - j.done else 0) + CatchUp(s, j.bundle.version)
    case None =>
      match s.local
      case Some(v) => CatchUp(s, v)
      case None =>
        match ReadBundle(s.disk)
        case Some(b) => 1 + (if IsReady(s.disk) then 0 else |Writes(b)|) + CatchUp(s, b.version)
        case None => CatchUp(s, 0)
  }

  /** The events of a run that change the system; the others are bootstrap calls answered 429. */
  function Effective(s: System, es: seq<Event>): nat
    requires IsRun(s, es)
    decreases |es|
  {
    if es == [] then 0 else (if Do(s, es[0]) == s then 0 else 1) + Effective(Do(s, es[0]), es[1..])
  }

  lemma OwnWrite(s: System)
    requires SystemOk(s) && s.d in s.plane.blobs && Enabled(s, WriteNext)
    ensures Distance(Do(s, WriteNext)) + 1 == Distance(s) && Do(s, WriteNext) != s
    ensures SameBundles(s, Do(s, WriteNext))
  {
    hide SystemOk, WriteOne;
  }

  lemma OwnBoot(s: System)
    requires SystemOk(s) && s.d in s.plane.blobs && Enabled(s, Boot)
    ensures Distance(Do(s, Boot)) + 1 == Distance(s) && Do(s, Boot) != s
    ensures SameBundles(s, Do(s, Boot))
  {
    hide SystemOk;
  }

  lemma OwnReceive(s: System, now: int)
    requires SystemOk(s) && s.d in s.plane.blobs && Enabled(s, Receive(now))
    ensures var g := Do(s, Receive(now));
            SameBundles(s, g) && if g == s then ConsumeSlot(s.plane.slots[s.d], now).None? else Distance(g) + 1 == Distance(s)
  {
    hide SystemOk, Delivery.Bootstrapped, Delivery.DeviceOk;
    StoredSlot(s);
    if ConsumeSlot(s.plane.slots[s.d], now).Some? {
      DeliversStored(s, now);
    } else {
      RefusedChangesNothing(s, now);
    }
  }

  lemma DeliversStored(s: System, now: int)
    requires SystemOk(s) && Enabled(s, Receive(now)) && s.d in s.plane.blobs && s.d in s.plane.slots
    requires ConsumeSlot(s.plane.slots[s.d], now).Some?
    ensures var g := Do(s, Receive(now)); SameBundles(s, g) && g.applying == Some(Job(s.plane.blobs[s.d].bundle, 0)) && g.local == s.local
  {
    hide SystemOk, Delivery.Bootstrapped;
    StoredSlot(s);
    Delivery.AvailableDelivers(s.plane, s.d, now);
  }

  /** Each event of the device's own brings it exactly one step nearer, unless it is a refused call, which changes nothing. */
  lemma OwnStep(s: System, x: Event)
    requires SystemOk(s) && s.d in s.plane.blobs && Own(x) && Enabled(s, x)
    ensures var g := Do(s, x);
            SystemOk(g) && SameBundles(s, g) && if g == s then x.Receive? else Distance(g) + 1 == Distance(s)
  {
    hide SystemOk, Do, Distance;
    EventKeeps(s, x);
    match x
    case Receive(now) => OwnReceive(s, now);
    case WriteNext => OwnWrite(s);
    case Boot => OwnBoot(s);
  }

  /** Being level, being at distance nothing, and having no own event left to do are the same. */
  lemma LevelExactly(s: System)
    requires SystemOk(s) && s.d in s.plane.blobs
    ensures Level(s) <==> Distance(s) == 0
    ensures Level(s) <==> forall x :: Own(x) ==> !Enabled(s, x)
  {
    StoredSlot(s);
    DeviceFacts(s);
    hide CrashSafe, HistoryOk, Delivery.PlaneOk;
    if !Level(s) {
      if s.applying.Some? { assert Own(WriteNext) && Enabled(s, WriteNext); }
      else if s.local.None? && ReadBundle(s.disk).Some? { assert Own(Boot) && Enabled(s, Boot); }
      else { assert Own(Receive(0)) && Enabled(s, Receive(0)); }
    }
  }

  /** A refused call, made again after the wait the refusal named, is not refused. */
  lemma RefusedOnlyOnce(s: System, now: int)
    requires SystemOk(s) && s.d in s.plane.blobs && Enabled(s, Receive(now)) && Do(s, Receive(now)) == s
    ensures s.d in s.plane.slots && RetryAfterSeconds(ReadSlot(s.plane.slots[s.d]), now).Some?
    ensures var later := now + 1000 * RetryAfterSeconds(ReadSlot(s.plane.slots[s.d]), now).value;
            Enabled(s, Receive(later)) && Do(s, Receive(later)) != s
  {
    hide SystemOk, Delivery.Bootstrapped, Delivery.DeviceOk;
    StoredSlot(s);
    OwnReceive(s, now);
    RetryAfterExact(s.plane.slots[s.d], now);
    Delivers(s, now + 1000 * RetryAfterSeconds(ReadSlot(s.plane.slots[s.d]), now).value);
  }

  /**
   * Every run the device makes on its own, from any reachable state, has at most Distance(s) effective
   * events, and it has exactly that many if and only if it ends level with the registrar, which is if
   * and only if it cannot go on.
   */
  lemma {:induction false} EveryOwnRun(s: System, es: seq<Event>)
    requires SystemOk(s) && s.d in s.plane.blobs && IsRun(s, es) && forall x :: x in es ==> Own(x)
    ensures var g := After(s, es);
            SystemOk(g) && SameBundles(s, g) && Effective(s, es) + Distance(g) == Distance(s) &&
            (Level(g) <==> Effective(s, es) == Distance(s)) && (Level(g) <==> forall x :: Own(x) ==> !Enabled(g, x))
    decreases |es|
  {
    hide SystemOk, Do, Distance, Level, Enabled;
    if es == [] {
      LevelExactly(s);
    } else {
      assert es[0] in es;
      OwnStep(s, es[0]);
      EveryOwnRun(Do(s, es[0]), es[1..]);
    }
  }

  /** The resident process: the plane it calls and the volume it writes. */
  class Watcher {
    const d: Delivery.Uuid
    const plane: Delivery.DeliveryPlane
    const store: Store
    var localVersion: nat

    constructor (d: Delivery.Uuid, plane: Delivery.DeliveryPlane, store: Store, local: nat)
      ensures this.d == d && this.plane == plane && this.store == store && localVersion == local
    {
      this.d, this.plane, this.store, localVersion := d, plane, store, local;
    }

    /**
     * One round of watchForRotation.  On a healthy plane where nobody else bootstraps this device, it
     * ends level with whatever the registrar stores by then, and the volume holds exactly that bundle.
     */
    method WatchOnce(now: int, slack: nat -> nat, others: nat -> seq<Delivery.Event>) returns (rotated: bool)
      requires Delivery.PlaneOk(plane.State()) && d in plane.blobs && Delivery.Uncontended(others, d)
      modifies this`localVersion, plane`blobs, plane`slots, plane`delivered, plane`consumes, store
      ensures Delivery.PlaneOk(plane.State()) && d in plane.blobs
      ensures rotated == (old(Delivery.VersionOf(plane.State(), d)) > old(localVersion))
      ensures !rotated ==> localVersion == old(localVersion) && plane.State() == old(plane.State()) && store.disk == old(store.disk)
      ensures rotated ==> localVersion == Delivery.VersionOf(plane.State(), d)
      ensures rotated ==> store.disk == Applied(old(store.disk), plane.blobs[d].bundle, |Writes(plane.blobs[d].bundle)|)
    {
      var remote := plane.blobs[d].version;
      if remote <= localVersion { return false; }
      Delivery.SecondAttemptDelivers(plane.State(), d, now, slack, others);
      var got, _ := plane.BootstrapWithRetry(d, now, slack, others);
      var b := got.value;
      assert Delivery.DeviceOk(plane.State(), d);
      var _, _ := store.ApplyBundle(b, |b.files| + 2);
      localVersion := b.version;
      rotated := true;
    }
  }
}
