/**
 * The fleet's device actions are sound: every step of the crash-prone device process is a run of them,
 * and the fleet's idea of what is on the disk is what really is on it.
 */
module FleetDevice {
  import opened A2aDoc
  import opened Bundles
  import opened IdentityStore
  import Delivery
  import opened Registrant
  import Fleet
  import FleetSteps

  /** Nothing on the volume was written from a version above v. */
  ghost predicate NoNewer(disk: Disk, v: nat) {
    forall p :: p in disk && disk[p].Payload? ==> disk[p].at <= v
  }

  predicate AllDistinct(hist: seq<IdentityBundle>) {
    forall i :: 0 <= i < |hist| ==> Distinct(hist[i].files)
  }

  predicate NeverDrops(hist: seq<IdentityBundle>, path: string) {
    forall i, j :: 0 <= i <= j < |hist| ==> (Find(hist[i].files, path).Some? ==> Find(hist[j].files, path).Some?)
  }

  /** Bundles name each path once and never drop one of the two credential files again. */
  predicate Steady(hist: seq<IdentityBundle>) {
    AllDistinct(hist) && NeverDrops(hist, A2A_FILE) && NeverDrops(hist, ENV_FILE)
  }

  /** What the process adds to SystemOk as long as its marker is not lost in the middle of an apply. */
  ghost predicate ProcessOk(s: System) {
    SystemOk(s) && Steady(s.hist) &&
    (s.local.Some? ==> IsReady(s.disk)) &&
    (!IsReady(s.disk) && BUNDLE_FILE in s.disk ==> NoNewer(s.disk, SnapshotVersion(s.disk))) &&
    (s.applying.Some? ==>
      NoNewer(s.disk, s.applying.value.bundle.version) &&
      (!IsReady(s.disk) && BUNDLE_FILE in s.disk ==> s.applying.value.bundle.version == SnapshotVersion(s.disk)))
  }

  // ------------------------------------------------------------------- the relation

  /** The file on disk is the one version `at` carried; none before the first apply. */
  predicate PathAt(disk: Disk, hist: seq<IdentityBundle>, path: string, at: nat) {
    at <= |hist| &&
    if at == 0 then path !in disk
    else
      var f := Find(hist[at - 1].files, path);
      (path in disk <==> f.Some?) && (f.Some? ==> disk[path] == Payload(f.value.content, f.value.base64, at))
  }

  /** An apply of the snapshot the device already has, because its marker is missing. */
  predicate Redo(s: System, j: Job) {
    s.local.None? && !IsReady(s.disk) && BUNDLE_FILE in s.disk && SnapshotVersion(s.disk) == j.bundle.version
  }

  predicate Written(j: Job, path: string) {
    exists i :: 0 <= i < j.done && i < |j.bundle.files| && j.bundle.files[i].path == path
  }

  predicate JobMatches(s: System, j: Job, v: Fleet.Device) {
    if v.fetched == 0 then Redo(s, j)
    else v.fetched == j.bundle.version && (Written(j, A2A_FILE) ==> v.a2aAt == v.fetched) && (Written(j, ENV_FILE) ==> v.envAt == v.fetched)
  }

  ghost predicate Matches(s: System, f: Fleet.Fleet, view: IdentityBundle -> Fleet.Bundle) {
    s.d in f.devices && s.d in f.history && |f.history[s.d]| == |s.hist| &&
    (forall i :: 0 <= i < |s.hist| ==> f.history[s.d][i] == view(s.hist[i])) &&
    DeviceMatches(s, f.devices[s.d])
  }

  predicate DeviceMatches(s: System, v: Fleet.Device) {
    v.snapAt == SnapshotVersion(s.disk) && PathAt(s.disk, s.hist, A2A_FILE, v.a2aAt) && PathAt(s.disk, s.hist, ENV_FILE, v.envAt) &&
    (s.local.Some? ==> v.localAt == s.local.value) &&
    (if s.applying.None? then v.fetched == 0 else JobMatches(s, s.applying.value, v))
  }

  // ------------------------------------------------------- fleet actions on one device

  function Moved(f: Fleet.Fleet, d: Agent, v: Fleet.Device): Fleet.Fleet { Fleet.SetDevice(f, d, v) }

  lemma NoStep(f: Fleet.Fleet, d: Agent)
    requires d in f.devices
    ensures Fleet.IsRun(f, []) && Fleet.After(f, []) == Moved(f, d, f.devices[d])
  {
    assert f.devices[d := f.devices[d]] == f.devices;
  }

  /** One more device action at the end of a run that so far moved only this device. */
  lemma {:induction false} ThenStep(f: Fleet.Fleet, d: Agent, xs: seq<Fleet.Action>, v: Fleet.Device, x: Fleet.Action, w: Fleet.Device)
    requires d in f.devices && Fleet.IsRun(f, xs) && Fleet.After(f, xs) == Moved(f, d, v)
    requires Fleet.Enabled(Moved(f, d, v), x) && Fleet.Do(Moved(f, d, v), x) == Moved(f, d, w)
    ensures Fleet.IsRun(f, xs + [x]) && Fleet.After(f, xs + [x]) == Moved(f, d, w)
    decreases |xs|
  {
    hide Fleet.Do, Fleet.Enabled;
    ConcatFleet(f, xs, x);
  }

  lemma {:induction false} ConcatFleet(f: Fleet.Fleet, xs: seq<Fleet.Action>, x: Fleet.Action)
    requires Fleet.IsRun(f, xs) && Fleet.Enabled(Fleet.After(f, xs), x)
    ensures Fleet.IsRun(f, xs + [x]) && Fleet.After(f, xs + [x]) == Fleet.Do(Fleet.After(f, xs), x)
    decreases |xs|
  {
    hide Fleet.Do, Fleet.Enabled;
    if xs == [] {
      assert xs + [x] == [x] && [x][1..] == [];
      assert Fleet.IsRun(Fleet.Do(f, x), []);
    } else {
      assert (xs + [x])[1..] == xs[1..] + [x];
      ConcatFleet(Fleet.Do(f, xs[0]), xs[1..], x);
    }
  }

  // -------------------------------------------------------------- the process's own facts

  lemma FindIs(files: seq<File>, i: nat)
    requires Distinct(files) && i < |files|
    ensures Find(files, files[i].path) == Some(files[i])
  {
    FirstFind(files, i);
  }

  lemma {:induction false} FirstFind(files: seq<File>, i: nat)
    requires i < |files| && forall k :: 0 <= k < i ==> files[k].path != files[i].path
    ensures Find(files, files[i].path) == Some(files[i])
  {
    if i > 0 { FirstFind(files[1..], i - 1); }
  }

  lemma HeldFile(disk: Disk, hist: seq<IdentityBundle>, b: IdentityBundle, i: nat)
    requires CrashSafe(disk, hist) && Clean(b) && Distinct(b.files) && NoNewer(disk, b.version) && i < |b.files|
    requires BUNDLE_FILE in disk && disk[BUNDLE_FILE] == Snapshot(b) && 1 <= b.version <= |hist| && hist[b.version - 1] == b
    ensures var f := b.files[i]; f.path in disk && disk[f.path] == Payload(f.content, f.base64, b.version)
  {
    var f := b.files[i];
    assert f in b.files && f.path != BUNDLE_FILE && f.path != READY_MARKER;
    assert Holds(disk, b, |b.files|);
    var e := disk[f.path];
    assert FromVersion(hist, f.path, e) && e.at == b.version;
    var k :| 0 <= k < |b.files| && b.files[k] == File(f.path, e.content, e.base64);
    assert k == i;
  }

  /** The snapshot a process may apply again. */
  lemma SnapshotFacts(s: System)
    requires ProcessOk(s) && BUNDLE_FILE in s.disk
    ensures var v := SnapshotVersion(s.disk);
            1 <= v <= |s.hist| && s.disk[BUNDLE_FILE] == Snapshot(s.hist[v - 1]) && s.hist[v - 1].version == v &&
            Clean(s.hist[v - 1]) && Distinct(s.hist[v - 1].files) && CrashSafe(s.disk, s.hist)
  {
    hide BundleOk, NeverDrops, PlaneSide, Holds, NoNewer, JobOk;
    assert HistoryOk(s.hist) by { HistoryOf(s); }
  }

  lemma HistoryOf(s: System)
    requires SystemOk(s)
    ensures HistoryOk(s.hist)
  {
  }

  /** Applying the snapshot again rewrites what is already there. */
  lemma RedoChangesNothing(s: System, j: Job)
    requires ProcessOk(s) && s.applying == Some(j) && Redo(s, j)
    ensures j.done < |Writes(j.bundle)|
    ensures WriteOne(s.disk, j.bundle, j.done) == if j.done <= |j.bundle.files| then s.disk else s.disk[READY_MARKER := Marker(j.bundle.version)]
  {
    hide ProcessOk, SystemOk, CrashSafe, PlaneSide, NoNewer, Clean, Distinct, Steady, Holds, HistoryOk, BundleOk;
    SnapshotFacts(s);
    JobIsClean(s);
    var b := j.bundle;
    if j.done < |b.files| {
      HeldFile(s.disk, s.hist, b, j.done);
      assert Writes(b)[j.done] == FileWrite(b, j.done);
      assert s.disk[b.files[j.done].path := s.disk[b.files[j.done].path]] == s.disk;
    } else if j.done == |b.files| {
      assert s.disk[BUNDLE_FILE := s.disk[BUNDLE_FILE]] == s.disk;
    }
  }

  /** Losing the marker while nothing on the volume is newer than the snapshot. */
  ghost predicate CleanLoss(s: System) {
    BUNDLE_FILE in s.disk ==> NoNewer(s.disk, SnapshotVersion(s.disk))
  }

  /** The process survives the loss of its marker exactly where no interrupted apply has left newer files. */
  lemma LoseMarkerExactly(s: System)
    requires ProcessOk(s) && Enabled(s, LoseMarker)
    ensures ProcessOk(Do(s, LoseMarker)) <==> CleanLoss(s)
  {
    EventKeeps(s, LoseMarker);
    assert READY_MARKER != BUNDLE_FILE;
    hide SystemOk, Steady;
    var g := Do(s, LoseMarker);
    assert SnapshotVersion(g.disk) == SnapshotVersion(s.disk);
    if NoNewer(g.disk, SnapshotVersion(s.disk)) {
      assert NotPayload(s) by { MarkerIsNoFile(s); }
      forall p | p in s.disk && s.disk[p].Payload? ensures s.disk[p].at <= SnapshotVersion(s.disk) { assert p in g.disk; }
    }
  }

  predicate NotPayload(s: System) { READY_MARKER in s.disk ==> !s.disk[READY_MARKER].Payload? }

  lemma MarkerIsNoFile(s: System)
    requires ProcessOk(s)
    ensures NotPayload(s)
  {
  }

  /** Where one has, the next boot applies the snapshot again and takes such a file back to the older version. */
  lemma LostMarkerGoesBack(s: System, i: nat) returns (es: seq<Event>)
    requires ProcessOk(s) && Enabled(s, LoseMarker) && BUNDLE_FILE in s.disk
    requires 1 <= SnapshotVersion(s.disk) <= |s.hist| && i < |s.hist[SnapshotVersion(s.disk) - 1].files|
    requires var path := s.hist[SnapshotVersion(s.disk) - 1].files[i].path;
             path in s.disk && s.disk[path].Payload? && s.disk[path].at > SnapshotVersion(s.disk)
    ensures IsRun(s, es)
    ensures var g := After(s, es); var path := s.hist[SnapshotVersion(s.disk) - 1].files[i].path;
            path in g.disk && g.disk[path].Payload? && g.disk[path].at == SnapshotVersion(s.disk)
  {
    hide ProcessOk, IsRun, After;
    var b := s.hist[SnapshotVersion(s.disk) - 1];
    SnapshotFacts(s);
    SnapshotReads(s);
    var lost := Do(s, LoseMarker);
    assert READY_MARKER != BUNDLE_FILE && ReadBundle(lost.disk) == Some(b);
    var booted := Do(lost, Boot);
    OneEvent(s, LoseMarker);
    OneEvent(lost, Boot);
    RunConcat(s, [LoseMarker], [Boot]);
    var ws := Writing(booted, b, i + 1);
    RunConcat(s, [LoseMarker] + [Boot], ws);
    es := [LoseMarker] + [Boot] + ws;
    assert Writes(b)[i] == FileWrite(b, i);
    assert Applied(booted.disk, b, i + 1) == WriteOne(Applied(booted.disk, b, i), b, i);
  }

  lemma SnapshotReads(s: System)
    requires ProcessOk(s) && BUNDLE_FILE in s.disk
    ensures var v := SnapshotVersion(s.disk); 1 <= v <= |s.hist| && ReadBundle(s.disk) == Some(s.hist[v - 1])
  {
    SnapshotFacts(s);
    hide CrashSafe, NoNewer, Steady;
    HistoryOf(s);
  }

  lemma {:induction false} Writing(s: System, b: IdentityBundle, k: nat) returns (es: seq<Event>)
    requires s.applying == Some(Job(b, 0)) && k <= |b.files|
    ensures IsRun(s, es) && After(s, es) == s.(disk := Applied(s.disk, b, k), applying := Some(Job(b, k)))
  {
    if k == 0 {
      es := [];
    } else {
      var before := Writing(s, b, k - 1);
      var g := After(s, before);
      OneEvent(g, WriteNext);
      RunConcat(s, before, [WriteNext]);
      es := before + [WriteNext];
    }
  }

  lemma ProcessKeeps(s: System, x: Event)
    requires ProcessOk(s) && Enabled(s, x) && !x.Registrar? && (x.LoseMarker? ==> CleanLoss(s))
    ensures ProcessOk(Do(s, x))
  {
    EventKeeps(s, x);
    var g := Do(s, x);
    match x
    case WriteNext => WriteKeepsProcess(s);
    case Receive(now) =>
      FromVersionBound(s);
      if g.applying.Some? { assert g.applying.value.bundle.version == |s.hist| by { ReceivedIsLast(s, now); } }
    case Boot =>
    case Crash =>
    case LoseMarker => LoseMarkerExactly(s);
  }

  lemma ReceivedIsLast(s: System, now: int)
    requires SystemOk(s) && Enabled(s, Receive(now))
    ensures Do(s, Receive(now)).applying.Some? ==> Do(s, Receive(now)).applying.value.bundle.version == |s.hist|
  {
    hide CrashSafe;
    PlaneDevice(s.plane, s.d);
  }

  lemma FromVersionBound(s: System)
    requires ProcessOk(s)
    ensures NoNewer(s.disk, |s.hist|)
  {
    forall p | p in s.disk && s.disk[p].Payload? ensures s.disk[p].at <= |s.hist| {
      assert FromVersion(s.hist, p, s.disk[p]);
    }
  }

  /** One rename seen from the marker and from the versions on disk. */
  lemma WriteEffects(disk: Disk, b: IdentityBundle, k: nat)
    requires k < |Writes(b)| && Clean(b) && NoNewer(disk, b.version)
    ensures var g := WriteOne(disk, b, k);
            NoNewer(g, b.version) && (IsReady(g) <==> IsReady(disk) || k > |b.files|) &&
            (k != |b.files| ==> (BUNDLE_FILE in g <==> BUNDLE_FILE in disk) && SnapshotVersion(g) == SnapshotVersion(disk)) &&
            (k == |b.files| ==> SnapshotVersion(g) == b.version)
  {
    assert READY_MARKER != BUNDLE_FILE;
    if k < |b.files| { assert b.files[k] in b.files && Writes(b)[k] == FileWrite(b, k); }
  }

  lemma JobIsClean(s: System)
    requires ProcessOk(s) && s.applying.Some?
    ensures Clean(s.applying.value.bundle) && NoNewer(s.disk, s.applying.value.bundle.version) && Distinct(s.applying.value.bundle.files)
    ensures JobOk(s, s.applying.value)
  {
    hide BundleOk;
  }

  /** A volume without a marker keeps nothing newer than its snapshot, whatever is written next. */
  lemma WriteKeepsProcess(s: System)
    requires ProcessOk(s) && Enabled(s, WriteNext) && SystemOk(Do(s, WriteNext))
    ensures ProcessOk(Do(s, WriteNext))
  {
    JobIsClean(s);
    hide CrashSafe, PlaneSide, NoNewer, Clean, Distinct, Steady, WriteOne, IsReady, Holds;
    var j := s.applying.value;
    WriteEffects(s.disk, j.bundle, j.done);
  }

  // --------------------------------------------------------------------- simulation

  lemma Received(s: System, now: int, v: Fleet.Device)
    requires ProcessOk(s) && Enabled(s, Receive(now)) && DeviceMatches(s, v)
    ensures var g := Do(s, Receive(now));
            if g.applying.Some? then |s.hist| > 0 && DeviceMatches(g, v.(fetched := |s.hist|)) else DeviceMatches(g, v)
  {
    hide PathAt, ProcessOk, CrashSafe, Steady, BundleOk;
    ReceivedFresh(s, now);
  }

  lemma ReceivedFresh(s: System, now: int)
    requires ProcessOk(s) && Enabled(s, Receive(now))
    ensures var g := Do(s, Receive(now));
            g.disk == s.disk && g.hist == s.hist && g.local == s.local && g.d == s.d &&
            (g.applying.Some? ==> |s.hist| > 0 && g.applying.value.bundle.version == |s.hist| && g.applying.value.done == 0)
  {
    hide CrashSafe, Steady, BundleOk, NoNewer;
    ReceivedIsLast(s, now);
    PlaneDevice(s.plane, s.d);
  }

  /** Files are renamed one by one; only the two credential files concern the fleet. */
  lemma WroteFile(s: System, v: Fleet.Device, path: string, at: nat)
    requires ProcessOk(s) && s.applying.Some? && (path == A2A_FILE || path == ENV_FILE) && PathAt(s.disk, s.hist, path, at)
    requires s.applying.value.done < |s.applying.value.bundle.files|
    ensures var j := s.applying.value; var g := WriteOne(s.disk, j.bundle, j.done);
            PathAt(g, s.hist, path, if j.bundle.files[j.done].path == path then j.bundle.version else at)
  {
    hide ProcessOk, SystemOk, CrashSafe, Steady, BundleOk, NoNewer, Holds, Clean;
    JobIsClean(s);
    var j := s.applying.value;
    FindIs(j.bundle.files, j.done);
    assert Writes(j.bundle)[j.done] == FileWrite(j.bundle, j.done);
  }

  /** A credential file that is not in the bundle is not on the disk either. */
  lemma NothingToWrite(s: System, path: string, at: nat)
    requires ProcessOk(s) && s.applying.Some? && (path == A2A_FILE || path == ENV_FILE) && PathAt(s.disk, s.hist, path, at)
    requires Find(s.applying.value.bundle.files, path).None?
    ensures PathAt(s.disk, s.hist, path, s.applying.value.bundle.version)
  {
    hide ProcessOk, SystemOk, CrashSafe, BundleOk, Holds, Clean, AllDistinct;
    JobIsClean(s);
    assert Steady(s.hist) by { SteadyOf(s); }
    var b := s.applying.value.bundle;
    assert s.hist[b.version - 1] == b;
    assert path !in s.disk;
  }

  lemma SteadyOf(s: System)
    requires ProcessOk(s)
    ensures Steady(s.hist)
  {
  }

  lemma WroteFiles(s: System, v: Fleet.Device)
    requires ProcessOk(s) && Enabled(s, WriteNext) && DeviceMatches(s, v) && v.fetched != 0
    requires s.applying.value.done < |s.applying.value.bundle.files|
    ensures var j := s.applying.value; var path := j.bundle.files[j.done].path; var g := Do(s, WriteNext);
            DeviceMatches(g, v.(a2aAt := if path == A2A_FILE then v.fetched else v.a2aAt,
                                envAt := if path == ENV_FILE then v.fetched else v.envAt))
  {
    hide ProcessOk, SystemOk, CrashSafe, Steady, BundleOk, NoNewer, Holds, PathAt, WriteOne;
    var j := s.applying.value;
    JobIsClean(s);
    WroteFile(s, v, A2A_FILE, v.a2aAt);
    WroteFile(s, v, ENV_FILE, v.envAt);
    WriteEffects(s.disk, j.bundle, j.done);
    var k := j.(done := j.done + 1);
    assert Written(k, A2A_FILE) ==> Written(j, A2A_FILE) || j.bundle.files[j.done].path == A2A_FILE;
    assert Written(k, ENV_FILE) ==> Written(j, ENV_FILE) || j.bundle.files[j.done].path == ENV_FILE;
  }

  lemma AllWritten(j: Job, path: string)
    requires j.done >= |j.bundle.files|
    ensures Written(j, path) <==> Find(j.bundle.files, path).Some?
  {
    if Find(j.bundle.files, path).Some? {
      var f := Find(j.bundle.files, path).value;
      var i :| 0 <= i < |j.bundle.files| && j.bundle.files[i] == f;
    }
  }

  lemma PathStays(disk: Disk, hist: seq<IdentityBundle>, b: IdentityBundle, k: nat, path: string, at: nat)
    requires PathAt(disk, hist, path, at) && (path == A2A_FILE || path == ENV_FILE) && |b.files| <= k < |Writes(b)|
    ensures PathAt(WriteOne(disk, b, k), hist, path, at)
  {
    assert A2A_FILE != BUNDLE_FILE && ENV_FILE != BUNDLE_FILE && A2A_FILE != READY_MARKER && ENV_FILE != READY_MARKER;
  }

  lemma WroteSnapshot(s: System, v: Fleet.Device)
    requires ProcessOk(s) && Enabled(s, WriteNext) && DeviceMatches(s, v) && v.fetched != 0
    requires s.applying.value.done == |s.applying.value.bundle.files|
    ensures DeviceMatches(Do(s, WriteNext), v.(a2aAt := v.fetched, envAt := v.fetched, snapAt := v.fetched))
  {
    hide ProcessOk, SystemOk, CrashSafe, Steady, BundleOk, NoNewer, Holds, PathAt, WriteOne;
    var j := s.applying.value;
    JobIsClean(s);
    AllWritten(j, A2A_FILE);
    AllWritten(j, ENV_FILE);
    if Find(j.bundle.files, A2A_FILE).None? { NothingToWrite(s, A2A_FILE, v.a2aAt); }
    if Find(j.bundle.files, ENV_FILE).None? { NothingToWrite(s, ENV_FILE, v.envAt); }
    PathStays(s.disk, s.hist, j.bundle, j.done, A2A_FILE, v.fetched);
    PathStays(s.disk, s.hist, j.bundle, j.done, ENV_FILE, v.fetched);
    WriteEffects(s.disk, j.bundle, j.done);
  }

  lemma WroteMarker(s: System, v: Fleet.Device)
    requires ProcessOk(s) && Enabled(s, WriteNext) && DeviceMatches(s, v) && v.fetched != 0
    requires s.applying.value.done > |s.applying.value.bundle.files|
    ensures v.snapAt == v.fetched && DeviceMatches(Do(s, WriteNext), v.(localAt := v.fetched, fetched := 0))
  {
    hide ProcessOk, SystemOk, CrashSafe, Steady, BundleOk, NoNewer, Holds, PathAt, WriteOne;
    var j := s.applying.value;
    JobIsClean(s);
    PathStays(s.disk, s.hist, j.bundle, j.done, A2A_FILE, v.a2aAt);
    PathStays(s.disk, s.hist, j.bundle, j.done, ENV_FILE, v.envAt);
    WriteEffects(s.disk, j.bundle, j.done);
  }

  lemma Redone(s: System, v: Fleet.Device)
    requires ProcessOk(s) && Enabled(s, WriteNext) && DeviceMatches(s, v) && v.fetched == 0
    ensures var g := Do(s, WriteNext); DeviceMatches(g, if g.applying.Some? then v else v.(localAt := v.snapAt))
  {
    hide ProcessOk, SystemOk, CrashSafe, Steady, BundleOk, NoNewer, Holds, PathAt, WriteOne;
    var j := s.applying.value;
    JobIsClean(s);
    RedoChangesNothing(s, j);
    if j.done >= |j.bundle.files| {
      PathStays(s.disk, s.hist, j.bundle, j.done, A2A_FILE, v.a2aAt);
      PathStays(s.disk, s.hist, j.bundle, j.done, ENV_FILE, v.envAt);
    }
    WriteEffects(s.disk, j.bundle, j.done);
  }

  /** Boot and crash: the fleet's reboot. */
  lemma Rebooted(s: System, x: Event, v: Fleet.Device)
    requires ProcessOk(s) && Enabled(s, x) && (x.Boot? || x.Crash?) && DeviceMatches(s, v)
    ensures DeviceMatches(Do(s, x), v.(localAt := v.snapAt, fetched := 0))
  {
    hide ProcessOk, CrashSafe, PathAt, BundleOk;
  }

  lemma DeviceSteps(f: Fleet.Fleet, d: Agent, v: Fleet.Device)
    requires d in f.devices
    ensures var m := Moved(f, d, v);
            Fleet.Enabled(m, Fleet.AReboot(d)) && Fleet.Do(m, Fleet.AReboot(d)) == Moved(f, d, v.(localAt := v.snapAt, fetched := 0)) &&
            (Fleet.Known(f, d) && v.fetched == 0 ==>
              Fleet.Enabled(m, Fleet.AFetch(d)) && Fleet.Do(m, Fleet.AFetch(d)) == Moved(f, d, v.(fetched := Fleet.Versions(f, d))))
  {
  }

  lemma WriteSteps(f: Fleet.Fleet, d: Agent, v: Fleet.Device)
    requires d in f.devices && v.fetched != 0
    ensures var m := Moved(f, d, v);
            Fleet.Enabled(m, Fleet.AWriteA2a(d)) && Fleet.Do(m, Fleet.AWriteA2a(d)) == Moved(f, d, v.(a2aAt := v.fetched)) &&
            Fleet.Enabled(m, Fleet.AWriteEnv(d)) && Fleet.Do(m, Fleet.AWriteEnv(d)) == Moved(f, d, v.(envAt := v.fetched))
  {
  }

  lemma LastSteps(f: Fleet.Fleet, d: Agent, v: Fleet.Device)
    requires d in f.devices && v.fetched != 0
    ensures var m := Moved(f, d, v);
            (v.a2aAt == v.envAt == v.fetched ==>
              Fleet.Enabled(m, Fleet.AWriteSnapshot(d)) && Fleet.Do(m, Fleet.AWriteSnapshot(d)) == Moved(f, d, v.(snapAt := v.fetched))) &&
            (v.snapAt == v.fetched ==>
              Fleet.Enabled(m, Fleet.AAdopt(d)) && Fleet.Do(m, Fleet.AAdopt(d)) == Moved(f, d, v.(localAt := v.fetched, fetched := 0)))
  {
  }

  /** The fleet's side of renaming the snapshot: both credential files are at the fetched version by then. */
  lemma SnapshotRun(f: Fleet.Fleet, d: Agent, v: Fleet.Device) returns (xs: seq<Fleet.Action>)
    requires d in f.devices && f.devices[d] == v && v.fetched != 0
    ensures xs == [Fleet.AWriteA2a(d), Fleet.AWriteEnv(d), Fleet.AWriteSnapshot(d)]
    ensures Fleet.IsRun(f, xs) && Fleet.After(f, xs) == Moved(f, d, v.(a2aAt := v.fetched, envAt := v.fetched, snapAt := v.fetched))
  {
    hide Fleet.IsRun, Fleet.After, Fleet.Enabled, Fleet.Do, Fleet.SetDevice;
    NoStep(f, d);
    var v1 := v.(a2aAt := v.fetched);
    var v2 := v1.(envAt := v.fetched);
    WriteSteps(f, d, v);
    WriteSteps(f, d, v1);
    LastSteps(f, d, v2);
    ThenStep(f, d, [], v, Fleet.AWriteA2a(d), v1);
    ThenStep(f, d, [] + [Fleet.AWriteA2a(d)], v1, Fleet.AWriteEnv(d), v2);
    ThenStep(f, d, [] + [Fleet.AWriteA2a(d)] + [Fleet.AWriteEnv(d)], v2, Fleet.AWriteSnapshot(d), v2.(snapAt := v.fetched));
    xs := [] + [Fleet.AWriteA2a(d)] + [Fleet.AWriteEnv(d)] + [Fleet.AWriteSnapshot(d)];
  }

  /** The fleet actions an event of the device amounts to, where the fleet has it at v. */
  function ActsOf(s: System, x: Event, v: Fleet.Device): seq<Fleet.Action>
    requires Enabled(s, x)
  {
    match x
    case Receive(_) => if Do(s, x).applying.Some? then [Fleet.AFetch(s.d)] else []
    case WriteNext =>
      var j := s.applying.value;
      if v.fetched == 0 then if Do(s, x).applying.None? then [Fleet.AReboot(s.d)] else []
      else if j.done < |j.bundle.files| then
        if j.bundle.files[j.done].path == A2A_FILE then [Fleet.AWriteA2a(s.d)]
        else if j.bundle.files[j.done].path == ENV_FILE then [Fleet.AWriteEnv(s.d)] else []
      else if j.done == |j.bundle.files| then [Fleet.AWriteA2a(s.d), Fleet.AWriteEnv(s.d), Fleet.AWriteSnapshot(s.d)]
      else [Fleet.AAdopt(s.d)]
    case Boot => [Fleet.AReboot(s.d)]
    case Crash => [Fleet.AReboot(s.d)]
    case Registrar(_) => []
    case LoseMarker => []
  }

  /** What the fleet does while the device writes its next file. */
  lemma WriteIsRun(s: System, f: Fleet.Fleet, view: IdentityBundle -> Fleet.Bundle) returns (xs: seq<Fleet.Action>, w: Fleet.Device)
    requires ProcessOk(s) && Enabled(s, WriteNext) && Matches(s, f, view)
    ensures xs == ActsOf(s, WriteNext, f.devices[s.d])
    ensures Fleet.IsRun(f, xs) && Fleet.After(f, xs) == Moved(f, s.d, w) && DeviceMatches(Do(s, WriteNext), w)
  {
    hide ProcessOk, DeviceMatches, Do, Fleet.IsRun, Fleet.After, Fleet.Enabled, Fleet.Do, Fleet.SetDevice;
    var v, d, j := f.devices[s.d], s.d, s.applying.value;
    NoStep(f, d);
    DeviceSteps(f, d, v);
    xs, w := [], v;
    if v.fetched == 0 {
      Redone(s, v);
      if Do(s, WriteNext).applying.None? {
        w := v.(localAt := v.snapAt);
        ThenStep(f, d, [], v, Fleet.AReboot(d), w);
        xs := [] + [Fleet.AReboot(d)];
      }
    } else if j.done < |j.bundle.files| {
      WroteFiles(s, v);
      WriteSteps(f, d, v);
      if j.bundle.files[j.done].path == A2A_FILE {
        w := v.(a2aAt := v.fetched);
        ThenStep(f, d, [], v, Fleet.AWriteA2a(d), w);
        xs := [] + [Fleet.AWriteA2a(d)];
      } else if j.bundle.files[j.done].path == ENV_FILE {
        w := v.(envAt := v.fetched);
        ThenStep(f, d, [], v, Fleet.AWriteEnv(d), w);
        xs := [] + [Fleet.AWriteEnv(d)];
      }
    } else if j.done == |j.bundle.files| {
      WroteSnapshot(s, v);
      w := v.(a2aAt := v.fetched, envAt := v.fetched, snapAt := v.fetched);
      xs := SnapshotRun(f, d, v);
    } else {
      WroteMarker(s, v);
      LastSteps(f, d, v);
      w := v.(localAt := v.fetched, fetched := 0);
      ThenStep(f, d, [], v, Fleet.AAdopt(d), w);
      xs := [] + [Fleet.AAdopt(d)];
    }
  }

  /**
   * Every step of the device process, at every point where it may crash, is a run of the fleet's device
   * actions: the disk, the snapshot and the reported version stay what the fleet says they are.
   */
  lemma EventIsRun(s: System, x: Event, f: Fleet.Fleet, view: IdentityBundle -> Fleet.Bundle) returns (xs: seq<Fleet.Action>)
    requires ProcessOk(s) && Enabled(s, x) && Matches(s, f, view) && !x.Registrar? && (x.LoseMarker? ==> CleanLoss(s))
    ensures xs == ActsOf(s, x, f.devices[s.d])
    ensures Fleet.IsRun(f, xs) && ProcessOk(Do(s, x)) && Matches(Do(s, x), Fleet.After(f, xs), view)
  {
    hide ProcessOk, DeviceMatches, Fleet.IsRun, Fleet.After, Fleet.Enabled, Fleet.Do;
    var v, d := f.devices[s.d], s.d;
    var w := v;
    ProcessKeeps(s, x);
    NoStep(f, d);
    DeviceSteps(f, d, v);
    xs := [];
    match x {
      case WriteNext => xs, w := WriteIsRun(s, f, view);
      case Receive(now) =>
        Received(s, now, v);
        ReceivedFresh(s, now);
        if Do(s, x).applying.Some? {
          w := v.(fetched := |s.hist|);
          Idle(s, v);
          ThenStep(f, d, [], v, Fleet.AFetch(d), w);
          xs := [] + [Fleet.AFetch(d)];
        }
      case Boot =>
        Rebooted(s, x, v);
        w := v.(localAt := v.snapAt, fetched := 0);
        ThenStep(f, d, [], v, Fleet.AReboot(d), w);
        xs := [] + [Fleet.AReboot(d)];
      case Crash =>
        Rebooted(s, x, v);
        w := v.(localAt := v.snapAt, fetched := 0);
        ThenStep(f, d, [], v, Fleet.AReboot(d), w);
        xs := [] + [Fleet.AReboot(d)];
      case LoseMarker => Unmarked(s, v);
    }
  }

  lemma Unmarked(s: System, v: Fleet.Device)
    requires Enabled(s, LoseMarker) && DeviceMatches(s, v)
    ensures DeviceMatches(Do(s, LoseMarker), v)
  {
    assert READY_MARKER != BUNDLE_FILE && READY_MARKER != A2A_FILE && READY_MARKER != ENV_FILE;
  }

  /** Every loss of the marker along a run is a clean one. */
  ghost predicate CleanLosses(s: System, es: seq<Event>)
    requires IsRun(s, es)
    decreases |es|
  {
    es == [] || ((es[0].LoseMarker? ==> CleanLoss(s)) && CleanLosses(Do(s, es[0]), es[1..]))
  }

  lemma Idle(s: System, v: Fleet.Device)
    requires DeviceMatches(s, v) && s.applying.None?
    ensures v.fetched == 0
  {
  }

  /** And so is every run of the process, whatever crashes in it. */
  lemma {:induction false} ProcessRun(s: System, es: seq<Event>, f: Fleet.Fleet, view: IdentityBundle -> Fleet.Bundle) returns (xs: seq<Fleet.Action>)
    requires ProcessOk(s) && IsRun(s, es) && Matches(s, f, view) && CleanLosses(s, es) && forall x :: x in es ==> !x.Registrar?
    ensures Fleet.IsRun(f, xs) && ProcessOk(After(s, es)) && Matches(After(s, es), Fleet.After(f, xs), view)
    decreases |es|
  {
    hide ProcessOk, Matches, Do, Fleet.Do, Fleet.Enabled, CleanLoss;
    if es == [] {
      xs := [];
    } else {
      assert es[0] in es;
      var us := EventIsRun(s, es[0], f, view);
      var vs := ProcessRun(Do(s, es[0]), es[1..], Fleet.After(f, us), view);
      FleetSteps.RunConcat(f, us, vs);
      xs := us + vs;
    }
  }

  /** A rotation of this device on the delivery plane is one more stored version of the fleet. */
  lemma RotationMatches(s: System, e: Delivery.Event, f: Fleet.Fleet, view: IdentityBundle -> Fleet.Bundle)
    requires ProcessOk(s) && Enabled(s, Registrar(e)) && Delivery.IsRotation(s.plane, e, s.d) && Matches(s, f, view)
    ensures var g := Do(s, Registrar(e));
            |g.hist| == |s.hist| + 1 && Matches(g, Fleet.Store(f, map[s.d := view(g.hist[|s.hist|])]), view)
  {
    hide ProcessOk, NextBundle;
  }

  // ---------------------------------------------------- runs with the registrar's events in them

  /** One event as the fleet sees it: a run of the device's actions, or one further version stored for it. */
  datatype Move = Acts(xs: seq<Fleet.Action>) | Stores(b: Fleet.Bundle)

  predicate CanMove(f: Fleet.Fleet, m: Move) { m.Acts? ==> Fleet.IsRun(f, m.xs) }

  function MoveOn(f: Fleet.Fleet, d: Agent, m: Move): Fleet.Fleet
    requires CanMove(f, m)
  {
    match m
    case Acts(xs) => Fleet.After(f, xs)
    case Stores(b) => Fleet.Store(f, map[d := b])
  }

  predicate AreMoves(f: Fleet.Fleet, d: Agent, ms: seq<Move>)
    decreases |ms|
  {
    ms == [] || (CanMove(f, ms[0]) && AreMoves(MoveOn(f, d, ms[0]), d, ms[1..]))
  }

  function MovedBy(f: Fleet.Fleet, d: Agent, ms: seq<Move>): Fleet.Fleet
    requires AreMoves(f, d, ms)
    decreases |ms|
  {
    if ms == [] then f else MovedBy(MoveOn(f, d, ms[0]), d, ms[1..])
  }

  /** The bundles stored along a list of moves, in order. */
  function StoredBy(ms: seq<Move>): seq<Fleet.Bundle> {
    if ms == [] then [] else (if ms[0].Stores? then [ms[0].b] else []) + StoredBy(ms[1..])
  }

  function Views(hist: seq<IdentityBundle>, view: IdentityBundle -> Fleet.Bundle): (r: seq<Fleet.Bundle>)
    ensures |r| == |hist| && forall i :: 0 <= i < |r| ==> r[i] == view(hist[i])
  {
    seq(|hist|, i requires 0 <= i < |hist| => view(hist[i]))
  }

  lemma SteadyPrefix(hist: seq<IdentityBundle>, more: seq<IdentityBundle>)
    requires Steady(more) && hist <= more
    ensures Steady(hist)
  {
    forall i, j, path | 0 <= i <= j < |hist| && NeverDrops(more, path) && Find(hist[i].files, path).Some?
      ensures Find(hist[j].files, path).Some?
    {
      assert hist[i] == more[i] && hist[j] == more[j];
    }
    forall i | 0 <= i < |hist| ensures Distinct(hist[i].files) { assert hist[i] == more[i]; }
  }

  lemma HistStep(s: System, x: Event)
    requires Enabled(s, x)
    ensures s.hist <= Do(s, x).hist && (!x.Registrar? ==> Do(s, x).hist == s.hist)
  {
    hide NextBundle, Delivery.Bootstrapped;
  }

  lemma {:induction false} HistGrows(s: System, es: seq<Event>)
    requires IsRun(s, es)
    ensures s.hist <= After(s, es).hist
    decreases |es|
  {
    hide Do, Enabled;
    if es != [] {
      HistStep(s, es[0]);
      HistGrows(Do(s, es[0]), es[1..]);
    }
  }

  /** The registrar's events leave the volume and the process alone. */
  lemma RegistrarKeepsProcess(s: System, e: Delivery.Event)
    requires ProcessOk(s) && Enabled(s, Registrar(e)) && Steady(Do(s, Registrar(e)).hist)
    ensures ProcessOk(Do(s, Registrar(e)))
  {
    EventKeeps(s, Registrar(e));
    hide SystemOk, Steady, NoNewer, NextBundle;
  }

  /** What is not a rotation of this device is nothing to the fleet. */
  lemma OtherRegistrarEvent(s: System, e: Delivery.Event, f: Fleet.Fleet, view: IdentityBundle -> Fleet.Bundle)
    requires Enabled(s, Registrar(e)) && !Delivery.IsRotation(s.plane, e, s.d) && Matches(s, f, view)
    ensures Do(s, Registrar(e)).hist == s.hist && Matches(Do(s, Registrar(e)), f, view)
  {
    hide NextBundle;
  }

  /** One event of either side as one move. */
  lemma EventIsMove(s: System, x: Event, f: Fleet.Fleet, view: IdentityBundle -> Fleet.Bundle) returns (m: Move)
    requires ProcessOk(s) && Enabled(s, x) && Matches(s, f, view) && (x.LoseMarker? ==> CleanLoss(s)) && Steady(Do(s, x).hist)
    ensures (m.Stores? ==> x.Registrar?) && CanMove(f, m) && ProcessOk(Do(s, x)) && Matches(Do(s, x), MoveOn(f, s.d, m), view)
    ensures Views(Do(s, x).hist, view) == Views(s.hist, view) + StoredBy([m])
  {
    hide ProcessOk, Steady, Matches, Fleet.IsRun, Fleet.After, NextBundle, CleanLoss;
    assert forall n: Move :: StoredBy([n]) == if n.Stores? then [n.b] else [] by {
      forall n: Move ensures StoredBy([n]) == if n.Stores? then [n.b] else [] { assert [n][1..] == []; }
    }
    if x.Registrar? {
      RegistrarKeepsProcess(s, x.e);
      if Delivery.IsRotation(s.plane, x.e, s.d) {
        RotationMatches(s, x.e, f, view);
        HistStep(s, x);
        m := Stores(view(Do(s, x).hist[|s.hist|]));
      } else {
        OtherRegistrarEvent(s, x.e, f, view);
        m := Acts([]);
        EmptyRun(f);
      }
    } else {
      var xs := EventIsRun(s, x, f, view);
      HistStep(s, x);
      m := Acts(xs);
    }
  }

  lemma EmptyRun(f: Fleet.Fleet)
    ensures Fleet.IsRun(f, []) && Fleet.After(f, []) == f
  {
  }

  /**
   * A whole run of device, delivery plane and registrar together is one of the fleet: each rotation
   * of this device stores its view of the new bundle, in order, every other registrar event does
   * nothing, and each event of the device is a run of its actions.
   */
  lemma {:induction false} MixedRun(s: System, es: seq<Event>, f: Fleet.Fleet, view: IdentityBundle -> Fleet.Bundle) returns (ms: seq<Move>)
    requires ProcessOk(s) && IsRun(s, es) && Matches(s, f, view)
    requires CleanLosses(s, es) && Steady(After(s, es).hist)
    ensures |ms| == |es| && forall i :: 0 <= i < |ms| && ms[i].Stores? ==> es[i].Registrar?
    ensures AreMoves(f, s.d, ms) && ProcessOk(After(s, es)) && Matches(After(s, es), MovedBy(f, s.d, ms), view)
    ensures Views(After(s, es).hist, view) == Views(s.hist, view) + StoredBy(ms)
    decreases |es|
  {
    hide ProcessOk, Matches, Do, Enabled, Steady, MoveOn, CanMove, CleanLoss;
    if es == [] {
      ms := [];
    } else {
      assert es[0] in es;
      var g := Do(s, es[0]);
      HistGrows(g, es[1..]);
      SteadyPrefix(g.hist, After(s, es).hist);
      var m := EventIsMove(s, es[0], f, view);
      SameDevice(s, es[0]);
      var rest := MixedRun(g, es[1..], MoveOn(f, s.d, m), view);
      ms := [m] + rest;
      assert ms[1..] == rest;
      assert [m][1..] == [];
      assert StoredBy(ms) == StoredBy([m]) + StoredBy(rest);
    }
  }

  lemma SameDevice(s: System, x: Event)
    requires Enabled(s, x)
    ensures Do(s, x).d == s.d
  {
    hide NextBundle, Delivery.Bootstrapped;
  }

  /** What the device reports is a report the fleet allows. */
  lemma ReportAllowed(s: System, f: Fleet.Fleet, view: IdentityBundle -> Fleet.Bundle)
    requires ProcessOk(s) && Matches(s, f, view) && s.local.Some?
    ensures Fleet.Enabled(f, Fleet.AReport(s.d, s.local.value))
  {
  }
}
