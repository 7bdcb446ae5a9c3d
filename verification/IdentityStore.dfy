/** The device's data volume: atomic renames in a fixed order, any of which may be the last before a crash. */
module IdentityStore {
  import opened A2aDoc
  import opened Bundles

  const BUNDLE_FILE := "identity-bundle.json"
  const READY_MARKER := "ready.marker"

  /** What a path holds; `at` records the version of the bundle whose apply renamed a payload into place. */
  datatype Entry =
    | Payload(content: string, base64: bool, at: nat)
    | Snapshot(bundle: IdentityBundle)
    | Marker(version: nat)

  type Disk = map<string, Entry>

  datatype Write = Write(path: string, entry: Entry)

  function FileWrite(b: IdentityBundle, i: nat): Write
    requires i < |b.files|
  {
    Write(b.files[i].path, Payload(b.files[i].content, b.files[i].base64, b.version))
  }

  /** Files in bundle order, then the snapshot, then the marker. */
  function Writes(b: IdentityBundle): (r: seq<Write>)
    ensures |r| == |b.files| + 2
  {
    seq(|b.files|, i requires 0 <= i < |b.files| => FileWrite(b, i)) +
    [Write(BUNDLE_FILE, Snapshot(b)), Write(READY_MARKER, Marker(b.version))]
  }

  function WriteOne(disk: Disk, b: IdentityBundle, k: nat): Disk
    requires k < |Writes(b)|
  {
    disk[Writes(b)[k].path := Writes(b)[k].entry]
  }

  /** The volume after the first k renames of an apply. */
  function Applied(disk: Disk, b: IdentityBundle, k: nat): Disk
    requires k <= |Writes(b)|
  {
    if k == 0 then disk else WriteOne(Applied(disk, b, k - 1), b, k - 1)
  }

  function ReadBundle(disk: Disk): Option<IdentityBundle> {
    if BUNDLE_FILE in disk && disk[BUNDLE_FILE].Snapshot? && BundleOk(disk[BUNDLE_FILE].bundle)
    then Some(disk[BUNDLE_FILE].bundle) else None
  }

  predicate IsReady(disk: Disk) { READY_MARKER in disk }

  /** A device reads its bundle back exactly if the snapshot is there with a version, with files, and with nothing that does not validate. */
  lemma ReadsBack(disk: Disk, b: IdentityBundle)
    ensures ReadBundle(disk) == Some(b) <==>
              "identity-bundle.json" in disk && disk["identity-bundle.json"] == Snapshot(b) && b.version >= 1 && |b.files| > 0 &&
              forall i :: 0 <= i < |b.files| ==> FileOk(b.files[i])
    ensures IsReady(disk) <==> "ready.marker" in disk
  {
    hide FileOk;
    assert (forall f :: f in b.files ==> FileOk(f)) <==> forall i :: 0 <= i < |b.files| ==> FileOk(b.files[i]);
  }

  // ------------------------------------------------------------------ crash safety

  /** No file of the bundle takes one of the store's own names. */
  predicate Clean(b: IdentityBundle) {
    forall f :: f in b.files ==> f.path != BUNDLE_FILE && f.path != READY_MARKER
  }

  /** Every version ever stored for this device, version v at position v - 1. */
  ghost predicate HistoryOk(hist: seq<IdentityBundle>) {
    forall i :: 0 <= i < |hist| ==> hist[i].version == i + 1 && BundleOk(hist[i]) && Clean(hist[i])
  }

  /** Some file of that version has this path and content. */
  predicate FromVersion(hist: seq<IdentityBundle>, path: string, e: Entry) {
    e.Payload? && 1 <= e.at <= |hist| && File(path, e.content, e.base64) in hist[e.at - 1].files
  }

  /** Every file of b is on disk, from b's version or a later one. */
  predicate Holds(disk: Disk, b: IdentityBundle, n: nat)
    requires n <= |b.files|
  {
    forall i :: 0 <= i < n ==> b.files[i].path in disk && disk[b.files[i].path].Payload? && disk[b.files[i].path].at >= b.version
  }

  function SnapshotVersion(disk: Disk): nat {
    if BUNDLE_FILE in disk && disk[BUNDLE_FILE].Snapshot? then disk[BUNDLE_FILE].bundle.version else 0
  }

  /** What a crash at any write leaves true. */
  ghost predicate CrashSafe(disk: Disk, hist: seq<IdentityBundle>) {
    (forall p :: p in disk && p != BUNDLE_FILE && p != READY_MARKER ==> FromVersion(hist, p, disk[p])) &&
    (BUNDLE_FILE in disk ==>
      disk[BUNDLE_FILE].Snapshot? && var b := disk[BUNDLE_FILE].bundle;
      1 <= b.version <= |hist| && b == hist[b.version - 1] && Holds(disk, b, |b.files|)) &&
    (READY_MARKER in disk ==>
      BUNDLE_FILE in disk && disk[READY_MARKER].Marker? && disk[READY_MARKER].version <= SnapshotVersion(disk))
  }

  /** A ready device always has a parseable snapshot, at or above the marker's version. */
  lemma ReadyMeansParseable(disk: Disk, hist: seq<IdentityBundle>)
    requires HistoryOk(hist) && CrashSafe(disk, hist) && IsReady(disk)
    ensures ReadBundle(disk).Some? && disk[READY_MARKER].Marker?
    ensures disk[READY_MARKER].version <= ReadBundle(disk).value.version == SnapshotVersion(disk)
    ensures forall f :: f in ReadBundle(disk).value.files ==> f.path in disk && disk[f.path].Payload? && disk[f.path].at >= SnapshotVersion(disk)
  {
  }

  /** One more rename of an apply of a version not below the snapshot. */
  lemma WriteKeeps(disk: Disk, hist: seq<IdentityBundle>, b: IdentityBundle, k: nat)
    requires HistoryOk(hist) && CrashSafe(disk, hist)
    requires 1 <= b.version <= |hist| && b == hist[b.version - 1] && SnapshotVersion(disk) <= b.version
    requires k < |Writes(b)| && Holds(disk, b, if k < |b.files| then k else |b.files|)
    requires k > |b.files| ==> SnapshotVersion(disk) == b.version
    ensures var g := WriteOne(disk, b, k);
            CrashSafe(g, hist) && Holds(g, b, if k < |b.files| then k + 1 else |b.files|) &&
            SnapshotVersion(disk) <= SnapshotVersion(g) <= b.version && (k >= |b.files| ==> SnapshotVersion(g) == b.version)
  {
    hide BundleOk;
    var g := WriteOne(disk, b, k);
    if k < |b.files| {
      assert b.files[k] in b.files && Writes(b)[k] == FileWrite(b, k);
      assert FromVersion(hist, b.files[k].path, g[b.files[k].path]);
      if BUNDLE_FILE in g { HeldAfterFile(disk, b, k, disk[BUNDLE_FILE].bundle, |disk[BUNDLE_FILE].bundle.files|); }
      HeldAfterFile(disk, b, k, b, k);
    } else {
      forall i | 0 <= i < |b.files| ensures b.files[i].path != BUNDLE_FILE && b.files[i].path != READY_MARKER {
        assert b.files[i] in b.files;
      }
      if k > |b.files| {
        var s := disk[BUNDLE_FILE].bundle;
        forall i | 0 <= i < |s.files| ensures s.files[i].path != READY_MARKER { assert s.files[i] in s.files; }
      }
    }
  }

  lemma HeldAfterFile(disk: Disk, b: IdentityBundle, k: nat, s: IdentityBundle, n: nat)
    requires k < |b.files| && s.version <= b.version && n <= |s.files| && Holds(disk, s, n)
    ensures Holds(WriteOne(disk, b, k), s, n)
  {
    assert Writes(b)[k] == FileWrite(b, k);
  }

  /** An apply, stopped anywhere, keeps the volume safe; the snapshot version never decreases. */
  lemma {:induction false} ApplyKeeps(disk: Disk, hist: seq<IdentityBundle>, b: IdentityBundle, k: nat)
    requires HistoryOk(hist) && CrashSafe(disk, hist) && k <= |Writes(b)|
    requires 1 <= b.version <= |hist| && b == hist[b.version - 1] && SnapshotVersion(disk) <= b.version
    ensures var g := Applied(disk, b, k);
            CrashSafe(g, hist) && Holds(g, b, if k < |b.files| then k else |b.files|) &&
            SnapshotVersion(disk) <= SnapshotVersion(g) <= b.version && (k > |b.files| ==> SnapshotVersion(g) == b.version)
  {
    hide CrashSafe, HistoryOk, WriteOne, SnapshotVersion;
    if k > 0 {
      ApplyKeeps(disk, hist, b, k - 1);
      WriteKeeps(Applied(disk, b, k - 1), hist, b, k - 1);
    }
  }

  /** A finished apply leaves exactly this bundle: per path its last file, the snapshot and the marker. */
  lemma {:induction false} FilesOfApply(disk: Disk, b: IdentityBundle, k: nat, path: string)
    requires k <= |b.files|
    ensures var g := Applied(disk, b, k);
            var f := Newest(b.files[..k], path);
            if f.Some? then path in g && g[path] == Payload(f.value.content, f.value.base64, b.version)
            else (path in g <==> path in disk) && (path in g ==> g[path] == disk[path])
  {
    if k > 0 {
      FilesOfApply(disk, b, k - 1, path);
      assert b.files[..k][..k - 1] == b.files[..k - 1];
      assert Writes(b)[k - 1] == FileWrite(b, k - 1);
    }
  }

  lemma FinishedApply(disk: Disk, b: IdentityBundle)
    requires Clean(b)
    ensures var g := Applied(disk, b, |Writes(b)|);
            BUNDLE_FILE in g && g[BUNDLE_FILE] == Snapshot(b) && READY_MARKER in g && g[READY_MARKER] == Marker(b.version) &&
            forall path :: path != BUNDLE_FILE && path != READY_MARKER ==>
              if Newest(b.files, path).Some?
              then path in g && g[path] == Payload(Newest(b.files, path).value.content, Newest(b.files, path).value.base64, b.version)
              else (path in g <==> path in disk) && (path in g ==> g[path] == disk[path])
  {
    var n := |b.files|;
    assert b.files[..n] == b.files;
    assert Applied(disk, b, n + 2) == WriteOne(WriteOne(Applied(disk, b, n), b, n), b, n + 1);
    forall path ensures var f := Newest(b.files, path);
            if f.Some? then path in Applied(disk, b, n) && Applied(disk, b, n)[path] == Payload(f.value.content, f.value.base64, b.version)
            else (path in Applied(disk, b, n) <==> path in disk) && (path in Applied(disk, b, n) ==> Applied(disk, b, n)[path] == disk[path])
    {
      FilesOfApply(disk, b, n, path);
    }
  }

  /** A device that the agent takes for ready although nothing can be read back. */
  predicate FalselyReady(disk: Disk) { IsReady(disk) && ReadBundle(disk).None? }

  /** On a fresh volume that can happen exactly when a file of the bundle is named like the marker. */
  lemma FalselyReadyExactly(b: IdentityBundle)
    requires BundleOk(b)
    ensures (exists k :: 0 <= k <= |Writes(b)| && FalselyReady(Applied(map[], b, k))) <==> Newest(b.files, READY_MARKER).Some?
  {
    var n := |b.files|;
    assert b.files[..n] == b.files;
    if Newest(b.files, READY_MARKER).Some? {
      FilesOfApply(map[], b, n, READY_MARKER);
      FilesOfApply(map[], b, n, BUNDLE_FILE);
      assert FalselyReady(Applied(map[], b, n));
    }
    forall k | n < k <= |Writes(b)| ensures !FalselyReady(Applied(map[], b, k)) { SnapshotReads(b, k); }
    forall k | 0 <= k <= n && FalselyReady(Applied(map[], b, k)) ensures Newest(b.files, READY_MARKER).Some? {
      FilesOfApply(map[], b, k, READY_MARKER);
      var f := Newest(b.files[..k], READY_MARKER).value;
      assert f in b.files;
    }
  }

  /** Once the snapshot is renamed into place it can be read back. */
  lemma SnapshotReads(b: IdentityBundle, k: nat)
    requires BundleOk(b) && |b.files| < k <= |Writes(b)|
    ensures ReadBundle(Applied(map[], b, k)) == Some(b)
  {
    var n := |b.files|;
    assert Applied(map[], b, n + 1) == WriteOne(Applied(map[], b, n), b, n);
    assert READY_MARKER != BUNDLE_FILE;
  }

  class Store {
    var disk: map<string, Entry>

    constructor ()
      ensures disk == map[]
    {
      disk := map[];
    }

    /** applyBundle on a machine that survives `budget` renames; a refused bundle touches nothing. */
    method ApplyBundle(b: IdentityBundle, budget: nat) returns (accepted: bool, finished: bool)
      modifies this
      ensures accepted == BundleOk(b) && finished == (accepted && budget >= |Writes(b)|)
      ensures disk == if accepted then Applied(old(disk), b, if budget < |Writes(b)| then budget else |Writes(b)|) else old(disk)
    {
      accepted, finished := true, false;
      if b.version < 1 || b.files == [] || exists f :: f in b.files && !FileOk(f) { return false, false; }
      var i := 0;
      while i < |b.files|
        invariant 0 <= i <= |b.files| && i <= budget && disk == Applied(old(disk), b, i)
      {
        if i == budget { return; }
        assert Writes(b)[i] == FileWrite(b, i);
        disk := disk[b.files[i].path := Payload(b.files[i].content, b.files[i].base64, b.version)];
        i := i + 1;
      }
      if i == budget { return; }
      disk := disk[BUNDLE_FILE := Snapshot(b)];
      if i + 1 == budget { return; }
      disk := disk[READY_MARKER := Marker(b.version)];
      finished := true;
    }

    /** The boot's identity check: a snapshot without its marker is applied again. */
    method Boot(budget: nat) returns (local: Option<nat>)
      modifies this
      ensures var was := ReadBundle(old(disk));
              if was.None? then local.None? && disk == old(disk)
              else if IsReady(old(disk)) then local == Some(was.value.version) && disk == old(disk)
              else var n := |Writes(was.value)|;
                   disk == Applied(old(disk), was.value, if budget < n then budget else n) &&
                   local == (if budget >= n then Some(was.value.version) else None)
    {
      if BUNDLE_FILE !in disk || !disk[BUNDLE_FILE].Snapshot? || !BundleOk(disk[BUNDLE_FILE].bundle) { return None; }
      var existing := disk[BUNDLE_FILE].bundle;
      if READY_MARKER !in disk {
        var _, finished := ApplyBundle(existing, budget);
        if !finished { return None; }
      }
      local := Some(existing.version);
    }
  }
}
