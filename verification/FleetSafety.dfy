/** "Zero failed A2A sends by construction", over every run: the claim, its exact condition, and the order of revocation. */
module FleetSafety {
  import opened A2aDoc
  import opened Fleet
  import opened FleetInvariant
  import opened FleetSteps

  // --------------------------------------------------------------------- the claim

  predicate AcceptsBundle(b: Bundle, a: Agent, k: Key) {
    b.a2a.Some? && Accepts(b.a2a.value, a, k)
  }

  /**
   * A receiver takes agent a: by its signature, or, unless its own document is strict, because its token
   * tables list the key a presents.
   */
  predicate Takes(f: Fleet, b: Bundle, a: Agent, k: Key) {
    Signs(f, b, a) || (!IsStrict(b) && AcceptsBundle(b, a, k))
  }

  /** Not a strict receiver that lacks a's public key: such a one refuses a whatever it presents. */
  predicate OpenTo(f: Fleet, b: Bundle, a: Agent) { Signs(f, b, a) || !IsStrict(b) }

  /** The bundle whose a2a.json is on the device's disk. */
  function OnDisk(f: Fleet, d: Agent): Option<Bundle> {
    if d in f.devices && 1 <= f.devices[d].a2aAt <= Versions(f, d) then Some(At(f, d, f.devices[d].a2aAt)) else None
  }

  /**
   * A send from a to p goes through right now: whatever identity key a's disk presents, the gateway
   * still holds it and p's disk takes it.
   */
  predicate Delivered(f: Fleet, a: Agent, p: Agent) {
    OnDisk(f, a).Some? ==>
      OnDisk(f, p).Some? && KeyIsLive(f, IdentityOf(OnDisk(f, a).value)) &&
      Takes(f, OnDisk(f, p).value, a, IdentityOf(OnDisk(f, a).value))
  }

  /** A version the device runs, or has in hand to apply. */
  predicate Holds(f: Fleet, d: Agent, x: nat) {
    d in f.devices && x != 0 && (x == f.devices[d].a2aAt || x == f.devices[d].fetched)
  }

  /** A version the device may run next without the registrar doing anything: held, or the one it can fetch. */
  predicate Offers(f: Fleet, d: Agent, x: nat) {
    d in f.devices && 1 <= x <= Versions(f, d) && (Holds(f, d, x) || x == Versions(f, d))
  }

  /** p is in the ledger of a's newest identity rotation. */
  predicate LedgerPeer(f: Fleet, a: Agent, p: Agent) {
    var i := NewestRow(f.rows, a, A2aIdentity);
    i.Some? && p in LedgerNames(f.rows[i.value].peers)
  }

  /** With a on version x and p on version y there is a key to present, and it is taken. */
  predicate Fits(f: Fleet, a: Agent, x: nat, p: Agent, y: nat)
    requires 1 <= x <= Versions(f, a) && 1 <= y <= Versions(f, p)
  {
    IdentityOf(At(f, a, x)) != "" && Takes(f, At(f, p, y), a, IdentityOf(At(f, a, x)))
  }

  /**
   * The condition under which a rotation never interrupts sends from a to p: p has applied something, and
   * every bundle the two devices may run as things stand fits every other.
   */
  ghost predicate Served(f: Fleet, a: Agent, p: Agent) {
    LedgerPeer(f, a, p) && p in f.devices && f.devices[p].a2aAt != 0 &&
    forall x: nat, y: nat :: Offers(f, a, x) && Offers(f, p, y) ==> Fits(f, a, x, p, y)
  }

  // ------------------------------------------------------------------ from Inv to facts

  /** The newest identity row of a, with everything the invariant says about it. */
  lemma NewestFacts(f: Fleet, a: Agent, p: Agent) returns (i: nat, e: LedgerEntry)
    requires Inv(f) && LedgerPeer(f, a, p)
    ensures i < |f.rows| && Some(i) == NewestRow(f.rows, a, A2aIdentity) && IsCurrent(f, i)
    ensures f.rows[i].agent == a && f.rows[i].kind.A2aIdentity? && RowShape(f, i) && IdentityRowOk(f, i)
    ensures e in f.rows[i].peers && e.agent == p && 1 <= e.version <= Versions(f, p)
    ensures a in f.devices && p in f.devices && a != p && DeviceOk(f, a) && DeviceOk(f, p) && Known(f, a) && Known(f, p)
  {
    i := NewestRow(f.rows, a, A2aIdentity).value;
    InvRow(f, i);
    e :| e in f.rows[i].peers && e.agent == p;
    InvDevice(f, a);
    InvDevice(f, p);
  }

  /** Once the peer's disk is at its ledger version, everything it offers fits the rotation. */
  lemma OfferedFits(f: Fleet, i: nat, e: LedgerEntry, y: nat)
    requires i < |f.rows| && PeersOk(f, i) && e in f.rows[i].peers && 1 <= e.version <= Versions(f, e.agent)
    requires e.agent in f.devices && DeviceOk(f, e.agent) && Offers(f, e.agent, y)
    requires f.devices[e.agent].snapAt >= e.version || y == Versions(f, e.agent)
    ensures PeerVersionOk(f, i, At(f, e.agent, y))
  {
  }

  /** After the target's confirmation it offers nothing but the new key. */
  lemma TargetOffersNew(f: Fleet, i: nat, x: nat)
    requires i < |f.rows| && IdentityRowOk(f, i) && RowShape(f, i) && f.rows[i].kind.A2aIdentity?
    requires f.rows[i].status.AwaitingRevoke? || f.rows[i].status.Completed?
    requires f.rows[i].agent in f.devices && DeviceOk(f, f.rows[i].agent) && Offers(f, f.rows[i].agent, x)
    ensures IdentityOf(At(f, f.rows[i].agent, x)) == NewKey(f, i) != ""
  {
    assert TargetVersionOk(f, i, At(f, f.rows[i].agent, x));
  }

  /** A version that fits the rotation takes the key it leads to, and the old one until the target has confirmed. */
  lemma VersionTakes(f: Fleet, i: nat, b: Bundle, k: Key)
    requires i < |f.rows| && PeerVersionOk(f, i, b) && OpenTo(f, b, f.rows[i].agent)
    requires k == NewKey(f, i) || (k == f.rows[i].oldToken && (f.rows[i].status.Delivering? || f.rows[i].status.AwaitingTarget?))
    ensures Takes(f, b, f.rows[i].agent, k)
  {
  }

  lemma InvDisks(f: Fleet)
    requires Inv(f)
    ensures Disks(f)
  {
  }

  lemma ServedDelivers(f: Fleet, a: Agent, p: Agent)
    requires Inv(f) && Served(f, a, p)
    ensures Delivered(f, a, p)
  {
    hide Inv;
    var i, e := NewestFacts(f, a, p);
    var x, y := f.devices[a].a2aAt, f.devices[p].a2aAt;
    if OnDisk(f, a).Some? {
      assert Offers(f, a, x) && Offers(f, p, y) && Fits(f, a, x, p, y);
      PresentedKeyLive(f, a, x);
    }
  }

  lemma PresentedKeyLive(f: Fleet, a: Agent, x: nat)
    requires Inv(f) && a in f.devices && x == f.devices[a].a2aAt && 1 <= x <= Versions(f, a) && IdentityOf(At(f, a, x)) != ""
    ensures KeyIsLive(f, IdentityOf(At(f, a, x)))
  {
    assert LiveKey(f, IdentityOf(At(f, a, x)));
  }

  // --------------------------------------------------------------- one step, from outside

  /** How any action moves the parts of the state the claim speaks of. */
  ghost predicate Moves(f: Fleet, g: Fleet) {
    g.strict == f.strict &&
    (forall d :: d in f.history ==> d in g.history && f.history[d] <= g.history[d]) &&
    (forall d :: d in f.devices ==>
      d in g.devices && f.devices[d].snapAt <= g.devices[d].snapAt && (f.devices[d].a2aAt != 0 ==> g.devices[d].a2aAt != 0)) &&
    (forall d, x: nat :: d in f.devices && Holds(g, d, x) ==> (Holds(f, d, x) || x == Versions(f, d))) &&
    |f.rows| <= |g.rows| && (forall i :: 0 <= i < |f.rows| ==> RowMoves(f.rows[i], g.rows[i]))
  }

  function Rank(s: Status): nat {
    match s case Delivering => 0 case AwaitingTarget => 1 case AwaitingRevoke => 2 case Completed => 3
  }

  /** A row only moves forward, its tokens change exactly when it closes, and its flip version is set once. */
  predicate RowMoves(r: Row, s: Row) {
    s.agent == r.agent && s.kind == r.kind && s.peers == r.peers && s.oldAlias == r.oldAlias && s.newAlias == r.newAlias &&
    Rank(r.status) <= Rank(s.status) && (!r.Open() ==> s == r) &&
    (s.Open() ==> s.oldToken == r.oldToken && s.newToken == r.newToken) &&
    (!r.status.Delivering? ==> s.newVersion == r.newVersion)
  }

  /** Any number of stored bundles and appended rows: the devices do not move. */
  lemma StoreMoves(f: Fleet, m: Fleet, g: Fleet, jobs: map<Agent, Bundle>)
    requires m.history == f.history && g.history == Store(m, jobs).history && g.devices == f.devices && f.rows <= g.rows && g.strict == f.strict
    ensures Moves(f, g)
  {
    assert forall d, x: nat :: Holds(g, d, x) == Holds(f, d, x);
  }

  lemma SetRowMoves(f: Fleet, m: Fleet, i: nat, r: Row)
    requires i < |f.rows| && m.rows == f.rows && m.devices == f.devices && m.strict == f.strict && RowMoves(f.rows[i], r)
    requires forall d :: d in f.history ==> d in m.history && f.history[d] <= m.history[d]
    ensures Moves(f, SetRow(m, i, r))
  {
    assert forall d, x: nat :: Holds(SetRow(m, i, r), d, x) == Holds(f, d, x);
  }

  lemma DeviceMoves(f: Fleet, d: Agent, v: Device)
    requires d in f.devices && f.devices[d].snapAt <= v.snapAt && (f.devices[d].a2aAt != 0 ==> v.a2aAt != 0)
    requires v.a2aAt == f.devices[d].a2aAt || v.a2aAt == f.devices[d].fetched
    requires v.fetched == 0 || v.fetched == f.devices[d].fetched || v.fetched == Versions(f, d)
    ensures Moves(f, SetDevice(f, d, v))
  {
    var g := SetDevice(f, d, v);
    forall e, x: nat | e in f.devices && Holds(g, e, x) ensures Holds(f, e, x) || x == Versions(f, e) {
    }
  }

  lemma RegistrarMoves(f: Fleet, x: Action)
    requires Enabled(f, x)
    requires x.AEnroll? || x.AStartIdentity? || x.AStartIdentityLost? || x.AStartModel? || x.AStartModelLost? || x.AProvision?
    ensures Moves(f, Do(f, x))
  {
    hide EnrollJobs, OverlapJobs, Store, IdentityRow, ModelRow;
    match x
    case AEnroll(a, url, k, reach) =>
      StoreMoves(f, if EnrollMints(f, a) then Mint(f, MeshBase(a), k) else f, Do(f, x), Restrict(EnrollJobs(f, a, url, k), reach)) by {
        StoreFields(if EnrollMints(f, a) then Mint(f, MeshBase(a), k) else f, Restrict(EnrollJobs(f, a, url, k), reach));
      }
    case AStartIdentity(a, k) =>
      var m := Mint(f, MeshRotation(a, NextSuffix(f, A2aIdentity, a).value), k);
      StoreFields(m, OverlapJobs(f, a, k, CurrentIdentity(f, a)));
      StoreMoves(f, m, Do(f, x), OverlapJobs(f, a, k, CurrentIdentity(f, a)));
    case AStartIdentityLost(a, k, reach) =>
      var m := Mint(f, MeshRotation(a, NextSuffix(f, A2aIdentity, a).value), k);
      StoreFields(m, Restrict(OverlapJobs(f, a, k, CurrentIdentity(f, a)), reach));
      StoreMoves(f, m, Do(f, x), Restrict(OverlapJobs(f, a, k, CurrentIdentity(f, a)), reach));
    case AStartModel(a, k) =>
      var m := Mint(f, ModelRotation(a, NextSuffix(f, ModelKey, a).value), k);
      StoreFields(m, map[a := Last(f, a).(modelKey := k)]);
      StoreMoves(f, m, Do(f, x), map[a := Last(f, a).(modelKey := k)]);
    case AStartModelLost(a, k, reach) =>
      var m := Mint(f, ModelRotation(a, NextSuffix(f, ModelKey, a).value), k);
      StoreFields(m, Restrict(map[a := Last(f, a).(modelKey := k)], reach));
      StoreMoves(f, m, Do(f, x), Restrict(map[a := Last(f, a).(modelKey := k)], reach));
    case AProvision(a, k) =>
      StoreFields(Mint(f, ModelBase(a), k), map[a := Last(f, a).(modelKey := k)]);
      StoreMoves(f, Mint(f, ModelBase(a), k), Do(f, x), map[a := Last(f, a).(modelKey := k)]);
  }

  lemma StoreFields(f: Fleet, jobs: map<Agent, Bundle>)
    ensures Store(f, jobs) == f.(history := Store(f, jobs).history)
    ensures forall d :: d in f.history ==> d in Store(f, jobs).history && f.history[d] <= Store(f, jobs).history[d]
  {
  }

  lemma SweepMoves(f: Fleet, x: Action)
    requires Enabled(f, x)
    requires x.AFlip? || x.AFlipLost? || x.AConfirm? || x.ACleanupLost? || x.AComplete? || x.ANoteFailure?
    ensures Moves(f, Do(f, x))
  {
    hide CleanupJobs, Store, Revoke, Moves, Complete;
    var i := x.row;
    var r := f.rows[i];
    match x
    case AFlip(_) =>
      FlipBundleFields(f, i);
      SetRowMoves(f, FlipBundle(f, i), i, r.(status := AwaitingTarget, newVersion := Versions(f, r.agent) + 1));
    case AFlipLost(_) =>
      FlipBundleFields(f, i);
      SetRowMoves(f, FlipBundle(f, i), i, r);
      assert SetRow(FlipBundle(f, i), i, r) == FlipBundle(f, i);
    case AConfirm(_) => SetRowMoves(f, f, i, r.(status := AwaitingRevoke));
    case ACleanupLost(_, reach) =>
      RevokeSameBundles(f, i);
      StoreFields(Revoke(f, i), Restrict(CleanupJobs(f, r.peers, r.agent), reach));
      StoreMoves(f, Revoke(f, i), Do(f, x), Restrict(CleanupJobs(f, r.peers, r.agent), reach));
    case AComplete(_) => CompleteMoves(f, i);
    case ANoteFailure(_) => SetRowMoves(f, f, i, r.(failed := true));
  }

  lemma CompleteMoves(f: Fleet, i: nat)
    requires CanRevoke(f, i)
    ensures Moves(f, Complete(f, i))
  {
    hide CleanupJobs, Store, Revoke, Moves;
    var r := f.rows[i];
    RevokeSameBundles(f, i);
    var jobs := CleanupJobs(f, r.peers, r.agent);
    StoreFields(Revoke(f, i), jobs);
    if r.kind.A2aIdentity? {
      SetRowMoves(f, Store(Revoke(f, i), jobs), i, r.(status := Completed, oldToken := "", newToken := "", failed := false));
    } else {
      SetRowMoves(f, Revoke(f, i), i, r.(status := Completed, failed := false));
    }
  }

  lemma FlipBundleFields(f: Fleet, i: nat)
    requires i < |f.rows| && Known(f, f.rows[i].agent)
    ensures FlipBundle(f, i) == f.(history := FlipBundle(f, i).history)
    ensures forall d :: d in f.history ==> d in FlipBundle(f, i).history && f.history[d] <= FlipBundle(f, i).history[d]
  {
  }

  lemma CreateFields(f: Fleet, d: Agent, b: Bundle, on: bool)
    requires CanCreate(f, d, b)
    ensures var g := Create(f, d, b, on);
            g.rows == f.rows && g.strict == f.strict && g.history == f.history[d := [b]] && g.devices == f.devices[d := Device(0, 0, 0, 0, 0)]
    ensures d !in f.history && d !in f.devices
  {
  }

  lemma CreateMoves(f: Fleet, d: Agent, b: Bundle, on: bool)
    requires CanCreate(f, d, b)
    ensures Moves(f, Create(f, d, b, on))
  {
    hide Create, CanCreate;
    CreateFields(f, d, b, on);
    forall e, x: nat | e in f.devices && Holds(Create(f, d, b, on), e, x) ensures Holds(f, e, x) {
    }
  }

  lemma StepMoves(f: Fleet, x: Action)
    requires Inv(f) && Enabled(f, x)
    ensures Moves(f, Do(f, x))
  {
    hide Inv, Moves, EnrollJobs, OverlapJobs, ResyncJobs, Store;
    match x
    case ACreate(d, b, on) => CreateMoves(f, d, b, on);
    case AFlip(_) => SweepMoves(f, x);
    case AFlipLost(_) => SweepMoves(f, x);
    case AConfirm(_) => SweepMoves(f, x);
    case ACleanupLost(_, _) => SweepMoves(f, x);
    case AComplete(_) => SweepMoves(f, x);
    case ANoteFailure(_) => SweepMoves(f, x);
    case AResync(keys, reach) =>
      StoreFields(f, Restrict(ResyncJobs(f, f.strict, keys), reach));
      StoreMoves(f, f, Do(f, x), Restrict(ResyncJobs(f, f.strict, keys), reach));
    case AFetch(d) => InvDevice(f, d); DeviceMoves(f, d, Do(f, x).devices[d]);
    case AWriteA2a(d) => InvDevice(f, d); DeviceMoves(f, d, Do(f, x).devices[d]);
    case AWriteEnv(d) => InvDevice(f, d); DeviceMoves(f, d, Do(f, x).devices[d]);
    case AWriteSnapshot(d) => InvDevice(f, d); DeviceMoves(f, d, Do(f, x).devices[d]);
    case AAdopt(d) => InvDevice(f, d); DeviceMoves(f, d, Do(f, x).devices[d]);
    case AReboot(d) => InvDevice(f, d); DeviceMoves(f, d, Do(f, x).devices[d]);
    case AReport(d, v) => ReportMoves(f, d, v);
    case _ => RegistrarMoves(f, x);
  }

  lemma ReportMoves(f: Fleet, d: Agent, v: nat)
    ensures Moves(f, f.(reports := f.reports[d := v]))
  {
    assert forall e, x: nat :: Holds(f.(reports := f.reports[d := v]), e, x) == Holds(f, e, x);
  }

  /** Only a start of a's own rotation gives a a newer identity row. */
  lemma NewestStep(f: Fleet, x: Action, a: Agent)
    requires Enabled(f, x) && Moves(f, Do(f, x)) && !(x.AStartIdentity? && x.agent == a)
    ensures NewestRow(Do(f, x).rows, a, A2aIdentity) == NewestRow(f.rows, a, A2aIdentity)
  {
    hide Do, Enabled;
    var g := Do(f, x);
    assert forall j :: |f.rows| <= j < |g.rows| ==> !(g.rows[j].agent == a && g.rows[j].kind.A2aIdentity?) by {
      AppendedRows(f, x);
    }
    assert forall j :: 0 <= j < |f.rows| ==> g.rows[j].agent == f.rows[j].agent && g.rows[j].kind == f.rows[j].kind by {
      assert forall j :: 0 <= j < |f.rows| ==> RowMoves(f.rows[j], g.rows[j]);
    }
    var r, s := NewestRow(f.rows, a, A2aIdentity), NewestRow(g.rows, a, A2aIdentity);
    if r.Some? { assert g.rows[r.value].agent == a && g.rows[r.value].kind.A2aIdentity?; }
    if s.Some? { assert f.rows[s.value].agent == a && f.rows[s.value].kind.A2aIdentity?; }
  }

  lemma SweepAppendsNothing(f: Fleet, x: Action)
    requires Enabled(f, x) && (x.AComplete? || x.ACleanupLost?)
    ensures |Do(f, x).rows| == |f.rows|
  {
    hide CleanupJobs, Revoke;
    RevokeSameBundles(f, x.row);
  }

  lemma AppendedRows(f: Fleet, x: Action)
    requires Enabled(f, x)
    ensures |Do(f, x).rows| > |f.rows| ==> x.AStartIdentity? || x.AStartModel?
    ensures x.AStartIdentity? ==> |Do(f, x).rows| == |f.rows| + 1 && Do(f, x).rows[|f.rows|].agent == x.agent
    ensures x.AStartModel? ==> |Do(f, x).rows| == |f.rows| + 1 && Do(f, x).rows[|f.rows|].kind.ModelKey?
  {
    hide EnrollJobs, OverlapJobs, ResyncJobs, CanCreate, KeysStay, NextSuffix, CurrentModelAlias, Ledger, Versions, Complete, CleanupLost;
    if x.AComplete? || x.ACleanupLost? { SweepAppendsNothing(f, x); }
  }

  // ------------------------------------------------------------------------- induction

  predicate HasIdentityRow(f: Fleet, a: Agent) {
    exists i :: 0 <= i < |f.rows| && f.rows[i].kind.A2aIdentity? && f.rows[i].agent == a
  }

  /** c takes no public key and no trusted name away, and is not strict where b was not. */
  ghost predicate Gentle(b: Bundle, c: Bundle) {
    (IsStrict(c) ==> IsStrict(b)) && forall a :: Lists(b, a) ==> Lists(c, a)
  }

  /** What a store does to one device's latest bundle. */
  lemma StoredLast(f: Fleet, m: Fleet, jobs: map<Agent, Bundle>, p: Agent)
    requires m.history == f.history && Known(f, p)
    ensures var g := Store(m, jobs); Known(g, p) && Last(g, p) == if p in jobs then jobs[p] else Last(f, p)
  {
  }

  lemma EnrollGentle(f: Fleet, x: Agent, url: string, minted: Key, reach: set<Agent>, p: Agent)
    requires Known(f, x) && Known(f, p)
    ensures var g := Enroll(f, x, url, minted, reach); Known(g, p) && Gentle(Last(f, p), Last(g, p))
  {
    hide MeshPeers, EnrolledDoc, PeerDoc;
    var m := if EnrollMints(f, x) then Mint(f, MeshBase(x), minted) else f;
    StoredLast(f, m, Restrict(EnrollJobs(f, x, url, minted), reach), p);
    EnrolledEntries(f, x, EnrollKey(f, x, minted), url, x);
    PeerEntries(f, p, x, EnrollKey(f, x, minted));
  }

  lemma StartGentle(f: Fleet, x: Agent, minted: Key, jobs: map<Agent, Bundle>, p: Agent)
    requires NextSuffix(f, A2aIdentity, x).Some? && Known(f, p)
    requires forall d :: d in jobs ==> Known(f, d) && jobs[d] == WithDoc(Last(f, d), OverlapDoc(f, d, x, minted, CurrentIdentity(f, x)))
    ensures var g := Store(Mint(f, MeshRotation(x, NextSuffix(f, A2aIdentity, x).value), minted), jobs);
            Known(g, p) && Gentle(Last(f, p), Last(g, p))
  {
    hide NextSuffix, OverlapDoc;
    StoredLast(f, Mint(f, MeshRotation(x, NextSuffix(f, A2aIdentity, x).value), minted), jobs, p);
    if p in jobs { OverlapEntries(f, p, x, minted, CurrentIdentity(f, x)); }
  }

  lemma CleanupGentle(f: Fleet, i: nat, jobs: map<Agent, Bundle>, p: Agent)
    requires i < |f.rows| && Known(f, p)
    requires forall d :: d in jobs ==> NeedsCleanup(f, d, f.rows[i].agent) && jobs[d] == CleanedBundle(f, d, f.rows[i].agent)
    ensures var g := Store(Revoke(f, i), jobs); Known(g, p) && Gentle(Last(f, p), Last(g, p))
  {
    hide CleanedBundle, Revoke;
    RevokeSameBundles(f, i);
    StoredLast(f, Revoke(f, i), jobs, p);
    if p in jobs { CleanedEntries(f, p, f.rows[i].agent); }
  }

  lemma RegistrarGentle(f: Fleet, x: Action, p: Agent)
    requires Enabled(f, x) && Known(f, p)
    requires x.AEnroll? || x.AStartIdentity? || x.AStartIdentityLost? || x.AStartModel? || x.AStartModelLost? || x.AProvision?
    ensures Known(Do(f, x), p) && Gentle(Last(f, p), Last(Do(f, x), p))
  {
    hide EnrollJobs, OverlapJobs, Store, Enroll, NextSuffix, IdentityRow, Gentle;
    match x
    case AEnroll(d, url, k, reach) => EnrollGentle(f, d, url, k, reach, p);
    case AStartIdentity(d, k) =>
      AreOverlaps(f, d, k);
      StartGentle(f, d, k, OverlapJobs(f, d, k, CurrentIdentity(f, d)), p);
    case AStartIdentityLost(d, k, reach) =>
      AreOverlaps(f, d, k);
      StartGentle(f, d, k, Restrict(OverlapJobs(f, d, k, CurrentIdentity(f, d)), reach), p);
    case AStartModel(d, k) => ModelGentle(f, ModelRotation(d, NextSuffix(f, ModelKey, d).value), d, k, map[d := Last(f, d).(modelKey := k)], p);
    case AStartModelLost(d, k, reach) =>
      ModelGentle(f, ModelRotation(d, NextSuffix(f, ModelKey, d).value), d, k, Restrict(map[d := Last(f, d).(modelKey := k)], reach), p);
    case AProvision(d, k) => ModelGentle(f, ModelBase(d), d, k, map[d := Last(f, d).(modelKey := k)], p);
  }

  lemma SweepGentle(f: Fleet, x: Action, p: Agent)
    requires Enabled(f, x) && Known(f, p)
    requires x.AFlip? || x.AFlipLost? || x.AConfirm? || x.ACleanupLost? || x.AComplete? || x.ANoteFailure?
    ensures Known(Do(f, x), p) && Gentle(Last(f, p), Last(Do(f, x), p))
  {
    hide CleanupJobs, Store, Revoke;
    match x
    case AFlip(i) => FlipGentle(f, i, p);
    case AFlipLost(i) => FlipGentle(f, i, p);
    case AConfirm(_) =>
    case ANoteFailure(_) =>
    case ACleanupLost(i, reach) =>
      AreCleanups(f, i);
      CleanupGentle(f, i, Restrict(CleanupJobs(f, f.rows[i].peers, f.rows[i].agent), reach), p);
    case AComplete(i) =>
      AreCleanups(f, i);
      RevokeSameBundles(f, i);
      CleanupGentle(f, i, CleanupJobs(f, f.rows[i].peers, f.rows[i].agent), p);
  }

  lemma OwnGentle(f: Fleet, x: Action, p: Agent)
    requires Enabled(f, x) && Known(f, p)
    requires x.ACreate? || x.AFetch? || x.AWriteA2a? || x.AWriteEnv? || x.AWriteSnapshot? || x.AAdopt? || x.AReboot? || x.AReport?
    ensures Known(Do(f, x), p) && Gentle(Last(f, p), Last(Do(f, x), p))
  {
    hide Create, CanCreate;
    if x.ACreate? { CreateFields(f, x.agent, x.bundle, x.active); }
  }

  lemma ModelGentle(f: Fleet, alias: Alias, d: Agent, k: Key, jobs: map<Agent, Bundle>, p: Agent)
    requires Known(f, d) && Known(f, p)
    requires forall c :: c in jobs ==> c == d && jobs[c] == Last(f, d).(modelKey := k)
    ensures var g := Store(Mint(f, alias, k), jobs); Known(g, p) && Gentle(Last(f, p), Last(g, p))
  {
    StoredLast(f, Mint(f, alias, k), jobs, p);
  }

  lemma FlipGentle(f: Fleet, i: nat, p: Agent)
    requires i < |f.rows| && Known(f, f.rows[i].agent) && Known(f, p)
    ensures Known(FlipBundle(f, i), p) && Gentle(Last(f, p), Last(FlipBundle(f, i), p))
  {
    var t := f.rows[i].agent;
    var u := NO_UPDATES.(identityKey := Some(f.rows[i].newToken));
    StoredLast(f, f, map[t := WithDoc(Last(f, t), Render(Last(f, t).a2a, u))], p);
  }

  lemma AreOverlaps(f: Fleet, d: Agent, k: Key)
    ensures var jobs := OverlapJobs(f, d, k, CurrentIdentity(f, d));
            forall q :: q in jobs ==> Known(f, q) && jobs[q] == WithDoc(Last(f, q), OverlapDoc(f, q, d, k, CurrentIdentity(f, d)))
  {
    hide OverlapDoc;
  }

  lemma AreCleanups(f: Fleet, i: nat)
    requires i < |f.rows|
    ensures var a := f.rows[i].agent; var jobs := CleanupJobs(f, f.rows[i].peers, a);
            forall d :: d in jobs ==> NeedsCleanup(f, d, a) && jobs[d] == CleanedBundle(f, d, a)
  {
    hide CleanedBundle;
  }

  lemma StepGentle(f: Fleet, x: Action, p: Agent)
    requires Enabled(f, x) && Known(f, p) && !x.AResync?
    ensures Known(Do(f, x), p) && Gentle(Last(f, p), Last(Do(f, x), p))
  {
    hide Do, Gentle;
    match x
    case AEnroll(_, _, _, _) => RegistrarGentle(f, x, p);
    case AStartIdentity(_, _) => RegistrarGentle(f, x, p);
    case AStartIdentityLost(_, _, _) => RegistrarGentle(f, x, p);
    case AStartModel(_, _) => RegistrarGentle(f, x, p);
    case AStartModelLost(_, _, _) => RegistrarGentle(f, x, p);
    case AProvision(_, _) => RegistrarGentle(f, x, p);
    case AFlip(_) => SweepGentle(f, x, p);
    case AFlipLost(_) => SweepGentle(f, x, p);
    case AConfirm(_) => SweepGentle(f, x, p);
    case ACleanupLost(_, _) => SweepGentle(f, x, p);
    case AComplete(_) => SweepGentle(f, x, p);
    case ANoteFailure(_) => SweepGentle(f, x, p);
    case _ => OwnGentle(f, x, p);
  }

  /** The way a had into p's newest bundle is still there. */
  predicate WayStays(f: Fleet, g: Fleet, p: Agent, a: Agent) {
    Known(f, p) && Known(g, p) &&
    (Signs(f, Last(f, p), a) ==> Signs(g, Last(g, p), a)) &&
    (OpenTo(f, Last(f, p), a) ==> OpenTo(g, Last(g, p), a))
  }

  lemma ResyncStays(f: Fleet, keys: map<Agent, string>, reach: set<Agent>, p: Agent, a: Agent)
    requires KeysStay(f, keys, reach) && HasIdentityRow(f, a) && Known(f, p) && p != a
    requires Last(f, p).a2a.Some? && References(Last(f, p).a2a.value, a)
    ensures WayStays(f, Store(f, Restrict(ResyncJobs(f, f.strict, keys), reach)), p, a)
  {
    hide ResyncDoc, Identities;
    var jobs := Restrict(ResyncJobs(f, f.strict, keys), reach);
    StoredLast(f, f, jobs, p);
    if p in jobs {
      var i :| 0 <= i < |f.rows| && f.rows[i].kind.A2aIdentity? && f.rows[i].agent == a;
      assert f.strict && f.rows[i].agent != p ==> Stays(f, p, keys, f.rows[i].agent);
      ResyncEntries(Last(f, p).a2a.value, p, f.strict, keys, Identities(f), a);
    }
  }

  /** No action takes from a rotated agent the way into a document that names it. */
  lemma WayStaysStep(f: Fleet, x: Action, p: Agent, a: Agent)
    requires Enabled(f, x) && HasIdentityRow(f, a) && Known(f, p) && p != a && Do(f, x).strict == f.strict
    requires Last(f, p).a2a.Some? && References(Last(f, p).a2a.value, a)
    ensures WayStays(f, Do(f, x), p, a)
  {
    hide HasIdentityRow, KeysStay, References;
    if x.AResync? {
      ResyncWay(f, x, p, a);
    } else {
      hide Do, Enabled;
      StepGentle(f, x, p);
    }
  }

  lemma ResyncWay(f: Fleet, x: Action, p: Agent, a: Agent)
    requires Enabled(f, x) && x.AResync? && HasIdentityRow(f, a) && Known(f, p) && p != a
    requires Last(f, p).a2a.Some? && References(Last(f, p).a2a.value, a)
    ensures WayStays(f, Do(f, x), p, a)
  {
    hide ResyncJobs, Store, KeysStay, HasIdentityRow, References, WayStays;
    ResyncStays(f, x.keys, x.reach, p, a);
  }

  /** A peer's newest bundle after a step takes every key its newest bundle before took, as long as the target may present it. */
  lemma NewestTakes(f: Fleet, g: Fleet, i: nat, e: LedgerEntry, k: Key)
    requires i < |f.rows| && i < |g.rows| && Moves(f, g) && RowMoves(f.rows[i], g.rows[i]) && e in f.rows[i].peers
    requires 1 <= e.version <= Versions(f, e.agent) <= Versions(g, e.agent)
    requires PeersOk(f, i) && PeersOk(g, i) && f.rows[i].kind.A2aIdentity?
    requires WayStays(f, g, e.agent, f.rows[i].agent)
    requires Takes(f, Last(f, e.agent), f.rows[i].agent, k)
    requires g.rows[i].status.AwaitingRevoke? || g.rows[i].status.Completed? ==> k == NewKey(g, i)
    ensures Takes(g, Last(g, e.agent), f.rows[i].agent, k)
  {
    assert PeerVersionOk(f, i, At(f, e.agent, Versions(f, e.agent)));
    assert PeerVersionOk(g, i, At(g, e.agent, Versions(g, e.agent)));
  }

  /** One step later the two devices' bundles still fit, whichever of them is new. */
  lemma FitsAfter(f: Fleet, g: Fleet, a: Agent, p: Agent, i: nat, e: LedgerEntry, x: nat, y: nat)
    requires Inv(f) && Inv(g) && Moves(f, g) && Served(f, a, p) && i < |f.rows| && f.rows[i].agent == a && f.rows[i].kind.A2aIdentity?
    requires IsCurrent(f, i) && IsCurrent(g, i) && e in f.rows[i].peers && e.agent == p
    requires WayStays(f, g, p, a)
    requires Offers(g, a, x) && Offers(g, p, y)
    ensures Fits(g, a, x, p, y)
  {
    hide Inv, Served, Fits;
    InvRow(f, i);
    InvRow(g, i);
    InvDevice(f, a);
    InvDevice(g, a);
    InvDevice(f, p);
    InvDevice(g, p);
    assert RowMoves(f.rows[i], g.rows[i]);
    if g.rows[i].status.AwaitingRevoke? || g.rows[i].status.Completed? {
      TargetOffersNew(g, i, x);
      OfferedFits(g, i, e, y);
      OfferedOpen(f, g, a, p, y);
      VersionTakes(g, i, At(g, p, y), NewKey(g, i));
      assert Fits(g, a, x, p, y) by { FitsIs(g, a, x, p, y); }
    } else {
      FitsBeforeConfirm(f, g, a, p, i, e, x, y);
    }
  }

  lemma FitsIs(f: Fleet, a: Agent, x: nat, p: Agent, y: nat)
    requires 1 <= x <= Versions(f, a) && 1 <= y <= Versions(f, p)
    ensures Fits(f, a, x, p, y) <==> IdentityOf(At(f, a, x)) != "" && Takes(f, At(f, p, y), a, IdentityOf(At(f, a, x)))
  {
  }

  lemma FitsBeforeConfirm(f: Fleet, g: Fleet, a: Agent, p: Agent, i: nat, e: LedgerEntry, x: nat, y: nat)
    requires Moves(f, g) && Served(f, a, p) && i < |f.rows| && f.rows[i].agent == a && f.rows[i].kind.A2aIdentity?
    requires e in f.rows[i].peers && e.agent == p && RowMoves(f.rows[i], g.rows[i])
    requires RowShape(f, i) && IdentityRowOk(f, i) && RowShape(g, i) && IdentityRowOk(g, i)
    requires a in f.devices && p in f.devices && a in g.devices && p in g.devices
    requires DeviceOk(f, a) && DeviceOk(g, a) && DeviceOk(f, p) && DeviceOk(g, p)
    requires Known(f, a) && WayStays(f, g, p, a)
    requires g.rows[i].status.Delivering? || g.rows[i].status.AwaitingTarget?
    requires Offers(g, a, x) && Offers(g, p, y)
    ensures Fits(g, a, x, p, y)
  {
    hide Fits, Served;
    var n, m := Versions(f, a), Versions(f, p);
    var r := g.rows[i];
    var k := IdentityOf(At(g, a, x));
    if x > n {
      assert TargetVersionOk(g, i, Last(g, a));
      if PeersAt(g, i) || y > m {
        OfferedFits(g, i, e, y);
        OfferedOpen(f, g, a, p, y);
        VersionTakes(g, i, At(g, p, y), k);
      } else {
        OldKeyBefore(f, g, i);
        ServedFits(f, a, p, n, y);
      }
    } else {
      ServedFits(f, a, p, x, m);
      if y > m { NewestTakes(f, g, i, e, k); } else { ServedFits(f, a, p, x, y); }
    }
    FitsIs(g, a, x, p, y);
  }

  /** Whatever a served peer offers one step later is still open to the agent. */
  lemma OfferedOpen(f: Fleet, g: Fleet, a: Agent, p: Agent, y: nat)
    requires Moves(f, g) && Served(f, a, p) && WayStays(f, g, p, a) && Known(f, a) && a in f.devices
    requires p in f.devices && p in g.devices && DeviceOk(f, p) && DeviceOk(g, p) && Offers(g, p, y)
    ensures OpenTo(g, At(g, p, y), a)
  {
    hide Served;
    var n, m := Versions(f, a), Versions(f, p);
    ServedFits(f, a, p, n, m);
    if y <= m {
      assert f.history[p] <= g.history[p];
      ServedFits(f, a, p, n, y);
    }
  }

  /** While a ledger peer is behind, the target's newest bundle presents the old key, before the step as after it. */
  lemma OldKeyBefore(f: Fleet, g: Fleet, i: nat)
    requires Moves(f, g) && i < |f.rows| && i < |g.rows| && RowMoves(f.rows[i], g.rows[i]) && f.rows[i].kind.A2aIdentity?
    requires IdentityRowOk(f, i) && IdentityRowOk(g, i) && !PeersAt(g, i) && g.rows[i].Open()
    requires Known(f, f.rows[i].agent) && Known(g, f.rows[i].agent)
    ensures IdentityOf(Last(f, f.rows[i].agent)) == IdentityOf(Last(g, f.rows[i].agent)) == g.rows[i].oldToken
  {
    assert !PeersAt(f, i);
    assert TargetVersionOk(f, i, Last(f, f.rows[i].agent)) && TargetVersionOk(g, i, Last(g, f.rows[i].agent));
  }

  lemma ServedFits(f: Fleet, a: Agent, p: Agent, x: nat, y: nat)
    requires Served(f, a, p) && Offers(f, a, x) && Offers(f, p, y)
    ensures IdentityOf(At(f, a, x)) != "" && Takes(f, At(f, p, y), a, IdentityOf(At(f, a, x)))
  {
    assert Fits(f, a, x, p, y);
  }

  /** A start stores no bundle of the target and leaves the mesh's switch as it is. */
  lemma StartLeavesTarget(f: Fleet, a: Agent, minted: Key)
    requires NextSuffix(f, A2aIdentity, a).Some?
    ensures Versions(StartIdentity(f, a, minted), a) == Versions(f, a) && StartIdentity(f, a, minted).strict == f.strict
  {
    hide NextSuffix;
    NotItsOwnPeer(f, a, minted);
    StoreVersions(Mint(f, MeshRotation(a, NextSuffix(f, A2aIdentity, a).value), minted), OverlapJobs(f, a, minted, CurrentIdentity(f, a)));
  }

  lemma NotItsOwnPeer(f: Fleet, a: Agent, minted: Key)
    ensures a !in OverlapJobs(f, a, minted, CurrentIdentity(f, a))
  {
  }

  /** What a start leaves: the same disks, one more row, longer histories for the ledger's peers only. */
  lemma StartFacts(f: Fleet, a: Agent, minted: Key)
    requires Inv(f) && CanStartIdentity(f, a, minted)
    ensures StartIdentity(f, a, minted).devices == f.devices
    ensures StartIdentity(f, a, minted).rows == f.rows + [IdentityRow(f, a, minted)]
    ensures NewestRow(StartIdentity(f, a, minted).rows, a, A2aIdentity) == Some(|f.rows|)
    ensures forall d, x: nat :: 1 <= x <= Versions(f, d) ==>
              x <= Versions(StartIdentity(f, a, minted), d) && At(StartIdentity(f, a, minted), d, x) == At(f, d, x)
    ensures forall p :: p in LedgerNames(IdentityRow(f, a, minted).peers) <==> IsReferencing(f, a, p)
    ensures forall e :: e in IdentityRow(f, a, minted).peers ==> e.version == Versions(f, e.agent) + 1
  {
    hide Inv, OverlapJobs, NextSuffix;
    var g := StartIdentity(f, a, minted);
    StoreVersions(Mint(f, MeshRotation(a, NextSuffix(f, A2aIdentity, a).value), minted), OverlapJobs(f, a, minted, CurrentIdentity(f, a)));
    LedgerEntries(f, a);
    var j := |f.rows|;
    var m := Mint(f, MeshRotation(a, NextSuffix(f, A2aIdentity, a).value), minted);
    var h := Store(m, OverlapJobs(f, a, minted, CurrentIdentity(f, a)));
    forall d, x: nat | 1 <= x <= Versions(f, d) ensures x <= Versions(g, d) && At(g, d, x) == At(f, d, x) {
      assert m.history == f.history && g.history == h.history;
      assert d in m.history && m.history[d] <= h.history[d];
      assert h.history[d][x - 1] == m.history[d][x - 1];
    }
    assert forall d :: Versions(f, d) <= Versions(g, d);
    assert forall d, x: nat :: 1 <= x <= Versions(f, d) ==> At(g, d, x) == At(f, d, x);
    assert g.rows[j] == IdentityRow(f, a, minted);
    forall p | IsReferencing(f, a, p) ensures p in LedgerNames(IdentityRow(f, a, minted).peers) {
      assert LedgerEntry(p, Versions(f, p) + 1) in IdentityRow(f, a, minted).peers;
    }
  }

  /** Starting the next rotation of a finds every served peer again, and everything still takes its old key. */
  lemma ServedAcrossStart(f: Fleet, a: Agent, p: Agent, minted: Key)
    requires Inv(f) && CanStartIdentity(f, a, minted) && Served(f, a, p)
    ensures Inv(StartIdentity(f, a, minted)) && Served(StartIdentity(f, a, minted), a, p)
  {
    hide Inv, StartIdentity, NextSuffix, IsReferencing, Served, Fits;
    StartIdentityKeeps(f, a, minted);
    assert LedgerPeer(f, a, p) && p in f.devices && f.devices[p].a2aAt != 0 by { ServedPeer(f, a, p); }
    var i, e := NewestFacts(f, a, p);
    assert f.rows[i].status.Completed?;
    PeerReferences(f, i, e);
    StartFacts(f, a, minted);
    StartLeavesTarget(f, a, minted);
    var g := StartIdentity(f, a, minted);
    var j := |f.rows|;
    InvRow(g, j);
    InvDevice(g, a);
    InvDevice(g, p);
    var d: LedgerEntry :| d in g.rows[j].peers && d.agent == p;
    forall x: nat, y: nat | Offers(g, a, x) && Offers(g, p, y) ensures Fits(g, a, x, p, y) {
      assert Offers(f, a, x);
      TargetOffersNew(f, i, x);
      FitsIs(g, a, x, p, y);
      if y <= Versions(f, p) {
        ServedFits(f, a, p, x, y);
      } else {
        OfferedFits(g, j, d, y);
        StartedOpen(f, a, p, minted);
        VersionTakes(g, j, At(g, p, y), g.rows[j].oldToken);
      }
    }
    ServedIs(g, a, p);
  }

  /** The overlap bundle is as open to the agent as the bundle it was rendered from. */
  lemma StartedOpen(f: Fleet, a: Agent, p: Agent, minted: Key)
    requires CanStartIdentity(f, a, minted) && Served(f, a, p) && Known(f, p) && a in f.devices
    ensures var g := StartIdentity(f, a, minted); Known(g, p) && OpenTo(g, Last(g, p), a)
  {
    hide Served, StartIdentity, NextSuffix;
    CanSuffix(f, a, minted);
    ServedPeer(f, a, p);
    RegistrarGentle(f, AStartIdentity(a, minted), p);
    StartLeavesTarget(f, a, minted);
    ServedFits(f, a, p, Versions(f, a), Versions(f, p));
  }

  lemma CanSuffix(f: Fleet, a: Agent, minted: Key)
    requires CanStartIdentity(f, a, minted)
    ensures NextSuffix(f, A2aIdentity, a).Some? && Known(f, a) && CurrentIdentity(f, a) != "" && Fresh(f, minted)
  {
  }

  lemma ServedPeer(f: Fleet, a: Agent, p: Agent)
    requires Served(f, a, p)
    ensures LedgerPeer(f, a, p) && p in f.devices && f.devices[p].a2aAt != 0
  {
  }

  lemma ServedIs(f: Fleet, a: Agent, p: Agent)
    requires LedgerPeer(f, a, p) && p in f.devices && f.devices[p].a2aAt != 0
    requires forall x: nat, y: nat :: Offers(f, a, x) && Offers(f, p, y) ==> Fits(f, a, x, p, y)
    ensures Served(f, a, p)
  {
  }

  lemma PeerReferences(f: Fleet, i: nat, e: LedgerEntry)
    requires i < |f.rows| && PeersOk(f, i) && e in f.rows[i].peers && 1 <= e.version <= Versions(f, e.agent)
    requires e.agent in f.history && e.agent != f.rows[i].agent
    ensures IsReferencing(f, f.rows[i].agent, e.agent)
  {
    assert PeerVersionOk(f, i, At(f, e.agent, Versions(f, e.agent)));
  }

  lemma ServedStep(f: Fleet, x: Action, a: Agent, p: Agent)
    requires Inv(f) && Enabled(f, x) && Served(f, a, p)
    ensures Inv(Do(f, x)) && Served(Do(f, x), a, p)
  {
    hide Inv, Do, Enabled, Served, Moves;
    StepKeeps(f, x);
    StepMoves(f, x);
    if x.AStartIdentity? && x.agent == a {
      ServedAgain(f, x, p);
    } else {
      NewestStep(f, x, a);
      ServedPeer(f, a, p);
      var i, e := NewestFacts(f, a, p);
      NewestNames(f, i, e);
      assert HasIdentityRow(f, a);
      MovesKnown(f, Do(f, x), p);
      WayStaysStep(f, x, p, a);
      ServedStays(f, Do(f, x), a, p);
    }
  }

  /** A ledger peer's newest document names the rotated agent. */
  lemma NewestNames(f: Fleet, i: nat, e: LedgerEntry)
    requires i < |f.rows| && PeersOk(f, i) && e in f.rows[i].peers && 1 <= e.version <= Versions(f, e.agent)
    ensures Last(f, e.agent).a2a.Some? && References(Last(f, e.agent).a2a.value, f.rows[i].agent)
  {
    assert PeerVersionOk(f, i, At(f, e.agent, Versions(f, e.agent)));
  }

  lemma MovesKnown(f: Fleet, g: Fleet, p: Agent)
    requires Moves(f, g) && Known(f, p)
    ensures Known(g, p) && g.strict == f.strict
  {
    assert f.history[p] <= g.history[p];
  }

  lemma ServedAgain(f: Fleet, x: Action, p: Agent)
    requires Inv(f) && Enabled(f, x) && x.AStartIdentity? && Served(f, x.agent, p)
    ensures Served(Do(f, x), x.agent, p)
  {
    hide Inv, Served, StartIdentity, CanStartIdentity;
    ServedAcrossStart(f, x.agent, p, x.minted);
  }

  lemma ServedStays(f: Fleet, g: Fleet, a: Agent, p: Agent)
    requires Inv(f) && Inv(g) && Moves(f, g) && NewestRow(g.rows, a, A2aIdentity) == NewestRow(f.rows, a, A2aIdentity)
    requires Served(f, a, p) && WayStays(f, g, p, a)
    ensures Served(g, a, p)
  {
    hide Inv, Fits, Served;
    ServedPeer(f, a, p);
    var i, e := NewestFacts(f, a, p);
    assert RowMoves(f.rows[i], g.rows[i]);
    assert LedgerPeer(g, a, p);
    var j, d := NewestFacts(g, a, p);
    forall x: nat, y: nat | Offers(g, a, x) && Offers(g, p, y) ensures Fits(g, a, x, p, y) {
      FitsAfter(f, g, a, p, i, e, x, y);
    }
    ServedIs(g, a, p);
  }
}
