/** What every reachable fleet state keeps, and the proof that every action keeps it. */
module FleetInvariant {
  import opened A2aDoc
  import opened Fleet

  // -------------------------------------------------------------------- statement

  /** No later row of the same agent and kind. */
  ghost predicate IsCurrent(f: Fleet, i: nat) {
    i < |f.rows| &&
    forall j :: i < j < |f.rows| ==> !(f.rows[j].agent == f.rows[i].agent && f.rows[j].kind == f.rows[i].kind)
  }

  predicate MeshAliasOf(al: Alias, a: Agent) {
    al.agent == a && (al.MeshBase? || al.MeshRotation? || al.HandMesh?)
  }

  predicate ModelAliasOf(al: Alias, a: Agent) {
    al.agent == a && (al.ModelBase? || al.ModelRotation? || al.HandModel?)
  }

  /** Issued, and still held by the gateway under the alias it was issued for. */
  predicate LiveKey(f: Fleet, k: Key) {
    k in f.issued && f.issued[k] in f.live && f.live[f.issued[k]] == k
  }

  ghost predicate Shape(f: Fleet) {
    (forall d :: d in f.order <==> d in f.history) &&
    (forall i, j :: 0 <= i < j < |f.order| ==> f.order[i] != f.order[j]) &&
    f.history.Keys == f.devices.Keys && f.reports.Keys <= f.devices.Keys && f.active <= f.history.Keys &&
    (forall d :: d in f.history ==> |f.history[d]| > 0)
  }

  /** Reports lag the snapshot, the snapshot lags the files, the files lag the registrar. */
  ghost predicate DeviceOk(f: Fleet, d: Agent)
    requires d in f.devices
  {
    var v := f.devices[d];
    v.localAt <= v.snapAt && v.snapAt <= v.a2aAt && v.snapAt <= v.envAt &&
    v.a2aAt <= Versions(f, d) && v.envAt <= Versions(f, d) &&
    (v.fetched != 0 ==> v.a2aAt <= v.fetched && v.envAt <= v.fetched && v.fetched <= Versions(f, d)) &&
    (d in f.reports ==> f.reports[d] <= v.snapAt)
  }

  ghost predicate Disks(f: Fleet) {
    forall d :: d in f.devices ==> DeviceOk(f, d)
  }

  /**
   * Every key in a bundle was issued to that very agent, for that very purpose; and its document is
   * strict only while the switch is on.
   */
  ghost predicate BundleOk(f: Fleet, d: Agent, b: Bundle) {
    (IdentityOf(b) != "" ==> IdentityOf(b) in f.issued && MeshAliasOf(f.issued[IdentityOf(b)], d)) &&
    (b.modelKey != "" ==> b.modelKey in f.issued && ModelAliasOf(f.issued[b.modelKey], d)) &&
    (IsStrict(b) ==> f.strict)
  }

  ghost predicate KeysOk(f: Fleet) {
    "" !in f.issued &&
    (forall al :: al in f.live ==> f.live[al] in f.issued && f.issued[f.live[al]] == al) &&
    (forall d, x :: 1 <= x <= Versions(f, d) ==> BundleOk(f, d, At(f, d, x)))
  }

  /** Whatever a device runs, or can still fetch, is live at the gateway. */
  ghost predicate PresentedLive(f: Fleet) {
    forall d, x :: d in f.devices && 1 <= x <= Versions(f, d) ==>
      (f.devices[d].a2aAt <= x && IdentityOf(At(f, d, x)) != "" ==> LiveKey(f, IdentityOf(At(f, d, x)))) &&
      (f.devices[d].envAt <= x && At(f, d, x).modelKey != "" ==> LiveKey(f, At(f, d, x).modelKey))
  }

  /** Every ledger peer's disk is at or above its ledger version. */
  ghost predicate PeersAt(f: Fleet, i: nat)
    requires i < |f.rows|
  {
    forall e :: e in f.rows[i].peers ==> e.agent in f.devices && f.devices[e.agent].snapAt >= e.version
  }

  ghost predicate TargetAt(f: Fleet, i: nat)
    requires i < |f.rows|
  {
    f.rows[i].agent in f.devices && f.devices[f.rows[i].agent].snapAt >= f.rows[i].newVersion
  }

  /** The key the rotation leads to; the registry forgets it at completion, the target's bundle does not. */
  function NewKey(f: Fleet, i: nat): Key
    requires i < |f.rows|
  {
    if f.rows[i].Open() then f.rows[i].newToken else CurrentIdentity(f, f.rows[i].agent)
  }

  /** The token pair a receiver needs for the rotating agent. */
  ghost predicate TokensOk(f: Fleet, i: nat, b: Bundle)
    requires i < |f.rows| && b.a2a.Some?
  {
    var r := f.rows[i];
    r.agent in b.a2a.value.tokens &&
    if !r.Open() then Accepts(b.a2a.value, r.agent, NewKey(f, i))
    else b.a2a.value.tokens[r.agent] == r.newToken &&
         (r.status.AwaitingRevoke? || (r.agent in b.a2a.value.overlap && b.a2a.value.overlap[r.agent] == r.oldToken))
  }

  /** What a bundle version at or above the ledger version carries for the rotating agent. */
  ghost predicate PeerVersionOk(f: Fleet, i: nat, b: Bundle)
    requires i < |f.rows|
  {
    b.a2a.Some? && (Signs(f, b, f.rows[i].agent) || TokensOk(f, i, b))
  }

  ghost predicate PeersOk(f: Fleet, i: nat)
    requires i < |f.rows|
  {
    forall e, x :: e in f.rows[i].peers && 1 <= e.version <= x <= Versions(f, e.agent) ==>
      PeerVersionOk(f, i, At(f, e.agent, x))
  }

  /** Before the flip is recorded the target's bundle holds OLD, or NEW once every peer has confirmed. */
  ghost predicate TargetVersionOk(f: Fleet, i: nat, b: Bundle)
    requires i < |f.rows|
  {
    var r := f.rows[i];
    b.a2a.Some? &&
    if r.status.Delivering? then IdentityOf(b) == r.oldToken || (IdentityOf(b) == r.newToken && PeersAt(f, i))
    else IdentityOf(b) == NewKey(f, i)
  }

  ghost predicate TargetOk(f: Fleet, i: nat)
    requires i < |f.rows|
  {
    var r := f.rows[i];
    Known(f, r.agent) && TargetVersionOk(f, i, Last(f, r.agent)) &&
    if r.status.Delivering? then
      forall x :: 1 <= x <= Versions(f, r.agent) && IdentityOf(At(f, r.agent, x)) == r.newToken ==> PeersAt(f, i)
    else
      NewKey(f, i) != "" &&
      forall x :: 1 <= r.newVersion <= x <= Versions(f, r.agent) ==> TargetVersionOk(f, i, At(f, r.agent, x))
  }

  /** Columns that never depend on the bundles. */
  ghost predicate RowShape(f: Fleet, i: nat)
    requires i < |f.rows|
  {
    var r := f.rows[i];
    r.agent in f.history && (r.Open() ==> IsCurrent(f, i)) && r.newVersion <= Versions(f, r.agent) &&
    (forall e :: e in r.peers ==> e.agent != r.agent && e.agent in f.history && 1 <= e.version <= Versions(f, e.agent)) &&
    if r.kind.A2aIdentity? then
      r.oldAlias == MeshBase(r.agent) && r.newAlias.MeshRotation? && r.newAlias.agent == r.agent &&
      (r.status.Delivering? <==> r.newVersion == 0) &&
      (r.Open() ==> r.oldToken != "" && r.newToken != "" && r.oldToken != r.newToken) &&
      (!r.Open() ==> r.oldToken == "" && r.newToken == "")
    else
      r.newAlias.ModelRotation? && r.newAlias.agent == r.agent && ModelAliasOf(r.oldAlias, r.agent) &&
      r.oldAlias != r.newAlias && r.oldAlias == CurrentModelAlias(f.rows[..i], r.agent) &&
      r.newVersion >= 1 && r.peers == [] && !r.status.AwaitingTarget? && r.oldToken == "" && r.newToken == ""
  }

  ghost predicate IdentityRowOk(f: Fleet, i: nat)
    requires i < |f.rows|
  {
    var r := f.rows[i];
    PeersOk(f, i) && TargetOk(f, i) &&
    (r.Open() ==> LiveKey(f, r.newToken) && MeshAliasOf(f.issued[r.newToken], r.agent) &&
                  r.oldToken in f.issued && MeshAliasOf(f.issued[r.oldToken], r.agent)) &&
    (!r.status.Delivering? ==> PeersAt(f, i)) &&
    (r.status.AwaitingRevoke? || r.status.Completed? ==> TargetAt(f, i))
  }

  ghost predicate ModelVersionOk(f: Fleet, i: nat, b: Bundle)
    requires i < |f.rows|
  {
    b.modelKey != "" && b.modelKey in f.issued && f.issued[b.modelKey] == f.rows[i].newAlias
  }

  ghost predicate ModelRowOk(f: Fleet, i: nat)
    requires i < |f.rows|
  {
    var r := f.rows[i];
    r.newAlias in f.live &&
    (r.Open() ==> forall x :: 1 <= r.newVersion <= x <= Versions(f, r.agent) ==> ModelVersionOk(f, i, At(f, r.agent, x))) &&
    (!r.status.Delivering? ==> TargetAt(f, i))
  }

  ghost predicate RowOk(f: Fleet, i: nat)
    requires i < |f.rows|
  {
    RowShape(f, i) &&
    (IsCurrent(f, i) ==> if f.rows[i].kind.A2aIdentity? then IdentityRowOk(f, i) else ModelRowOk(f, i))
  }

  ghost predicate Rows(f: Fleet) {
    forall i :: 0 <= i < |f.rows| ==> RowOk(f, i)
  }

  ghost predicate Inv(f: Fleet) {
    Shape(f) && Disks(f) && KeysOk(f) && PresentedLive(f) && Rows(f)
  }

  // ----------------------------------------------------------- growing from f to g

  /** g keeps every stored version, every issued key and every row of f; snapshots only advance. */
  ghost predicate Grows(f: Fleet, g: Fleet) {
    g.rows == f.rows && g.strict == f.strict &&
    (forall d :: d in f.history ==> d in g.history && f.history[d] <= g.history[d]) &&
    (forall d :: d in f.devices ==> d in g.devices && f.devices[d].snapAt <= g.devices[d].snapAt) &&
    (forall k :: k in f.issued ==> k in g.issued && g.issued[k] == f.issued[k])
  }

  lemma GrowsVersions(f: Fleet, g: Fleet)
    requires Grows(f, g)
    ensures forall d :: Versions(f, d) <= Versions(g, d)
    ensures forall d, x :: 1 <= x <= Versions(f, d) ==> At(g, d, x) == At(f, d, x)
  {
    forall d, x | 1 <= x <= Versions(f, d) ensures At(g, d, x) == At(f, d, x) {
      assert f.history[d] <= g.history[d];
    }
  }

  /** The versions g adds satisfy what row i asks of them. */
  ghost predicate AdditionsOk(f: Fleet, g: Fleet, i: nat)
    requires i < |f.rows|
  {
    var r := f.rows[i];
    if r.kind.A2aIdentity? then
      (forall e, x :: e in r.peers && Versions(f, e.agent) < x <= Versions(g, e.agent) ==> PeerVersionOk(f, i, At(g, e.agent, x))) &&
      (forall x :: Versions(f, r.agent) < x <= Versions(g, r.agent) ==> TargetVersionOk(f, i, At(g, r.agent, x)))
    else
      r.Open() ==> forall x :: Versions(f, r.agent) < x <= Versions(g, r.agent) ==> ModelVersionOk(f, i, At(g, r.agent, x))
  }

  /** The gateway still holds what row i leads to. */
  ghost predicate GatewayKeeps(f: Fleet, g: Fleet, i: nat)
    requires i < |f.rows|
  {
    if f.rows[i].kind.A2aIdentity? then f.rows[i].Open() ==> LiveKey(g, f.rows[i].newToken)
    else f.rows[i].newAlias in g.live
  }

  lemma SameNewKey(f: Fleet, g: Fleet, i: nat)
    requires i < |f.rows| && Grows(f, g) && RowOk(f, i) && IsCurrent(f, i) && f.rows[i].kind.A2aIdentity? && AdditionsOk(f, g, i)
    ensures Known(f, f.rows[i].agent) && Known(g, f.rows[i].agent)
    ensures NewKey(g, i) == NewKey(f, i)
  {
    GrowsVersions(f, g);
    var a := f.rows[i].agent;
    assert IdentityRowOk(f, i);
    if !f.rows[i].Open() && Versions(g, a) > Versions(f, a) {
      assert TargetVersionOk(f, i, At(g, a, Versions(g, a)));
    }
  }

  lemma PeersGrow(f: Fleet, g: Fleet, i: nat)
    requires i < |f.rows| && Grows(f, g) && RowOk(f, i) && IsCurrent(f, i) && f.rows[i].kind.A2aIdentity? && AdditionsOk(f, g, i)
    ensures PeersOk(g, i)
    ensures PeersAt(f, i) ==> PeersAt(g, i)
  {
    GrowsVersions(f, g);
    SameNewKey(f, g, i);
    forall e, x | e in f.rows[i].peers && 1 <= e.version <= x <= Versions(g, e.agent)
      ensures PeerVersionOk(g, i, At(g, e.agent, x))
    {
      assert PeerVersionOk(f, i, At(g, e.agent, x));
    }
  }

  lemma TargetGrows(f: Fleet, g: Fleet, i: nat)
    requires i < |f.rows| && Grows(f, g) && RowOk(f, i) && IsCurrent(f, i) && f.rows[i].kind.A2aIdentity? && AdditionsOk(f, g, i)
    ensures TargetOk(g, i)
  {
    GrowsVersions(f, g);
    SameNewKey(f, g, i);
    PeersGrow(f, g, i);
    var r := f.rows[i];
    var a := r.agent;
    assert IdentityRowOk(f, i) && TargetOk(f, i);
    var n := Versions(g, a);
    assert TargetVersionOk(f, i, At(g, a, n));
    if r.status.Delivering? {
      forall x | 1 <= x <= n && IdentityOf(At(g, a, x)) == r.newToken ensures PeersAt(g, i) {
        if x > Versions(f, a) { assert TargetVersionOk(f, i, At(g, a, x)); }
      }
    } else {
      forall x | 1 <= r.newVersion <= x <= n ensures TargetVersionOk(g, i, At(g, a, x)) {
        assert TargetVersionOk(f, i, At(g, a, x));
      }
    }
  }

  lemma RowGrows(f: Fleet, g: Fleet, i: nat)
    requires i < |f.rows| && Grows(f, g) && RowOk(f, i)
    requires IsCurrent(f, i) ==> AdditionsOk(f, g, i) && GatewayKeeps(f, g, i)
    ensures RowOk(g, i)
  {
    GrowsVersions(f, g);
    assert IsCurrent(g, i) == IsCurrent(f, i);
    var r := f.rows[i];
    assert RowShape(g, i) by {
      forall e | e in r.peers ensures 1 <= e.version <= Versions(g, e.agent) {
        assert Versions(f, e.agent) <= Versions(g, e.agent);
      }
      assert Versions(f, r.agent) <= Versions(g, r.agent);
    }
    if IsCurrent(f, i) {
      if r.kind.A2aIdentity? {
        PeersGrow(f, g, i);
        TargetGrows(f, g, i);
      } else {
        forall x | r.Open() && 1 <= r.newVersion <= x <= Versions(g, r.agent)
          ensures ModelVersionOk(g, i, At(g, r.agent, x))
        {
          assert ModelVersionOk(f, i, At(g, r.agent, x));
        }
      }
    }
  }

  // --------------------------------------------------------------- storing bundles

  ghost predicate LegalForRow(f: Fleet, i: nat, d: Agent, b: Bundle)
    requires i < |f.rows|
  {
    var r := f.rows[i];
    if r.kind.A2aIdentity? then
      (forall e :: e in r.peers && e.agent == d ==> PeerVersionOk(f, i, b)) && (r.agent == d ==> TargetVersionOk(f, i, b))
    else
      r.agent == d && r.Open() ==> ModelVersionOk(f, i, b)
  }

  /** A bundle that may become the next version of d. */
  ghost predicate Legal(f: Fleet, d: Agent, b: Bundle) {
    BundleOk(f, d, b) &&
    (IdentityOf(b) != "" ==> LiveKey(f, IdentityOf(b))) && (b.modelKey != "" ==> LiveKey(f, b.modelKey)) &&
    (forall i :: 0 <= i < |f.rows| && IsCurrent(f, i) ==> LegalForRow(f, i, d, b))
  }

  ghost predicate AllLegal(f: Fleet, jobs: map<Agent, Bundle>) {
    forall d :: d in jobs && d in f.history ==> Legal(f, d, jobs[d])
  }

  lemma StoreVersions(f: Fleet, jobs: map<Agent, Bundle>)
    ensures forall d :: d !in jobs || d !in f.history ==> Versions(Store(f, jobs), d) == Versions(f, d)
    ensures forall d :: d in jobs && d in f.history ==> Versions(Store(f, jobs), d) == Versions(f, d) + 1
    ensures forall d :: d in jobs && d in f.history ==> Last(Store(f, jobs), d) == jobs[d]
    ensures forall d, x :: 1 <= x <= Versions(f, d) ==> At(Store(f, jobs), d, x) == At(f, d, x)
    ensures Grows(f, Store(f, jobs))
  {
  }

  lemma StoreKeepsRow(f: Fleet, jobs: map<Agent, Bundle>, i: nat)
    requires i < |f.rows| && RowOk(f, i) && AllLegal(f, jobs)
    ensures RowOk(Store(f, jobs), i)
  {
    hide PeerVersionOk, TargetVersionOk, ModelVersionOk, BundleOk, PeersOk, TargetOk;
    var g := Store(f, jobs);
    StoreVersions(f, jobs);
    if IsCurrent(f, i) {
      assert forall d :: d in jobs && d in f.history ==> LegalForRow(f, i, d, jobs[d]);
      assert AdditionsOk(f, g, i);
    }
    RowGrows(f, g, i);
  }

  lemma StoreKeepsKeys(f: Fleet, jobs: map<Agent, Bundle>)
    requires KeysOk(f) && PresentedLive(f) && AllLegal(f, jobs)
    ensures KeysOk(Store(f, jobs)) && PresentedLive(Store(f, jobs))
  {
    var g := Store(f, jobs);
    StoreVersions(f, jobs);
    forall d, x | 1 <= x <= Versions(g, d) ensures BundleOk(g, d, At(g, d, x)) {
      if x <= Versions(f, d) { assert BundleOk(f, d, At(f, d, x)); } else { assert Legal(f, d, jobs[d]); }
    }
    forall d, x | d in g.devices && 1 <= x <= Versions(g, d)
      ensures (g.devices[d].a2aAt <= x && IdentityOf(At(g, d, x)) != "" ==> LiveKey(g, IdentityOf(At(g, d, x)))) &&
              (g.devices[d].envAt <= x && At(g, d, x).modelKey != "" ==> LiveKey(g, At(g, d, x).modelKey))
    {
      if x > Versions(f, d) { assert Legal(f, d, jobs[d]); } else { assert At(f, d, x) == At(g, d, x); }
    }
  }

  lemma StoreKeeps(f: Fleet, jobs: map<Agent, Bundle>)
    requires Inv(f) && AllLegal(f, jobs)
    ensures Inv(Store(f, jobs))
  {
    var g := Store(f, jobs);
    StoreVersions(f, jobs);
    forall d | d in g.devices ensures DeviceOk(g, d) { assert DeviceOk(f, d); }
    StoreKeepsKeys(f, jobs);
    forall i | 0 <= i < |g.rows| ensures RowOk(g, i) { StoreKeepsRow(f, jobs, i); }
  }

  // --------------------------------------------------- steps that store no bundle

  /** Same bundles, no disk moved back, and every key still presented is still live. */
  lemma SamePresented(f: Fleet, g: Fleet)
    requires PresentedLive(f) && g.history == f.history && g.devices.Keys == f.devices.Keys
    requires forall d :: d in f.devices ==> f.devices[d].a2aAt <= g.devices[d].a2aAt && f.devices[d].envAt <= g.devices[d].envAt
    requires forall d, x :: d in f.devices && 1 <= x <= Versions(f, d) ==>
               (f.devices[d].a2aAt <= x && LiveKey(f, IdentityOf(At(f, d, x))) ==> LiveKey(g, IdentityOf(At(f, d, x)))) &&
               (f.devices[d].envAt <= x && LiveKey(f, At(f, d, x).modelKey) ==> LiveKey(g, At(f, d, x).modelKey))
    ensures PresentedLive(g)
  {
    forall d, x | d in g.devices && 1 <= x <= Versions(g, d)
      ensures (g.devices[d].a2aAt <= x && IdentityOf(At(g, d, x)) != "" ==> LiveKey(g, IdentityOf(At(g, d, x)))) &&
              (g.devices[d].envAt <= x && At(g, d, x).modelKey != "" ==> LiveKey(g, At(g, d, x).modelKey))
    {
      assert At(f, d, x) == At(g, d, x);
    }
  }

  /** Same bundles, same registry: disks may advance, the gateway may gain keys or lose unused ones. */
  ghost predicate Quiet(f: Fleet, g: Fleet) {
    Grows(f, g) && g.history == f.history && g.order == f.order && g.active == f.active &&
    g.devices.Keys == f.devices.Keys && g.reports.Keys <= g.devices.Keys &&
    "" !in g.issued && (forall al :: al in g.live ==> g.live[al] in g.issued && g.issued[g.live[al]] == al)
  }

  lemma QuietRows(f: Fleet, g: Fleet)
    requires Rows(f) && Grows(f, g) && g.history == f.history
    requires forall i :: 0 <= i < |f.rows| && IsCurrent(f, i) ==> GatewayKeeps(f, g, i)
    ensures Rows(g)
  {
    hide RowOk, GatewayKeeps, IsCurrent;
    forall i | 0 <= i < |g.rows| ensures RowOk(g, i) {
      assert RowOk(f, i);
      if IsCurrent(f, i) { NoAdditions(f, g, i); }
      RowGrows(f, g, i);
    }
  }

  lemma NoAdditions(f: Fleet, g: Fleet, i: nat)
    requires i < |f.rows| && g.history == f.history
    ensures AdditionsOk(f, g, i)
  {
  }

  lemma QuietKeys(f: Fleet, g: Fleet)
    requires KeysOk(f) && Quiet(f, g)
    ensures KeysOk(g)
  {
    forall d, x | 1 <= x <= Versions(g, d) ensures BundleOk(g, d, At(g, d, x)) { assert BundleOk(f, d, At(f, d, x)); }
  }

  lemma QuietKeeps(f: Fleet, g: Fleet)
    requires Inv(f) && Quiet(f, g) && Disks(g) && PresentedLive(g)
    requires forall i :: 0 <= i < |f.rows| && IsCurrent(f, i) ==> GatewayKeeps(f, g, i)
    ensures Inv(g)
  {
    hide Rows, KeysOk, PresentedLive, Disks;
    QuietRows(f, g);
    QuietKeys(f, g);
  }

  /** While nothing leaves the gateway, every row keeps what it leads to. */
  lemma GatewayOnlyGrows(f: Fleet, g: Fleet, i: nat)
    requires Rows(f) && i < |f.rows| && IsCurrent(f, i)
    requires (forall k :: LiveKey(f, k) ==> LiveKey(g, k)) && (forall al :: al in f.live ==> al in g.live)
    ensures GatewayKeeps(f, g, i)
  {
    assert RowOk(f, i);
  }

  lemma MintKeeps(f: Fleet, alias: Alias, key: Key)
    requires Inv(f) && Fresh(f, key) && alias !in f.live
    ensures Inv(Mint(f, alias, key))
    ensures LiveKey(Mint(f, alias, key), key) && forall k :: LiveKey(f, k) ==> LiveKey(Mint(f, alias, key), k)
  {
    hide Rows;
    var g := Mint(f, alias, key);
    assert forall k :: LiveKey(f, k) ==> LiveKey(g, k);
    forall d | d in g.devices ensures DeviceOk(g, d) { assert DeviceOk(f, d); }
    SamePresented(f, g);
    forall i | 0 <= i < |f.rows| && IsCurrent(f, i) ensures GatewayKeeps(f, g, i) { GatewayOnlyGrows(f, g, i); }
    QuietKeeps(f, g);
  }

  /** A key that no disk runs, no bundle still to be fetched carries and no open rotation leads to. */
  ghost predicate Unused(f: Fleet, key: Key) {
    (forall d, x :: d in f.devices && 1 <= x <= Versions(f, d) ==>
      (f.devices[d].a2aAt <= x ==> IdentityOf(At(f, d, x)) != key) &&
      (f.devices[d].envAt <= x ==> At(f, d, x).modelKey != key)) &&
    (forall i :: 0 <= i < |f.rows| && IsCurrent(f, i) ==>
      if f.rows[i].kind.A2aIdentity? then f.rows[i].Open() ==> f.rows[i].newToken != key
      else f.rows[i].newAlias in f.live ==> f.live[f.rows[i].newAlias] != key)
  }

  lemma DeleteKeeps(f: Fleet, key: Key)
    requires Inv(f) && Unused(f, key)
    ensures Inv(f.(live := DeleteKey(f.live, key)))
  {
    hide Rows;
    var g := f.(live := DeleteKey(f.live, key));
    assert forall k :: k != key && LiveKey(f, k) ==> LiveKey(g, k);
    forall d | d in g.devices ensures DeviceOk(g, d) { assert DeviceOk(f, d); }
    SamePresented(f, g);
    forall i | 0 <= i < |f.rows| && IsCurrent(f, i) ensures GatewayKeeps(f, g, i) { DeleteKeepsGoal(f, key, i); }
    QuietKeeps(f, g);
  }

  lemma DeleteKeepsGoal(f: Fleet, key: Key, i: nat)
    requires Inv(f) && Unused(f, key) && i < |f.rows| && IsCurrent(f, i)
    ensures GatewayKeeps(f, f.(live := DeleteKey(f.live, key)), i)
  {
    assert RowOk(f, i);
  }
}
