/**
 * The fleet as one value: the registrar's tables, the gateway's key table and every device's disk.
 * Each action below is one atomic transaction of the registrar, or one step of one device; a run is
 * any interleaving of them.  Actions carry a `reach` set where the registrar commits several bundle
 * transactions in a row and may stop between any two of them.
 */
module Fleet {
  import opened A2aDoc

  // ---------------------------------------------------------------------- state

  /**
   * The name under which the gateway knows a key.  The constructors keep different schemes and
   * different agents apart; Hand* are the credentials an operator minted by hand.
   */
  datatype Alias =
    | MeshBase(agent: Agent)
    | MeshRotation(agent: Agent, n: nat)
    | ModelBase(agent: Agent)
    | ModelRotation(agent: Agent, n: nat)
    | HandMesh(agent: Agent)
    | HandModel(agent: Agent)

  /** What a rotation can see of a bundle: config/a2a.json and the GATEWAY_API_KEY line of agent.env. */
  datatype Bundle = Bundle(a2a: Option<A2a>, modelKey: Key)

  datatype Kind = A2aIdentity | ModelKey
  datatype Status = Delivering | AwaitingTarget | AwaitingRevoke | Completed
  datatype LedgerEntry = LedgerEntry(agent: Agent, version: nat)

  /** One registry row; the row's id is its position.  A null token is "", a null version is 0. */
  datatype Row = Row(
    kind: Kind, agent: Agent, oldAlias: Alias, newAlias: Alias,
    oldToken: Key, newToken: Key, newVersion: nat,
    peers: seq<LedgerEntry>, status: Status, failed: bool)
  {
    predicate Open() { status != Completed }
  }

  /**
   * One device's data volume, as versions of the bundle each part was last written from (0 = never):
   * config/a2a.json, config/agent.env, the bundle snapshot; then the watcher's in-memory version and
   * the bundle it has fetched but not finished applying.
   */
  datatype Device = Device(a2aAt: nat, envAt: nat, snapAt: nat, localAt: nat, fetched: nat)

  /**
   * `order` is the devices table in scan order.  `history[d]` holds every bundle version of d ever
   * stored, version v at position v - 1; the registrar itself keeps only the last.  `issued` records
   * under which alias each key was minted, and is never consulted by any action's effect.  `strict` is
   * the mesh's strict switch, the same throughout a run.
   */
  datatype Fleet = Fleet(
    order: seq<Agent>, active: set<Agent>, history: map<Agent, seq<Bundle>>, rows: seq<Row>,
    reports: map<Agent, nat>, live: map<Alias, Key>, issued: map<Key, Alias>, devices: map<Agent, Device>,
    strict: bool)

  function Birth(strict: bool): Fleet { Fleet([], {}, map[], [], map[], map[], map[], map[], strict) }

  // ---------------------------------------------------------------- bundle store

  predicate Known(f: Fleet, d: Agent) {
    d in f.history && |f.history[d]| > 0
  }

  function Versions(f: Fleet, d: Agent): nat {
    if d in f.history then |f.history[d]| else 0
  }

  function At(f: Fleet, d: Agent, x: int): Bundle
    requires 1 <= x <= Versions(f, d)
  {
    f.history[d][x - 1]
  }

  function Last(f: Fleet, d: Agent): Bundle
    requires Known(f, d)
  {
    At(f, d, Versions(f, d))
  }

  function IdentityOf(b: Bundle): Key {
    if b.a2a.Some? then b.a2a.value.identityKey else ""
  }

  /** bundleIdentityKey of the stored bundle. */
  function CurrentIdentity(f: Fleet, d: Agent): Key {
    if Known(f, d) then IdentityOf(Last(f, d)) else ""
  }

  /** Store one further version for every device in `jobs`: rotateBundle, once per device. */
  function Store(f: Fleet, jobs: map<Agent, Bundle>): Fleet {
    f.(history := map d | d in f.history :: if d in jobs then f.history[d] + [jobs[d]] else f.history[d])
  }

  function Restrict(jobs: map<Agent, Bundle>, reach: set<Agent>): map<Agent, Bundle> {
    map d | d in jobs && d in reach :: jobs[d]
  }

  function WithDoc(b: Bundle, doc: A2a): Bundle { b.(a2a := Some(doc)) }

  // -------------------------------------------------------------- rotation lookup

  /** findOpenRotationByAgent: the newest open row of this agent and kind. */
  function OpenRow(rows: seq<Row>, a: Agent, kind: Kind): (r: Option<nat>)
    ensures r.Some? ==> r.value < |rows| && rows[r.value].agent == a && rows[r.value].kind == kind && rows[r.value].Open()
    ensures r.Some? ==> forall j :: r.value < j < |rows| && rows[j].agent == a && rows[j].kind == kind ==> !rows[j].Open()
    ensures r.None? ==> forall j :: 0 <= j < |rows| && rows[j].agent == a && rows[j].kind == kind ==> !rows[j].Open()
  {
    if rows == [] then None
    else
      var n := |rows| - 1;
      if rows[n].agent == a && rows[n].kind == kind && rows[n].Open() then Some(n)
      else OpenRow(rows[..n], a, kind)
  }

  /** The newest row of this agent and kind, open or not. */
  function NewestRow(rows: seq<Row>, a: Agent, kind: Kind): (r: Option<nat>)
    ensures r.Some? ==> r.value < |rows| && rows[r.value].agent == a && rows[r.value].kind == kind
    ensures r.Some? ==> forall j :: r.value < j < |rows| ==> !(rows[j].agent == a && rows[j].kind == kind)
    ensures r.None? ==> forall j :: 0 <= j < |rows| ==> !(rows[j].agent == a && rows[j].kind == kind)
  {
    if rows == [] then None
    else
      var n := |rows| - 1;
      if rows[n].agent == a && rows[n].kind == kind then Some(n) else NewestRow(rows[..n], a, kind)
  }

  /** countPriorRotations. */
  function PriorCount(rows: seq<Row>, a: Agent, kind: Kind): nat {
    if rows == [] then 0
    else
      var n := |rows| - 1;
      PriorCount(rows[..n], a, kind) + (if rows[n].agent == a && rows[n].kind == kind then 1 else 0)
  }

  function RotationAlias(kind: Kind, a: Agent, n: nat): Alias {
    if kind.A2aIdentity? then MeshRotation(a, n) else ModelRotation(a, n)
  }

  const PROBES := 20

  /** freshMeshAlias / freshModelAlias: the first suffix from n on that is not live, None after the probes. */
  function FreshSuffix(live: map<Alias, Key>, kind: Kind, a: Agent, n: nat, probes: nat): (r: Option<nat>)
    ensures r.Some? ==> RotationAlias(kind, a, r.value) !in live && n <= r.value < n + probes
    ensures r.Some? ==> forall m :: n <= m < r.value ==> RotationAlias(kind, a, m) in live
    ensures r.None? ==> forall m :: n <= m < n + probes ==> RotationAlias(kind, a, m) in live
    decreases probes
  {
    if probes == 0 then None
    else if RotationAlias(kind, a, n) !in live then Some(n)
    else FreshSuffix(live, kind, a, n + 1, probes - 1)
  }

  function NextSuffix(f: Fleet, kind: Kind, a: Agent): Option<nat> {
    FreshSuffix(f.live, kind, a, PriorCount(f.rows, a, kind) + 1, PROBES)
  }

  /** currentModelAlias: the newest rotation's target alias, else the base alias. */
  function CurrentModelAlias(rows: seq<Row>, a: Agent): Alias {
    var r := NewestRow(rows, a, ModelKey);
    if r.Some? then rows[r.value].newAlias else ModelBase(a)
  }

  // ---------------------------------------------------------------------- gateway

  /** A plaintext the gateway has never handed out before. */
  predicate Fresh(f: Fleet, key: Key) { key != "" && key !in f.issued }

  function Mint(f: Fleet, alias: Alias, key: Key): Fleet {
    f.(live := f.live[alias := key], issued := f.issued[key := alias])
  }

  /** POST /key/delete: idempotent, by plaintext. */
  function DeleteKey(live: map<Alias, Key>, key: Key): map<Alias, Key> {
    map al | al in live && live[al] != key :: live[al]
  }

  predicate KeyIsLive(f: Fleet, key: Key) {
    key in f.live.Values
  }

  // --------------------------------------------------------------- device creation

  /** A console-created device with its first bundle; hand-minted credentials are live at the gateway. */
  predicate CanCreate(f: Fleet, d: Agent, b: Bundle) {
    d !in f.history && d !in f.devices && d !in f.reports && d !in f.order && d !in f.active &&
    (IdentityOf(b) != "" ==> Fresh(f, IdentityOf(b))) &&
    (b.modelKey != "" ==> Fresh(f, b.modelKey) && b.modelKey != IdentityOf(b)) &&
    HandMesh(d) !in f.live && HandModel(d) !in f.live
  }

  function Create(f: Fleet, d: Agent, b: Bundle, active: bool): Fleet {
    var g := if IdentityOf(b) != "" then Mint(f, HandMesh(d), IdentityOf(b)) else f;
    var h := if b.modelKey != "" then Mint(g, HandModel(d), b.modelKey) else g;
    h.(order := f.order + [d],
       active := if active then f.active + {d} else f.active,
       history := f.history[d := [b]],
       devices := f.devices[d := Device(0, 0, 0, 0, 0)])
  }

  // ------------------------------------------------------------------------ enroll

  /** The token pair a render must carry for agent c: an open rotation's NEW and OLD, else its own key. */
  function TokenFor(f: Fleet, c: Agent): Key {
    var r := OpenRow(f.rows, c, A2aIdentity);
    if r.Some? && f.rows[r.value].newToken != "" then f.rows[r.value].newToken else CurrentIdentity(f, c)
  }

  function OverlapFor(f: Fleet, c: Agent): Key {
    var r := OpenRow(f.rows, c, A2aIdentity);
    if r.Some? && f.rows[r.value].newToken != "" then f.rows[r.value].oldToken else ""
  }

  /** resolveMeshPeers: every other active device whose bundle, or open rotation, yields a key. */
  function MeshPeers(f: Fleet, x: Agent): set<Agent> {
    set c | c in f.history && c in f.active && c != x && Known(f, c) && TokenFor(f, c) != ""
  }

  /** The same peers in table order, as the scan returns them. */
  function MeshPeerList(f: Fleet, x: Agent, order: seq<Agent>): (r: seq<Agent>)
    ensures forall c :: c in r ==> c in order && c in MeshPeers(f, x)
  {
    if order == [] then []
    else
      var n := |order| - 1;
      MeshPeerList(f, x, order[..n]) + (if order[n] in MeshPeers(f, x) then [order[n]] else [])
  }

  /** Merge leg 1: the target's own document. */
  function EnrolledDoc(f: Fleet, x: Agent, key: Key, url: string): A2a
    requires Known(f, x)
  {
    Render(Last(f, x).a2a, Updates(
      Some(key), Some(url), Some(MeshPeerList(f, x, f.order)),
      map c | c in MeshPeers(f, x) :: TokenFor(f, c),
      map c | c in MeshPeers(f, x) && OverlapFor(f, c) != "" :: OverlapFor(f, c),
      []))
  }

  /** Merge leg 2: one peer's document, rotation-aware for the target. */
  function PeerDoc(f: Fleet, p: Agent, x: Agent, key: Key): A2a
    requires Known(f, p)
  {
    var r := OpenRow(f.rows, x, A2aIdentity);
    var rotating := r.Some? && f.rows[r.value].oldToken != "" && f.rows[r.value].newToken != "";
    Render(Last(f, p).a2a, Updates(
      None, None, Some([x]),
      map[x := if rotating then f.rows[r.value].newToken else key],
      if rotating then map[x := f.rows[r.value].oldToken] else map[],
      []))
  }

  /** MINT when the base alias is not live, OPEN when the bundle already carries a key, else REFUSE. */
  predicate EnrollMints(f: Fleet, x: Agent) { MeshBase(x) !in f.live }
  predicate EnrollRefuses(f: Fleet, x: Agent) { MeshBase(x) in f.live && CurrentIdentity(f, x) == "" }

  function EnrollKey(f: Fleet, x: Agent, minted: Key): Key {
    if EnrollMints(f, x) then minted else CurrentIdentity(f, x)
  }

  function EnrollJobs(f: Fleet, x: Agent, url: string, minted: Key): map<Agent, Bundle>
    requires Known(f, x)
  {
    var key := EnrollKey(f, x, minted);
    map d | d in f.history && (d == x || d in MeshPeers(f, x)) ::
      if d == x then WithDoc(Last(f, x), EnrolledDoc(f, x, key, url))
      else WithDoc(Last(f, d), PeerDoc(f, d, x, key))
  }

  predicate CanEnroll(f: Fleet, x: Agent, minted: Key) {
    Known(f, x) && !EnrollRefuses(f, x) && (EnrollMints(f, x) ==> Fresh(f, minted))
  }

  function Enroll(f: Fleet, x: Agent, url: string, minted: Key, reach: set<Agent>): Fleet
    requires Known(f, x)
  {
    var g := if EnrollMints(f, x) then Mint(f, MeshBase(x), minted) else f;
    Store(g, Restrict(EnrollJobs(f, x, url, minted), reach))
  }

  // --------------------------------------------------------- identity rotation: start

  /** referencingPeerDevices. */
  predicate IsReferencing(f: Fleet, a: Agent, p: Agent) {
    p in f.history && p != a && Known(f, p) && Last(f, p).a2a.Some? && References(Last(f, p).a2a.value, a)
  }

  function ReferencingList(f: Fleet, a: Agent, order: seq<Agent>): (r: seq<Agent>)
    ensures forall p :: p in r <==> p in order && IsReferencing(f, a, p)
  {
    if order == [] then []
    else
      var n := |order| - 1;
      assert order == order[..n] + [order[n]];
      ReferencingList(f, a, order[..n]) + (if IsReferencing(f, a, order[n]) then [order[n]] else [])
  }

  function OverlapDoc(f: Fleet, p: Agent, a: Agent, newKey: Key, oldKey: Key): A2a
    requires Known(f, p)
  {
    Render(Last(f, p).a2a, NO_UPDATES.(addTokens := map[a := newKey], addOverlap := map[a := oldKey]))
  }

  function OverlapJobs(f: Fleet, a: Agent, newKey: Key, oldKey: Key): map<Agent, Bundle> {
    map p | p in f.history && IsReferencing(f, a, p) :: WithDoc(Last(f, p), OverlapDoc(f, p, a, newKey, oldKey))
  }

  /** The stage-1 ledger: every peer with the version its overlap bundle landed on. */
  function Ledger(f: Fleet, peers: seq<Agent>): (r: seq<LedgerEntry>)
    ensures |r| == |peers|
    ensures forall j :: 0 <= j < |r| ==> r[j] == LedgerEntry(peers[j], Versions(f, peers[j]) + 1)
  {
    seq(|peers|, j requires 0 <= j < |peers| => LedgerEntry(peers[j], Versions(f, peers[j]) + 1))
  }

  predicate CanStartIdentity(f: Fleet, a: Agent, minted: Key) {
    Known(f, a) && CurrentIdentity(f, a) != "" && OpenRow(f.rows, a, A2aIdentity).None? &&
    NextSuffix(f, A2aIdentity, a).Some? && Fresh(f, minted)
  }

  /** The mint and the overlap deliveries; a start that dies before its insert leaves only these. */
  function StartIdentityLost(f: Fleet, a: Agent, minted: Key, reach: set<Agent>): Fleet
    requires NextSuffix(f, A2aIdentity, a).Some?
  {
    Store(Mint(f, MeshRotation(a, NextSuffix(f, A2aIdentity, a).value), minted),
          Restrict(OverlapJobs(f, a, minted, CurrentIdentity(f, a)), reach))
  }

  function IdentityRow(f: Fleet, a: Agent, minted: Key): Row
    requires NextSuffix(f, A2aIdentity, a).Some?
  {
    Row(A2aIdentity, a, MeshBase(a), MeshRotation(a, NextSuffix(f, A2aIdentity, a).value),
        CurrentIdentity(f, a), minted, 0, Ledger(f, ReferencingList(f, a, f.order)), Delivering, false)
  }

  function StartIdentity(f: Fleet, a: Agent, minted: Key): Fleet
    requires NextSuffix(f, A2aIdentity, a).Some?
  {
    var g := Store(Mint(f, MeshRotation(a, NextSuffix(f, A2aIdentity, a).value), minted),
                   OverlapJobs(f, a, minted, CurrentIdentity(f, a)));
    g.(rows := f.rows + [IdentityRow(f, a, minted)])
  }

  // ------------------------------------------------------------ model rotation: start

  predicate CanStartModel(f: Fleet, a: Agent, minted: Key) {
    Known(f, a) && Last(f, a).modelKey != "" && OpenRow(f.rows, a, ModelKey).None? &&
    NextSuffix(f, ModelKey, a).Some? && Fresh(f, minted)
  }

  function StartModelLost(f: Fleet, a: Agent, minted: Key, reach: set<Agent>): Fleet
    requires Known(f, a) && NextSuffix(f, ModelKey, a).Some?
  {
    Store(Mint(f, ModelRotation(a, NextSuffix(f, ModelKey, a).value), minted),
          Restrict(map[a := Last(f, a).(modelKey := minted)], reach))
  }

  function ModelRow(f: Fleet, a: Agent): Row
    requires NextSuffix(f, ModelKey, a).Some?
  {
    Row(ModelKey, a, CurrentModelAlias(f.rows, a), ModelRotation(a, NextSuffix(f, ModelKey, a).value),
        "", "", Versions(f, a) + 1, [], Delivering, false)
  }

  function StartModel(f: Fleet, a: Agent, minted: Key): Fleet
    requires Known(f, a) && NextSuffix(f, ModelKey, a).Some?
  {
    var g := Store(Mint(f, ModelRotation(a, NextSuffix(f, ModelKey, a).value), minted),
                   map[a := Last(f, a).(modelKey := minted)]);
    g.(rows := f.rows + [ModelRow(f, a)])
  }

  /** Console mint-model-key, MINT arm. */
  predicate CanProvision(f: Fleet, a: Agent, minted: Key) {
    Known(f, a) && ModelBase(a) !in f.live && Fresh(f, minted)
  }

  function Provision(f: Fleet, a: Agent, minted: Key): Fleet
    requires Known(f, a)
  {
    Store(Mint(f, ModelBase(a), minted), map[a := Last(f, a).(modelKey := minted)])
  }

  // ------------------------------------------------------------------ sweep, in pieces

  predicate IsOpen(f: Fleet, i: nat) { i < |f.rows| && f.rows[i].Open() }

  predicate Confirmed(f: Fleet, d: Agent, version: nat) { d in f.reports && f.reports[d] >= version }

  predicate PeersConfirmed(f: Fleet, i: nat)
    requires i < |f.rows|
  {
    forall e :: e in f.rows[i].peers ==> Confirmed(f, e.agent, e.version)
  }

  /** rotationTargetConfirmed: never while the flip version is unset. */
  predicate TargetConfirmed(f: Fleet, i: nat)
    requires i < |f.rows|
  {
    f.rows[i].newVersion != 0 && Confirmed(f, f.rows[i].agent, f.rows[i].newVersion)
  }

  function SetRow(f: Fleet, i: nat, r: Row): Fleet
    requires i < |f.rows|
  {
    f.(rows := f.rows[i := r])
  }

  predicate CanFlip(f: Fleet, i: nat) {
    IsOpen(f, i) && f.rows[i].kind.A2aIdentity? && f.rows[i].status.Delivering? && PeersConfirmed(f, i) &&
    Known(f, f.rows[i].agent) && Last(f, f.rows[i].agent).a2a.Some?
  }

  /** The target's bundle with the NEW identity key; a flip that dies before its row update leaves only this. */
  function FlipBundle(f: Fleet, i: nat): Fleet
    requires i < |f.rows| && Known(f, f.rows[i].agent)
  {
    var a := f.rows[i].agent;
    Store(f, map[a := WithDoc(Last(f, a), Render(Last(f, a).a2a, NO_UPDATES.(identityKey := Some(f.rows[i].newToken))))])
  }

  function Flip(f: Fleet, i: nat): Fleet
    requires i < |f.rows| && Known(f, f.rows[i].agent)
  {
    SetRow(FlipBundle(f, i), i,
           f.rows[i].(status := AwaitingTarget, newVersion := Versions(f, f.rows[i].agent) + 1))
  }

  predicate CanConfirm(f: Fleet, i: nat) {
    IsOpen(f, i) && TargetConfirmed(f, i) &&
    f.rows[i].status == (if f.rows[i].kind.A2aIdentity? then AwaitingTarget else Delivering)
  }

  function Confirm(f: Fleet, i: nat): Fleet
    requires i < |f.rows|
  {
    SetRow(f, i, f.rows[i].(status := AwaitingRevoke))
  }

  predicate CanRevoke(f: Fleet, i: nat) {
    IsOpen(f, i) && f.rows[i].status.AwaitingRevoke? && (f.rows[i].kind.A2aIdentity? ==> f.rows[i].oldToken != "")
  }

  /** The gateway delete alone: by token for an identity key, through the alias lookup for a model key. */
  function Revoke(f: Fleet, i: nat): Fleet
    requires i < |f.rows|
  {
    var r := f.rows[i];
    if r.kind.A2aIdentity? then f.(live := DeleteKey(f.live, r.oldToken))
    else if r.oldAlias in f.live then f.(live := DeleteKey(f.live, f.live[r.oldAlias]))
    else f
  }

  predicate NeedsCleanup(f: Fleet, p: Agent, a: Agent) {
    Known(f, p) && Last(f, p).a2a.Some? && a in Last(f, p).a2a.value.overlap
  }

  function CleanedBundle(f: Fleet, p: Agent, a: Agent): Bundle
    requires Known(f, p)
  {
    WithDoc(Last(f, p), Render(Last(f, p).a2a, NO_UPDATES.(dropOverlap := [a])))
  }

  function LedgerNames(peers: seq<LedgerEntry>): set<Agent> {
    set e | e in peers :: e.agent
  }

  /** cleanupPeerOverlap over these ledger entries: a no-op peer gets no version bump. */
  function CleanupJobs(f: Fleet, peers: seq<LedgerEntry>, a: Agent): map<Agent, Bundle> {
    map p | p in LedgerNames(peers) && NeedsCleanup(f, p, a) :: CleanedBundle(f, p, a)
  }

  function CleanupLost(f: Fleet, i: nat, reach: set<Agent>): Fleet
    requires i < |f.rows|
  {
    Store(Revoke(f, i), Restrict(CleanupJobs(f, f.rows[i].peers, f.rows[i].agent), reach))
  }

  /** Delete, clean every ledger peer, close the row and wipe its plaintexts. */
  function Complete(f: Fleet, i: nat): Fleet
    requires i < |f.rows|
  {
    var r := f.rows[i];
    var g := Revoke(f, i);
    var h := if r.kind.A2aIdentity? then Store(g, CleanupJobs(f, r.peers, r.agent)) else g;
    SetRow(h, i, if r.kind.A2aIdentity?
                 then r.(status := Completed, oldToken := "", newToken := "", failed := false)
                 else r.(status := Completed, failed := false))
  }

  function NoteFailure(f: Fleet, i: nat): Fleet
    requires i < |f.rows|
  {
    SetRow(f, i, f.rows[i].(failed := true))
  }

  // ------------------------------------------------------------------------ resync

  /** The trusted peers of d other than itself (a name repeated in the list counts once). */
  function TrustedPeers(doc: A2a, d: Agent): set<Agent> {
    set p | p in doc.trusted && p != d
  }

  /** One bundle of resyncMeshKeys: peer_keys and strict rebuilt, raw tokens dropped or restored. */
  function ResyncDoc(doc: A2a, d: Agent, strict: bool, keys: map<Agent, string>, identity: map<Agent, Key>): A2a {
    var trusted := TrustedPeers(doc, d);
    var peerKeys := map p | p in trusted && p in keys :: keys[p];
    var kept := map p | p in doc.tokens && !(strict && p in trusted && p in peerKeys) :: doc.tokens[p];
    var restored := map p | p in trusted && !strict && p in identity && identity[p] != "" &&
                            !(p in doc.tokens && doc.tokens[p] != "") :: identity[p];
    doc.(peerKeys := peerKeys, strict := strict && peerKeys != map[], tokens := kept + restored)
  }

  /** The mesh members: active devices whose bundle carries an identity key. */
  predicate Enrolled(f: Fleet, d: Agent) {
    d in f.history && d in f.active && Known(f, d) && CurrentIdentity(f, d) != ""
  }

  function Identities(f: Fleet): map<Agent, Key> {
    map d | d in f.history && Enrolled(f, d) :: CurrentIdentity(f, d)
  }

  function ResyncJobs(f: Fleet, strict: bool, keys: map<Agent, string>): map<Agent, Bundle> {
    map d | d in f.history && Enrolled(f, d) &&
            ResyncDoc(Last(f, d).a2a.value, d, strict, keys, Identities(f)) != Last(f, d).a2a.value ::
      WithDoc(Last(f, d), ResyncDoc(Last(f, d).a2a.value, d, strict, keys, Identities(f)))
  }

  /** A receiver whose document says strict answers every unsigned request 401, whatever its token tables hold. */
  predicate IsStrict(b: Bundle) { b.a2a.Some? && b.a2a.value.strict }

  predicate Lists(b: Bundle, a: Agent) {
    b.a2a.Some? && a in b.a2a.value.peerKeys && a in b.a2a.value.trusted
  }

  /** With the switch on agents sign, and a receiver that lists a trusted peer's public key takes its signature. */
  predicate Signs(f: Fleet, b: Bundle, a: Agent) { f.strict && Lists(b, a) }

  /**
   * Agent a keeps its way into d: d will list its active key, or d does not go by a's signature now and
   * either refuses a already, or does not name it, or stays without strict for want of any trusted key.
   */
  predicate Stays(f: Fleet, d: Agent, keys: map<Agent, string>, a: Agent)
    requires d in f.history && Enrolled(f, d)
  {
    var b := Last(f, d);
    var doc := b.a2a.value;
    (a in keys && a in doc.trusted) ||
    (!Signs(f, b, a) && (IsStrict(b) || !References(doc, a) || forall p :: p in TrustedPeers(doc, d) ==> p !in keys))
  }

  /** A strict resync loses no rotated agent its way into a member it reaches. */
  predicate KeysStay(f: Fleet, keys: map<Agent, string>, reach: set<Agent>) {
    forall d, i :: d in f.history && d in reach && Enrolled(f, d) && 0 <= i < |f.rows| ==>
      (f.strict && f.rows[i].kind.A2aIdentity? && f.rows[i].agent != d ==> Stays(f, d, keys, f.rows[i].agent))
  }

  // ----------------------------------------------------------------------- devices

  function SetDevice(f: Fleet, d: Agent, v: Device): Fleet {
    f.(devices := f.devices[d := v])
  }

  // ----------------------------------------------------------------------- actions

  datatype Action =
    | ACreate(agent: Agent, bundle: Bundle, active: bool)
    | AEnroll(agent: Agent, url: string, minted: Key, reach: set<Agent>)
    | AStartIdentity(agent: Agent, minted: Key)
    | AStartIdentityLost(agent: Agent, minted: Key, reach: set<Agent>)
    | AStartModel(agent: Agent, minted: Key)
    | AStartModelLost(agent: Agent, minted: Key, reach: set<Agent>)
    | AProvision(agent: Agent, minted: Key)
    | AFlip(row: nat)
    | AFlipLost(row: nat)
    | AConfirm(row: nat)
    | ACleanupLost(row: nat, reach: set<Agent>)
    | AComplete(row: nat)
    | ANoteFailure(row: nat)
    | AResync(keys: map<Agent, string>, reach: set<Agent>)
    | AFetch(agent: Agent)
    | AWriteA2a(agent: Agent)
    | AWriteEnv(agent: Agent)
    | AWriteSnapshot(agent: Agent)
    | AAdopt(agent: Agent)
    | AReboot(agent: Agent)
    | AReport(agent: Agent, version: nat)

  /**
   * When an action may happen.  Four clauses are hypotheses on the operators, not guards in the code: a
   * new device's document is strict only while the switch is on, an enroll may mint a base key only for
   * an agent that has no identity row, a console mint-model-key only for an agent with no open model
   * row, and a strict resync leaves every rotated agent its way into the members it reaches.
   */
  predicate Enabled(f: Fleet, x: Action) {
    match x
    case ACreate(d, b, _) => CanCreate(f, d, b) && (IsStrict(b) ==> f.strict)
    case AEnroll(a, _, k, _) => CanEnroll(f, a, k) && (EnrollMints(f, a) ==> NewestRow(f.rows, a, A2aIdentity).None?)
    case AStartIdentity(a, k) => CanStartIdentity(f, a, k)
    case AStartIdentityLost(a, k, _) => CanStartIdentity(f, a, k)
    case AStartModel(a, k) => CanStartModel(f, a, k)
    case AStartModelLost(a, k, _) => CanStartModel(f, a, k)
    case AProvision(a, k) => CanProvision(f, a, k) && OpenRow(f.rows, a, ModelKey).None?
    case AFlip(i) => CanFlip(f, i)
    case AFlipLost(i) => CanFlip(f, i)
    case AConfirm(i) => CanConfirm(f, i)
    case ACleanupLost(i, _) => CanRevoke(f, i)
    case AComplete(i) => CanRevoke(f, i)
    case ANoteFailure(i) => IsOpen(f, i)
    case AResync(keys, reach) => KeysStay(f, keys, reach)
    case AFetch(d) => d in f.devices && Known(f, d) && f.devices[d].fetched == 0
    case AWriteA2a(d) => d in f.devices && f.devices[d].fetched != 0
    case AWriteEnv(d) => d in f.devices && f.devices[d].fetched != 0
    case AWriteSnapshot(d) => d in f.devices && f.devices[d].fetched != 0 &&
                              f.devices[d].a2aAt == f.devices[d].fetched && f.devices[d].envAt == f.devices[d].fetched
    case AAdopt(d) => d in f.devices && f.devices[d].fetched != 0 && f.devices[d].snapAt == f.devices[d].fetched
    case AReboot(d) => d in f.devices
    case AReport(d, v) => d in f.devices && v <= f.devices[d].localAt
  }

  function Do(f: Fleet, x: Action): Fleet
    requires Enabled(f, x)
  {
    match x
    case ACreate(d, b, on) => Create(f, d, b, on)
    case AEnroll(a, url, k, reach) => Enroll(f, a, url, k, reach)
    case AStartIdentity(a, k) => StartIdentity(f, a, k)
    case AStartIdentityLost(a, k, reach) => StartIdentityLost(f, a, k, reach)
    case AStartModel(a, k) => StartModel(f, a, k)
    case AStartModelLost(a, k, reach) => StartModelLost(f, a, k, reach)
    case AProvision(a, k) => Provision(f, a, k)
    case AFlip(i) => Flip(f, i)
    case AFlipLost(i) => FlipBundle(f, i)
    case AConfirm(i) => Confirm(f, i)
    case ACleanupLost(i, reach) => CleanupLost(f, i, reach)
    case AComplete(i) => Complete(f, i)
    case ANoteFailure(i) => NoteFailure(f, i)
    case AResync(keys, reach) => Store(f, Restrict(ResyncJobs(f, f.strict, keys), reach))
    case AFetch(d) => SetDevice(f, d, f.devices[d].(fetched := Versions(f, d)))
    case AWriteA2a(d) => SetDevice(f, d, f.devices[d].(a2aAt := f.devices[d].fetched))
    case AWriteEnv(d) => SetDevice(f, d, f.devices[d].(envAt := f.devices[d].fetched))
    case AWriteSnapshot(d) => SetDevice(f, d, f.devices[d].(snapAt := f.devices[d].fetched))
    case AAdopt(d) => SetDevice(f, d, f.devices[d].(localAt := f.devices[d].fetched, fetched := 0))
    case AReboot(d) => SetDevice(f, d, f.devices[d].(localAt := f.devices[d].snapAt, fetched := 0))
    case AReport(d, v) => f.(reports := f.reports[d := v])
  }

  /** A run is a sequence of actions, each enabled where it happens. */
  predicate IsRun(f: Fleet, xs: seq<Action>)
    decreases |xs|
  {
    xs == [] || (Enabled(f, xs[0]) && IsRun(Do(f, xs[0]), xs[1..]))
  }

  function After(f: Fleet, xs: seq<Action>): Fleet
    requires IsRun(f, xs)
    decreases |xs|
  {
    if xs == [] then f else After(Do(f, xs[0]), xs[1..])
  }
}
