/** What the registrar's operations leave in every table and every document, said field by field. */
module FleetMeaning {
  import opened A2aDoc
  import opened Fleet
  import opened FleetInvariant
  import opened FleetSteps
  import opened FleetSweep

  // ------------------------------------------------------------------------- words

  /** The document a bundle carries; without one, the empty document. */
  function DocOf(b: Bundle): A2a {
    if b.a2a.Some? then b.a2a.value else A2a("", "", [], map[], map[], map[], false)
  }

  predicate HasBundle(f: Fleet, d: Agent) { d in f.history && f.history[d] != [] }

  function Stored(f: Fleet, d: Agent): Bundle
    requires HasBundle(f, d)
  {
    f.history[d][|f.history[d]| - 1]
  }

  /** Exactly one version was stored for d, and it has a document. */
  ghost predicate OneVersion(f: Fleet, g: Fleet, d: Agent) {
    HasBundle(f, d) && d in g.history && |g.history[d]| == |f.history[d]| + 1 && f.history[d] <= g.history[d] && Stored(g, d).a2a.Some?
  }

  ghost predicate Untouched(f: Fleet, g: Fleet, d: Agent) {
    (d in g.history <==> d in f.history) && (d in f.history ==> g.history[d] == f.history[d])
  }

  /** Of all tables at most bundles, the gateway's keys and the registry changed. */
  ghost predicate RestSame(f: Fleet, g: Fleet) {
    g.order == f.order && g.active == f.active && g.reports == f.reports && g.devices == f.devices && g.strict == f.strict
  }

  /** m and n agree on c. */
  ghost predicate SameEntry(m: map<Agent, Key>, n: map<Agent, Key>, c: Agent) {
    (c in m <==> c in n) && (c in m ==> m[c] == n[c])
  }

  ghost predicate AllDiffer(names: seq<Agent>) {
    forall i, j :: 0 <= i < j < |names| ==> names[i] != names[j]
  }

  ghost predicate Has(m: map<Agent, Key>, c: Agent, k: Key) { c in m && m[c] == k }

  /** Row i is the newest open identity rotation of c. */
  ghost predicate OpenAt(f: Fleet, c: Agent, i: int) {
    0 <= i < |f.rows| && f.rows[i].agent == c && f.rows[i].kind == A2aIdentity && f.rows[i].status != Completed &&
    forall j :: i < j < |f.rows| && f.rows[j].agent == c && f.rows[j].kind == A2aIdentity ==> f.rows[j].status == Completed
  }

  /** The identity key in the stored bundle. */
  function OwnKey(f: Fleet, c: Agent): Key {
    if HasBundle(f, c) then DocOf(Stored(f, c)).identityKey else ""
  }

  /** Row i is an open rotation of c that has its new token. */
  ghost predicate Rotates(f: Fleet, c: Agent, i: int) { OpenAt(f, c, i) && f.rows[i].newToken != "" }

  /** Another active device with a bundle, and with a key of its own or one it is rotating to. */
  ghost predicate IsPeer(f: Fleet, x: Agent, c: Agent) {
    c != x && HasBundle(f, c) && c in f.active && (OwnKey(f, c) != "" || exists i :: Rotates(f, c, i))
  }

  lemma OpenAtIs(f: Fleet, c: Agent, i: int)
    ensures OpenAt(f, c, i) <==> OpenRow(f.rows, c, A2aIdentity) == Some(i)
  {
    var r := OpenRow(f.rows, c, A2aIdentity);
    if r.Some? && 0 <= i < |f.rows| && r.value < i && f.rows[i].agent == c && f.rows[i].kind == A2aIdentity { assert !f.rows[i].Open(); }
  }

  /** The row a rotation-aware merge goes by. */
  lemma RotatesIs(f: Fleet, c: Agent, i: int)
    ensures Rotates(f, c, i) <==> OpenRow(f.rows, c, A2aIdentity) == Some(i) && f.rows[i].newToken != ""
  {
    hide OpenAt;
    OpenAtIs(f, c, i);
  }

  lemma PairIs(f: Fleet, c: Agent)
    ensures OwnKey(f, c) == CurrentIdentity(f, c)
    ensures forall i :: Rotates(f, c, i) ==> TokenFor(f, c) == f.rows[i].newToken && OverlapFor(f, c) == f.rows[i].oldToken
    ensures (forall i :: !Rotates(f, c, i)) ==> TokenFor(f, c) == OwnKey(f, c) && OverlapFor(f, c) == ""
    ensures TokenFor(f, c) != "" <==> OwnKey(f, c) != "" || exists i :: Rotates(f, c, i)
  {
    hide Rotates;
    var r := OpenRow(f.rows, c, A2aIdentity);
    forall i ensures Rotates(f, c, i) <==> r == Some(i) && f.rows[i].newToken != "" { RotatesIs(f, c, i); }
    if r.Some? { assert Rotates(f, c, r.value) <==> f.rows[r.value].newToken != ""; }
  }

  lemma PeersAre(f: Fleet, x: Agent)
    ensures forall c :: c in MeshPeers(f, x) <==> IsPeer(f, x, c)
  {
    hide TokenFor, OverlapFor, Rotates;
    forall c ensures c in MeshPeers(f, x) <==> IsPeer(f, x, c) { PairIs(f, c); }
  }

  lemma {:induction false} PeerListMembers(f: Fleet, x: Agent, order: seq<Agent>)
    ensures forall c :: c in MeshPeerList(f, x, order) <==> c in order && c in MeshPeers(f, x)
  {
    hide MeshPeers;
    if order != [] {
      var n := |order| - 1;
      assert order == order[..n] + [order[n]];
      PeerListMembers(f, x, order[..n]);
    }
  }

  // ------------------------------------------------------------------------ enroll

  /** What an enroll leaves for agent c in a document: the pair of c's open rotation, else the given key. */
  ghost predicate TakesPair(f: Fleet, c: Agent, key: Key, was: A2a, doc: A2a) {
    (forall i :: Rotates(f, c, i) ==>
      Has(doc.tokens, c, f.rows[i].newToken) &&
      if f.rows[i].oldToken != "" then Has(doc.overlap, c, f.rows[i].oldToken) else SameEntry(doc.overlap, was.overlap, c)) &&
    ((forall i :: !Rotates(f, c, i)) ==> Has(doc.tokens, c, key) && SameEntry(doc.overlap, was.overlap, c))
  }

  /** The enrolled agent's document: it trusts all peers and takes each of them, rotating or not. */
  ghost predicate TargetEnrolled(f: Fleet, x: Agent, url: string, key: Key, was: A2a, doc: A2a) {
    doc.identityKey == key && doc.publicUrl == url && doc.peerKeys == was.peerKeys && doc.strict == was.strict &&
    (forall c :: c in doc.trusted <==> c in was.trusted || IsPeer(f, x, c)) &&
    AllDiffer(doc.trusted) &&
    (forall c :: IsPeer(f, x, c) ==> TakesPair(f, c, OwnKey(f, c), was, doc)) &&
    (forall c :: !IsPeer(f, x, c) ==> SameEntry(doc.tokens, was.tokens, c) && SameEntry(doc.overlap, was.overlap, c))
  }

  /** A peer's document: it trusts the enrolled agent as well, and takes what that presents. */
  ghost predicate PeerEnrolled(f: Fleet, x: Agent, key: Key, was: A2a, doc: A2a) {
    doc.identityKey == was.identityKey && doc.publicUrl == was.publicUrl && doc.peerKeys == was.peerKeys && doc.strict == was.strict &&
    (forall c :: c in doc.trusted <==> c in was.trusted || c == x) &&
    AllDiffer(doc.trusted) &&
    (forall i :: Rotates(f, x, i) && f.rows[i].oldToken != "" ==>
      Has(doc.tokens, x, f.rows[i].newToken) && Has(doc.overlap, x, f.rows[i].oldToken)) &&
    ((forall i :: Rotates(f, x, i) ==> f.rows[i].oldToken == "") ==> Has(doc.tokens, x, key) && SameEntry(doc.overlap, was.overlap, x)) &&
    (forall c :: c != x ==> SameEntry(doc.tokens, was.tokens, c) && SameEntry(doc.overlap, was.overlap, c))
  }

  /** A fresh key where the gateway holds no base key of the agent, else the key in its bundle. */
  function Decided(f: Fleet, x: Agent, minted: Key): Key {
    if MeshBase(x) in f.live then OwnKey(f, x) else minted
  }

  /** Which names a merge leaves trusted. */
  lemma MergedNames(was: seq<Agent>, add: seq<Agent>)
    ensures forall c :: c in Dedup(was + add) <==> c in was || c in add
    ensures AllDiffer(Dedup(was + add))
  {
  }

  lemma TargetNames(f: Fleet, x: Agent, url: string, key: Key)
    requires HasBundle(f, x) && forall d :: d in f.order <==> d in f.history
    ensures var was := DocOf(Stored(f, x)); var doc := EnrolledDoc(f, x, key, url);
            doc.trusted == Dedup(was.trusted + MeshPeerList(f, x, f.order)) &&
            (forall c :: c in doc.trusted <==> c in was.trusted || IsPeer(f, x, c)) &&
            AllDiffer(doc.trusted)
  {
    hide TokenFor, OverlapFor, IsPeer, Dedup;
    PeersAre(f, x);
    PeerListMembers(f, x, f.order);
    MergedNames(DocOf(Stored(f, x)).trusted, MeshPeerList(f, x, f.order));
    forall c | IsPeer(f, x, c) ensures c in f.order { PeerIsOther(f, x, c); }
  }

  lemma TargetFields(f: Fleet, x: Agent, url: string, key: Key, c: Agent)
    requires HasBundle(f, x)
    ensures var was := DocOf(Stored(f, x)); var doc := EnrolledDoc(f, x, key, url);
            doc.identityKey == key && doc.publicUrl == url && doc.peerKeys == was.peerKeys && doc.strict == was.strict &&
            if c in MeshPeers(f, x) then
              Has(doc.tokens, c, TokenFor(f, c)) &&
              if OverlapFor(f, c) != "" then Has(doc.overlap, c, OverlapFor(f, c)) else SameEntry(doc.overlap, was.overlap, c)
            else SameEntry(doc.tokens, was.tokens, c) && SameEntry(doc.overlap, was.overlap, c)
  {
    hide TokenFor, OverlapFor, Dedup, MeshPeerList, MeshPeers;
  }

  lemma TargetMeaning(f: Fleet, x: Agent, url: string, key: Key)
    requires HasBundle(f, x) && forall d :: d in f.order <==> d in f.history
    ensures TargetEnrolled(f, x, url, key, DocOf(Stored(f, x)), EnrolledDoc(f, x, key, url))
  {
    hide TokenFor, OverlapFor, Rotates, IsPeer, OwnKey, EnrolledDoc, MeshPeers, SameEntry, Has, DocOf;
    PeersAre(f, x);
    TargetNames(f, x, url, key);
    TargetFields(f, x, url, key, x);
    var doc, was := EnrolledDoc(f, x, key, url), DocOf(Stored(f, x));
    forall c ensures IsPeer(f, x, c) ==> TakesPair(f, c, OwnKey(f, c), was, doc)
             ensures !IsPeer(f, x, c) ==> SameEntry(doc.tokens, was.tokens, c) && SameEntry(doc.overlap, was.overlap, c)
    {
      TargetFields(f, x, url, key, c);
      if IsPeer(f, x, c) { TakesItsPair(f, x, c, url, key); }
    }
  }

  lemma TakesItsPair(f: Fleet, x: Agent, c: Agent, url: string, key: Key)
    requires HasBundle(f, x) && IsPeer(f, x, c)
    ensures TakesPair(f, c, OwnKey(f, c), DocOf(Stored(f, x)), EnrolledDoc(f, x, key, url))
  {
    hide TokenFor, OverlapFor, IsPeer, OwnKey, EnrolledDoc, MeshPeers, SameEntry, Has, DocOf, OpenAt;
    PeersAre(f, x);
    PairIs(f, c);
    TargetFields(f, x, url, key, c);
  }

  lemma PeerFields(f: Fleet, x: Agent, p: Agent, key: Key)
    requires HasBundle(f, p)
    ensures var was := DocOf(Stored(f, p)); var doc := PeerDoc(f, p, x, key); var r := OpenRow(f.rows, x, A2aIdentity);
            doc.identityKey == was.identityKey && doc.publicUrl == was.publicUrl && doc.peerKeys == was.peerKeys && doc.strict == was.strict &&
            doc.trusted == Dedup(was.trusted + [x]) &&
            (forall c :: c != x ==> SameEntry(doc.tokens, was.tokens, c) && SameEntry(doc.overlap, was.overlap, c)) &&
            if r.Some? && f.rows[r.value].oldToken != "" && f.rows[r.value].newToken != "" then
              Has(doc.tokens, x, f.rows[r.value].newToken) && Has(doc.overlap, x, f.rows[r.value].oldToken)
            else Has(doc.tokens, x, key) && SameEntry(doc.overlap, was.overlap, x)
  {
    hide Dedup;
  }

  lemma PeerMeaning(f: Fleet, x: Agent, p: Agent, key: Key)
    requires HasBundle(f, p)
    ensures PeerEnrolled(f, x, key, DocOf(Stored(f, p)), PeerDoc(f, p, x, key))
  {
    hide Rotates, PeerDoc, DocOf, SameEntry, Has, Dedup;
    PeerFields(f, x, p, key);
    MergedNames(DocOf(Stored(f, p)).trusted, [x]);
    var r := OpenRow(f.rows, x, A2aIdentity);
    forall i ensures Rotates(f, x, i) <==> r == Some(i) && f.rows[i].newToken != "" { RotatesIs(f, x, i); }
    if r.Some? { assert Rotates(f, x, r.value) <==> f.rows[r.value].newToken != ""; }
  }

  lemma EnrollStores(f: Fleet, x: Agent, url: string, minted: Key, reach: set<Agent>, d: Agent)
    requires HasBundle(f, x) && HasBundle(f, d)
    ensures var g := Enroll(f, x, url, minted, reach); var key := EnrollKey(f, x, minted);
            if d !in reach || (d != x && d !in MeshPeers(f, x)) then Untouched(f, g, d)
            else OneVersion(f, g, d) && Stored(g, d).modelKey == Stored(f, d).modelKey &&
                 DocOf(Stored(g, d)) == if d == x then EnrolledDoc(f, x, key, url) else PeerDoc(f, d, x, key)
  {
    hide EnrolledDoc, PeerDoc, MeshPeers, EnrollKey;
  }

  /**
   * An enroll, wherever its merges stop: the agent's document gets the url, the decided key and every mesh
   * peer, each peer's document gets the agent, and nothing else is written.
   */
  lemma EnrollMeaning(f: Fleet, x: Agent, url: string, minted: Key, reach: set<Agent>)
    requires HasBundle(f, x) && forall d :: d in f.order <==> d in f.history
    ensures var g := Enroll(f, x, url, minted, reach); var key := Decided(f, x, minted);
            (x in reach ==> OneVersion(f, g, x) && Stored(g, x).modelKey == Stored(f, x).modelKey &&
                            TargetEnrolled(f, x, url, key, DocOf(Stored(f, x)), DocOf(Stored(g, x)))) &&
            (forall p :: p in reach && IsPeer(f, x, p) ==>
              OneVersion(f, g, p) && Stored(g, p).modelKey == Stored(f, p).modelKey &&
              PeerEnrolled(f, x, key, DocOf(Stored(f, p)), DocOf(Stored(g, p)))) &&
            (forall d :: d !in reach || (d != x && !IsPeer(f, x, d)) ==> Untouched(f, g, d))
    ensures var g := Enroll(f, x, url, minted, reach);
            RestSame(f, g) && g.rows == f.rows && g.live == if MeshBase(x) in f.live then f.live else f.live[MeshBase(x) := minted]
  {
    hide EnrolledDoc, PeerDoc, TargetEnrolled, PeerEnrolled, MeshPeers, IsPeer, DocOf;
    var g, key := Enroll(f, x, url, minted, reach), Decided(f, x, minted);
    PeersAre(f, x);
    EnrollTables(f, x, url, minted, reach);
    TargetMeaning(f, x, url, key);
    EnrollStores(f, x, url, minted, reach, x);
    forall p | p in reach && IsPeer(f, x, p)
      ensures OneVersion(f, g, p) && Stored(g, p).modelKey == Stored(f, p).modelKey && PeerEnrolled(f, x, key, DocOf(Stored(f, p)), DocOf(Stored(g, p)))
    {
      PeerIsOther(f, x, p);
      EnrollStores(f, x, url, minted, reach, p);
      PeerMeaning(f, x, p, key);
    }
  }

  lemma EnrollTables(f: Fleet, x: Agent, url: string, minted: Key, reach: set<Agent>)
    requires HasBundle(f, x)
    ensures var g := Enroll(f, x, url, minted, reach);
            RestSame(f, g) && g.rows == f.rows && g.live == if MeshBase(x) in f.live then f.live else f.live[MeshBase(x) := minted]
    ensures EnrollKey(f, x, minted) == Decided(f, x, minted)
    ensures forall d :: d !in reach || (d != x && d !in MeshPeers(f, x)) ==> Untouched(f, Enroll(f, x, url, minted, reach), d)
  {
    hide EnrolledDoc, PeerDoc, MeshPeers;
  }

  lemma PeerIsOther(f: Fleet, x: Agent, p: Agent)
    requires IsPeer(f, x, p)
    ensures p != x && HasBundle(f, p)
  {
  }

  // ------------------------------------------------------------------------ starts

  /** p's document names a, as one whose token it holds or as one it trusts. */
  ghost predicate Names(f: Fleet, p: Agent, a: Agent) {
    p != a && HasBundle(f, p) && (a in DocOf(Stored(f, p)).tokens || a in DocOf(Stored(f, p)).trusted)
  }

  /** The rows a has had of this kind. */
  function Prior(rows: seq<Row>, a: Agent, kind: Kind): set<int> {
    set i | 0 <= i < |rows| && rows[i].agent == a && rows[i].kind == kind
  }

  lemma {:induction false} PriorIsCounted(rows: seq<Row>, a: Agent, kind: Kind)
    ensures PriorCount(rows, a, kind) == |Prior(rows, a, kind)|
  {
    if rows != [] {
      var n := |rows| - 1;
      hide Prior;
      PriorIsCounted(rows[..n], a, kind);
      PriorStep(rows, a, kind);
    }
  }

  lemma PriorStep(rows: seq<Row>, a: Agent, kind: Kind)
    requires rows != []
    ensures var n := |rows| - 1;
            Prior(rows, a, kind) == Prior(rows[..n], a, kind) + (if rows[n].agent == a && rows[n].kind == kind then {n} else {}) && n !in Prior(rows[..n], a, kind)
  {
  }

  lemma {:induction false} ReferencingOnce(f: Fleet, a: Agent, order: seq<Agent>)
    requires AllDiffer(order)
    ensures AllDiffer(ReferencingList(f, a, order))
  {
    hide IsReferencing;
    if order != [] {
      var n := |order| - 1;
      var init := ReferencingList(f, a, order[..n]);
      ReferencingOnce(f, a, order[..n]);
      forall i | 0 <= i < |init| ensures init[i] != order[n] {
        assert init[i] in order[..n];
      }
    }
  }

  lemma ReferencingNames(f: Fleet, a: Agent)
    ensures forall p :: IsReferencing(f, a, p) <==> Names(f, p, a)
  {
  }

  /** The ledger: every document that names a, once, at the version its overlap pair is stored under. */
  ghost predicate IsLedger(f: Fleet, a: Agent, peers: seq<LedgerEntry>) {
    (forall e :: e in peers <==> Names(f, e.agent, a) && e.version == Versions(f, e.agent) + 1) &&
    forall i, j :: 0 <= i < j < |peers| ==> peers[i].agent != peers[j].agent
  }

  ghost predicate IdentityStarted(f: Fleet, a: Agent, minted: Key, r: Row) {
    r.kind == A2aIdentity && r.agent == a && r.oldAlias == MeshBase(a) && r.oldToken == OwnKey(f, a) && r.newToken == minted &&
    r.newVersion == 0 && r.status == Delivering && !r.failed && IsLedger(f, a, r.peers) &&
    r.newAlias.MeshRotation? && r.newAlias.agent == a && MeshRotation(a, r.newAlias.n) !in f.live &&
    |Prior(f.rows, a, A2aIdentity)| < r.newAlias.n &&
    forall m :: |Prior(f.rows, a, A2aIdentity)| < m < r.newAlias.n ==> MeshRotation(a, m) in f.live
  }

  /** The new key is a's token, the old one its overlap; everything else in the document stays. */
  ghost predicate GotOverlap(a: Agent, newKey: Key, oldKey: Key, was: A2a, doc: A2a) {
    Has(doc.tokens, a, newKey) && Has(doc.overlap, a, oldKey) &&
    (forall c :: c != a ==> SameEntry(doc.tokens, was.tokens, c) && SameEntry(doc.overlap, was.overlap, c)) &&
    doc == was.(tokens := doc.tokens, overlap := doc.overlap)
  }

  lemma LedgerMeaning(f: Fleet, a: Agent)
    requires Inv(f)
    ensures IsLedger(f, a, Ledger(f, ReferencingList(f, a, f.order)))
  {
    hide IsReferencing, Names;
    LedgerEntries(f, a);
    ReferencingOnce(f, a, f.order);
    ReferencingNames(f, a);
    var l := Ledger(f, ReferencingList(f, a, f.order));
    forall e: LedgerEntry ensures e in l <==> Names(f, e.agent, a) && e.version == Versions(f, e.agent) + 1 {
      if Names(f, e.agent, a) { NamedHasBundle(f, e.agent, a); }
    }
  }

  lemma NamedHasBundle(f: Fleet, p: Agent, a: Agent)
    requires Names(f, p, a)
    ensures p != a && HasBundle(f, p) && Stored(f, p).a2a.Some?
  {
  }

  /** A document that names a gets the overlap pair, and no other. */
  ghost predicate StartStored(f: Fleet, g: Fleet, a: Agent, minted: Key, p: Agent) {
    if Names(f, p, a) then
      OneVersion(f, g, p) && Stored(g, p).modelKey == Stored(f, p).modelKey &&
      GotOverlap(a, minted, OwnKey(f, a), DocOf(Stored(f, p)), DocOf(Stored(g, p)))
    else Untouched(f, g, p)
  }

  lemma StartStores(f: Fleet, a: Agent, minted: Key, p: Agent)
    requires CanStartIdentity(f, a, minted)
    ensures StartStored(f, StartIdentity(f, a, minted), a, minted, p)
  {
    hide Names, NextSuffix, Ledger, ReferencingList, OverlapDoc;
    ReferencingNames(f, a);
    if Names(f, p, a) {
      NamedHasBundle(f, p, a);
      OverlapMeaning(f, p, a, minted, OwnKey(f, a));
    }
  }

  lemma OverlapMeaning(f: Fleet, p: Agent, a: Agent, newKey: Key, oldKey: Key)
    requires HasBundle(f, p)
    ensures GotOverlap(a, newKey, oldKey, DocOf(Stored(f, p)), OverlapDoc(f, p, a, newKey, oldKey))
  {
  }

  /**
   * A start: one row more, with the key being rotated, the minted one under the first free alias after the
   * rotations a has had, and a ledger of exactly the documents that name a; those get the overlap pair.
   */
  lemma StartIdentityMeaning(f: Fleet, a: Agent, minted: Key)
    requires Inv(f) && CanStartIdentity(f, a, minted)
    ensures var g := StartIdentity(f, a, minted);
            |g.rows| == |f.rows| + 1 && f.rows <= g.rows && IdentityStarted(f, a, minted, g.rows[|f.rows|]) &&
            RestSame(f, g) && g.live == f.live[g.rows[|f.rows|].newAlias := minted]
    ensures var g := StartIdentity(f, a, minted);
            forall p :: StartStored(f, g, a, minted, p)
  {
    hide Inv, Names, Ledger, ReferencingList, OverlapJobs, IsLedger, StartStored;
    LedgerMeaning(f, a);
    PriorIsCounted(f.rows, a, A2aIdentity);
    SuffixMeaning(f, A2aIdentity, a);
    OwnKeyIs(f, a);
    forall p ensures StartStored(f, StartIdentity(f, a, minted), a, minted, p) { StartStores(f, a, minted, p); }
  }

  lemma OwnKeyIs(f: Fleet, a: Agent)
    ensures OwnKey(f, a) == CurrentIdentity(f, a)
  {
  }

  lemma SuffixMeaning(f: Fleet, kind: Kind, a: Agent)
    requires NextSuffix(f, kind, a).Some?
    ensures var n := NextSuffix(f, kind, a).value; var prior := |Prior(f.rows, a, kind)|;
            prior < n && (if kind.A2aIdentity? then MeshRotation(a, n) else ModelRotation(a, n)) !in f.live &&
            forall m :: prior < m < n ==> (if kind.A2aIdentity? then MeshRotation(a, m) else ModelRotation(a, m)) in f.live
  {
    PriorIsCounted(f.rows, a, kind);
    var n, prior := NextSuffix(f, kind, a).value, |Prior(f.rows, a, kind)|;
    forall m | prior < m < n ensures (if kind.A2aIdentity? then MeshRotation(a, m) else ModelRotation(a, m)) in f.live {
      assert RotationAlias(kind, a, m) in f.live;
    }
  }

  /** Row i is the newest model rotation of a. */
  ghost predicate NewestModelAt(f: Fleet, a: Agent, i: int) {
    0 <= i < |f.rows| && f.rows[i].agent == a && f.rows[i].kind == ModelKey &&
    forall j :: i < j < |f.rows| ==> f.rows[j].agent != a || f.rows[j].kind != ModelKey
  }

  ghost predicate ModelStarted(f: Fleet, a: Agent, r: Row) {
    r.kind == ModelKey && r.agent == a && r.oldToken == "" && r.newToken == "" && r.peers == [] &&
    r.newVersion == Versions(f, a) + 1 && r.status == Delivering && !r.failed &&
    (forall i :: NewestModelAt(f, a, i) ==> r.oldAlias == f.rows[i].newAlias) &&
    ((forall i :: !NewestModelAt(f, a, i)) ==> r.oldAlias == ModelBase(a)) &&
    r.newAlias.ModelRotation? && r.newAlias.agent == a && ModelRotation(a, r.newAlias.n) !in f.live &&
    |Prior(f.rows, a, ModelKey)| < r.newAlias.n &&
    forall m :: |Prior(f.rows, a, ModelKey)| < m < r.newAlias.n ==> ModelRotation(a, m) in f.live
  }

  /** One version of a with this model key and the same document; every other device is untouched. */
  ghost predicate OnlyModelKey(f: Fleet, g: Fleet, a: Agent, key: Key) {
    HasBundle(f, a) && g.history == f.history[a := f.history[a] + [Stored(f, a).(modelKey := key)]]
  }

  /** A model rotation starts from the newest alias there is and delivers the minted key at once. */
  lemma StartModelMeaning(f: Fleet, a: Agent, minted: Key)
    requires CanStartModel(f, a, minted)
    ensures var g := StartModel(f, a, minted);
            |g.rows| == |f.rows| + 1 && f.rows <= g.rows && ModelStarted(f, a, g.rows[|f.rows|]) &&
            RestSame(f, g) && g.live == f.live[g.rows[|f.rows|].newAlias := minted] && OnlyModelKey(f, g, a, minted)
  {
    hide Prior, NextSuffix, CurrentModelAlias;
    SuffixMeaning(f, ModelKey, a);
    AliasMeaning(f, a);
  }

  lemma AliasMeaning(f: Fleet, a: Agent)
    ensures forall i :: NewestModelAt(f, a, i) ==> CurrentModelAlias(f.rows, a) == f.rows[i].newAlias
    ensures (forall i :: !NewestModelAt(f, a, i)) ==> CurrentModelAlias(f.rows, a) == ModelBase(a)
  {
    var r := NewestRow(f.rows, a, ModelKey);
    if r.Some? { assert NewestModelAt(f, a, r.value); }
  }

  /** The console's mint stores the key in the agent's bundle and registers it under the base alias. */
  lemma ProvisionMeaning(f: Fleet, a: Agent, minted: Key)
    requires HasBundle(f, a)
    ensures var g := Provision(f, a, minted);
            RestSame(f, g) && g.rows == f.rows && g.live == f.live[ModelBase(a) := minted] && OnlyModelKey(f, g, a, minted)
  {
  }

  /** An open row of a and this kind. */
  ghost predicate Running(f: Fleet, a: Agent, kind: Kind) {
    exists i :: 0 <= i < |f.rows| && f.rows[i].agent == a && f.rows[i].kind == kind && f.rows[i].status != Completed
  }

  /** One of the twenty aliases after the rotations a has had is free. */
  ghost predicate AliasFree(f: Fleet, a: Agent, kind: Kind) {
    var prior := |Prior(f.rows, a, kind)|;
    exists n :: prior < n <= prior + 20 && (if kind.A2aIdentity? then MeshRotation(a, n) else ModelRotation(a, n)) !in f.live
  }

  lemma AliasFreeIs(f: Fleet, a: Agent, kind: Kind)
    ensures NextSuffix(f, kind, a).Some? <==> AliasFree(f, a, kind)
  {
    PriorIsCounted(f.rows, a, kind);
    var prior := |Prior(f.rows, a, kind)|;
    if NextSuffix(f, kind, a).None? {
      forall n | prior < n <= prior + 20 ensures (if kind.A2aIdentity? then MeshRotation(a, n) else ModelRotation(a, n)) in f.live {
        assert RotationAlias(kind, a, n) in f.live;
      }
    }
  }

  /** An enroll goes ahead unless the gateway holds a base key that the bundle has lost. */
  lemma EnrollGuard(f: Fleet, a: Agent, minted: Key)
    ensures CanEnroll(f, a, minted) <==>
            HasBundle(f, a) && if MeshBase(a) in f.live then OwnKey(f, a) != "" else minted != "" && minted !in f.issued
  {
    OwnKeyIs(f, a);
  }

  /** A rotation starts exactly if there is a key to rotate, none of its kind is open and an alias is free. */
  lemma StartGuards(f: Fleet, a: Agent, minted: Key)
    ensures CanStartIdentity(f, a, minted) <==>
            HasBundle(f, a) && OwnKey(f, a) != "" && !Running(f, a, A2aIdentity) && AliasFree(f, a, A2aIdentity) && minted != "" && minted !in f.issued
    ensures CanStartModel(f, a, minted) <==>
            HasBundle(f, a) && Stored(f, a).modelKey != "" && !Running(f, a, ModelKey) && AliasFree(f, a, ModelKey) && minted != "" && minted !in f.issued
  {
    hide AliasFree, NextSuffix;
    AliasFreeIs(f, a, A2aIdentity);
    AliasFreeIs(f, a, ModelKey);
    RunningIs(f, a, A2aIdentity);
    RunningIs(f, a, ModelKey);
    OwnKeyIs(f, a);
  }

  lemma RunningIs(f: Fleet, a: Agent, kind: Kind)
    ensures OpenRow(f.rows, a, kind).Some? <==> Running(f, a, kind)
  {
    var r := OpenRow(f.rows, a, kind);
    if r.None? {
      forall i | 0 <= i < |f.rows| && f.rows[i].agent == a && f.rows[i].kind == kind ensures f.rows[i].status == Completed {
        assert !f.rows[i].Open();
      }
    }
  }

  // ---------------------------------------------------------------- one row's pass

  /** One version of a with this identity key in an otherwise unchanged document; every other device is untouched. */
  ghost predicate OnlyIdentity(f: Fleet, g: Fleet, a: Agent, key: Key) {
    HasBundle(f, a) && Stored(f, a).a2a.Some? &&
    g.history == f.history[a := f.history[a] + [Stored(f, a).(a2a := Some(Stored(f, a).a2a.value.(identityKey := key)))]]
  }

  /** The gateway dropped this key under whatever alias it had, and no other. */
  ghost predicate OnlyDeleted(f: Fleet, g: Fleet, key: Key) {
    forall al :: (al in g.live <==> al in f.live && f.live[al] != key) && (al in g.live ==> g.live[al] == f.live[al])
  }

  /** p is in the ledger and its document still holds an overlap entry for a. */
  ghost predicate ToClean(f: Fleet, peers: seq<LedgerEntry>, a: Agent, p: Agent) {
    (exists e :: e in peers && e.agent == p) && HasBundle(f, p) && a in DocOf(Stored(f, p)).overlap
  }

  /** The document without the overlap entry for a, and otherwise the same. */
  ghost predicate Cleaned(a: Agent, was: A2a, doc: A2a) {
    a !in doc.overlap && (forall c :: c != a ==> SameEntry(doc.overlap, was.overlap, c)) && doc == was.(overlap := doc.overlap)
  }

  /** What a cleanup leaves at p: the document without the entry where there was one, and no version otherwise. */
  ghost predicate CleanedAt(f: Fleet, g: Fleet, peers: seq<LedgerEntry>, a: Agent, p: Agent) {
    if ToClean(f, peers, a, p) then
      OneVersion(f, g, p) && Stored(g, p).modelKey == Stored(f, p).modelKey && Cleaned(a, DocOf(Stored(f, p)), DocOf(Stored(g, p)))
    else Untouched(f, g, p)
  }

  ghost predicate LedgerCleaned(f: Fleet, g: Fleet, peers: seq<LedgerEntry>, a: Agent) {
    forall p :: CleanedAt(f, g, peers, a, p)
  }

  ghost predicate GatewaySame(f: Fleet, g: Fleet) { g.live == f.live }

  ghost predicate BundlesSame(f: Fleet, g: Fleet) { g.history == f.history }

  ghost predicate OnlyRow(f: Fleet, g: Fleet, i: int, r: Row) { 0 <= i < |f.rows| && g.rows == f.rows[i := r] }

  lemma FlipMeaning(f: Fleet, i: nat)
    requires i < |f.rows| && HasBundle(f, f.rows[i].agent) && Stored(f, f.rows[i].agent).a2a.Some?
    ensures var g := Flip(f, i); var r := f.rows[i];
            RestSame(f, g) && GatewaySame(f, g) && OnlyIdentity(f, g, r.agent, r.newToken) &&
            OnlyRow(f, g, i, r.(status := AwaitingTarget, newVersion := |f.history[r.agent]| + 1))
  {
    var doc := Stored(f, f.rows[i].agent).a2a.value;
    assert Render(Some(doc), NO_UPDATES.(identityKey := Some(f.rows[i].newToken))) == doc.(identityKey := f.rows[i].newToken);
  }

  lemma CleanupMeaning(f: Fleet, g: Fleet, peers: seq<LedgerEntry>, a: Agent)
    requires g.history == Store(f, CleanupJobs(f, peers, a)).history
    ensures LedgerCleaned(f, g, peers, a)
  {
    hide CleanedBundle;
    forall p ensures CleanedAt(f, g, peers, a, p) {
      if ToClean(f, peers, a, p) { CleanedMeaning(f, p, a); }
    }
  }

  lemma CleanedMeaning(f: Fleet, p: Agent, a: Agent)
    requires HasBundle(f, p) && a in DocOf(Stored(f, p)).overlap
    ensures CleanedBundle(f, p, a).a2a.Some? && CleanedBundle(f, p, a).modelKey == Stored(f, p).modelKey
    ensures Cleaned(a, DocOf(Stored(f, p)), DocOf(CleanedBundle(f, p, a)))
  {
  }

  /** A completed identity rotation: the old key is gone, no ledger peer holds its overlap, and the row holds no plaintext. */
  lemma CompleteIdentityMeaning(f: Fleet, i: nat)
    requires i < |f.rows| && f.rows[i].kind.A2aIdentity?
    ensures var g := Complete(f, i); var r := f.rows[i];
            RestSame(f, g) && OnlyDeleted(f, g, r.oldToken) && LedgerCleaned(f, g, r.peers, r.agent) &&
            OnlyRow(f, g, i, r.(status := Completed, oldToken := "", newToken := "", failed := false))
  {
    hide CleanupJobs, LedgerCleaned;
    var r := f.rows[i];
    RevokeSameBundles(f, i);
    CleanupMeaning(f, Complete(f, i), r.peers, r.agent);
  }

  lemma CompleteModelMeaning(f: Fleet, i: nat)
    requires i < |f.rows| && f.rows[i].kind.ModelKey?
    ensures var g := Complete(f, i); var r := f.rows[i];
            RestSame(f, g) && BundlesSame(f, g) && OnlyRow(f, g, i, r.(status := Completed, failed := false)) &&
            if r.oldAlias in f.live then OnlyDeleted(f, g, f.live[r.oldAlias]) else GatewaySame(f, g)
  {
  }

  /** What becomes of a row a pass takes to revocation, by the gateway's answer. */
  ghost predicate RevocationTried(f: Fleet, g: Fleet, i: int, obeyed: bool)
    requires 0 <= i < |f.rows|
  {
    var r := f.rows[i];
    RestSame(f, g) &&
    if !obeyed then BundlesSame(f, g) && GatewaySame(f, g) && OnlyRow(f, g, i, r.(status := AwaitingRevoke, failed := true))
    else if r.kind.A2aIdentity? then
      OnlyDeleted(f, g, r.oldToken) && LedgerCleaned(f, g, r.peers, r.agent) &&
      OnlyRow(f, g, i, r.(status := Completed, oldToken := "", newToken := "", failed := false))
    else
      BundlesSame(f, g) && OnlyRow(f, g, i, r.(status := Completed, failed := false)) &&
      if r.oldAlias in f.live then OnlyDeleted(f, g, f.live[r.oldAlias]) else GatewaySame(f, g)
  }

  lemma StageMeaning(f: Fleet, i: nat, reply: Reply)
    requires i < |f.rows| && f.rows[i].status.AwaitingRevoke? && Reached(f, f.rows[i].peers) == f.rows[i].peers
    requires f.rows[i].kind.A2aIdentity? ==> f.rows[i].oldToken != ""
    ensures RevocationTried(f, RevokeStage(f, i, reply), i, Obeyed(f, i, reply))
  {
    hide Complete, CleanupLost, LedgerCleaned, OnlyDeleted;
    if f.rows[i].kind.A2aIdentity? { CompleteIdentityMeaning(f, i); } else { CompleteModelMeaning(f, i); }
  }

  /** The row's status only: what a confirmed row's revocation leaves is what it leaves from the row as it was. */
  lemma ConfirmedStage(f: Fleet, g: Fleet, i: nat, obeyed: bool)
    requires i < |f.rows| && RevocationTried(Confirm(f, i), g, i, obeyed)
    ensures RevocationTried(f, g, i, obeyed)
  {
    hide OnlyDeleted;
    var c := Confirm(f, i);
    var r := f.rows[i];
    assert c.rows[i] == r.(status := AwaitingRevoke);
    assert forall k :: OnlyDeleted(c, g, k) == OnlyDeleted(f, g, k) by { SameDeleted(f, c, g); }
    if r.kind.A2aIdentity? && obeyed { SameCleaned(f, c, g, r.peers, r.agent); }
  }

  lemma SameDeleted(f: Fleet, c: Fleet, g: Fleet)
    requires c.live == f.live
    ensures forall k :: OnlyDeleted(c, g, k) == OnlyDeleted(f, g, k)
  {
  }

  lemma SameCleaned(f: Fleet, c: Fleet, g: Fleet, peers: seq<LedgerEntry>, a: Agent)
    requires c.history == f.history && LedgerCleaned(c, g, peers, a)
    ensures LedgerCleaned(f, g, peers, a)
  {
    hide Cleaned, SameEntry;
    forall p ensures CleanedAt(f, g, peers, a, p) { assert CleanedAt(c, g, peers, a, p); }
  }

  /** The device reported this version or a later one. */
  predicate HasReported(f: Fleet, d: Agent, version: nat) { d in f.reports && f.reports[d] >= version }

  /** The row awaits revocation, or its target reported the flipped bundle, or a forced sweep does not ask. */
  predicate ToRevoke(f: Fleet, r: Row, forced: bool) {
    r.status == AwaitingRevoke ||
    ((forced || (r.newVersion > 0 && HasReported(f, r.agent, r.newVersion))) &&
     (r.status == AwaitingTarget || (r.kind == ModelKey && r.status == Delivering)))
  }

  /** Every ledger peer reported its overlap bundle, or a forced sweep does not ask. */
  predicate ToFlip(f: Fleet, r: Row, forced: bool) {
    r.kind == A2aIdentity && r.status == Delivering && (forced || forall e :: e in r.peers ==> HasReported(f, e.agent, e.version))
  }

  /** The gateway deleted the key, or refused although it holds none under a model key's alias. */
  predicate IsRevoked(f: Fleet, r: Row, reply: Reply) { reply == Deleted || (reply == Refused && r.kind == ModelKey && r.oldAlias !in f.live) }

  /**
   * All one pass does for a row, forced or not: a row due for revocation is revoked and closed if the gateway
   * obeys and marked failed if not; a delivering identity rotation whose peers confirmed, or that is forced,
   * is flipped; any other row, and everything around it, stays as it was.
   */
  lemma SweepRowMeaning(f: Fleet, i: nat, forced: bool, reply: Reply)
    requires Inv(f) && i < |f.rows|
    ensures var g := SweepRow(f, i, forced, reply); var r := f.rows[i];
            if ToRevoke(f, r, forced) then RevocationTried(f, g, i, IsRevoked(f, r, reply))
            else if ToFlip(f, r, forced) then
              RestSame(f, g) && GatewaySame(f, g) && OnlyIdentity(f, g, r.agent, r.newToken) &&
              OnlyRow(f, g, i, r.(status := AwaitingTarget, newVersion := |f.history[r.agent]| + 1))
            else g == f
  {
    hide Inv, Flip, RevocationTried, OnlyIdentity, ToRevoke, DueForRevocation, PeersConfirmed;
    SameConditions(f, i, forced, reply);
    if ToRevoke(f, f.rows[i], forced) {
      DuePass(f, i, forced, reply);
    } else {
      OtherPass(f, i, forced, reply);
      if ToFlip(f, f.rows[i], forced) {
        FlipPossible(f, i);
        FlipMeaning(f, i);
      }
    }
  }

  lemma SameConditions(f: Fleet, i: nat, forced: bool, reply: Reply)
    requires i < |f.rows|
    ensures ToRevoke(f, f.rows[i], forced) <==> DueForRevocation(f, i, forced)
    ensures ToFlip(f, f.rows[i], forced) <==> f.rows[i].kind == A2aIdentity && f.rows[i].status == Delivering && (forced || PeersConfirmed(f, i))
    ensures IsRevoked(f, f.rows[i], reply) <==> Obeyed(f, i, reply)
  {
  }

  lemma DuePass(f: Fleet, i: nat, forced: bool, reply: Reply)
    requires Inv(f) && i < |f.rows| && DueForRevocation(f, i, forced)
    ensures RevocationTried(f, SweepRow(f, i, forced, reply), i, Obeyed(f, i, reply))
  {
    hide Inv, RevokeStage, Flip, RevocationTried;
    InvRow(f, i);
    if f.rows[i].kind.A2aIdentity? && f.rows[i].Open() { FlipPossible(f, i); }
    if f.rows[i].status.AwaitingRevoke? {
      ReachesAll(f, i);
      StageMeaning(f, i, reply);
    } else {
      ReachesAllAfterConfirm(f, i);
      StageMeaning(Confirm(f, i), i, reply);
      ConfirmedStage(f, RevokeStage(Confirm(f, i), i, reply), i, Obeyed(f, i, reply));
    }
  }

  lemma OtherPass(f: Fleet, i: nat, forced: bool, reply: Reply)
    requires Inv(f) && i < |f.rows| && !DueForRevocation(f, i, forced)
    ensures f.rows[i].kind == A2aIdentity && f.rows[i].status == Delivering ==> Known(f, f.rows[i].agent)
    ensures SweepRow(f, i, forced, reply) ==
            if f.rows[i].kind == A2aIdentity && f.rows[i].status == Delivering && (forced || PeersConfirmed(f, i)) then Flip(f, i) else f
  {
    hide Inv, RevokeStage, FlipBundle;
    InvRow(f, i);
    if f.rows[i].kind.A2aIdentity? && f.rows[i].Open() { FlipPossible(f, i); }
  }
}
