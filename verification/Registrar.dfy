/**
 * The registrar process: its tables as fields, its routines as methods that update them.  Every method
 * is tied to the function of the fleet state that the run theorems are about.
 */
module Registrar {
  import opened A2aDoc
  import opened Fleet
  import opened FleetSteps
  import opened FleetSweep

  /** identity_blobs: only the current bundle and its version. */
  datatype Blob = Blob(bundle: Bundle, version: nat)

  /** One resolved mesh peer. */
  datatype MeshPeer = MeshPeer(agent: Agent, identityKey: Key, overlapKey: Key)

  function PeerOf(f: Fleet, c: Agent): MeshPeer {
    MeshPeer(c, TokenFor(f, c), OverlapFor(f, c))
  }

  function PeersOf(f: Fleet, names: seq<Agent>): (r: seq<MeshPeer>)
    ensures |r| == |names| && forall j :: 0 <= j < |r| ==> r[j].agent == names[j]
  {
    seq(|names|, j requires 0 <= j < |names| => PeerOf(f, names[j]))
  }

  /** The bundles an enroll stores: the target's, then each peer's. */
  function MergeJobs(f: Fleet, x: Agent, own: A2a, peers: seq<Agent>, nexts: map<Agent, A2a>): map<Agent, Bundle>
    requires Known(f, x) && forall p :: p in peers ==> Known(f, p) && p in nexts
  {
    if peers == [] then map[x := WithDoc(Last(f, x), own)]
    else
      var n := |peers| - 1;
      MergeJobs(f, x, own, peers[..n], nexts)[peers[n] := WithDoc(Last(f, peers[n]), nexts[peers[n]])]
  }

  lemma {:induction false} MergeJobsEntries(f: Fleet, x: Agent, own: A2a, peers: seq<Agent>, nexts: map<Agent, A2a>)
    requires Known(f, x) && x !in peers && forall p :: p in peers ==> Known(f, p) && p in nexts
    ensures var jobs := MergeJobs(f, x, own, peers, nexts);
            forall d :: (d in jobs <==> d == x || d in peers) &&
                        (d in jobs ==> Known(f, d) && jobs[d] == WithDoc(Last(f, d), if d == x then own else nexts[d]))
  {
    if peers != [] {
      var n := |peers| - 1;
      assert peers == peers[..n] + [peers[n]];
      MergeJobsEntries(f, x, own, peers[..n], nexts);
    }
  }

  lemma {:induction false} MeshPeerListFacts(f: Fleet, x: Agent, order: seq<Agent>)
    requires forall i, j :: 0 <= i < j < |order| ==> order[i] != order[j]
    ensures var r := MeshPeerList(f, x, order);
            (forall c :: c in r <==> c in order && c in MeshPeers(f, x)) && (forall i, j :: 0 <= i < j < |r| ==> r[i] != r[j])
  {
    if order != [] {
      var n := |order| - 1;
      assert order == order[..n] + [order[n]];
      MeshPeerListFacts(f, x, order[..n]);
    }
  }

  // ------------------------------------------------------------------ joining stores

  lemma StoreOne(f: Fleet, d: Agent, b: Bundle)
    requires d in f.history
    ensures Store(f, map[d := b]) == f.(history := f.history[d := f.history[d] + [b]])
  {
  }

  lemma StoreNothing(f: Fleet)
    ensures Store(f, map[]) == f
  {
  }

  lemma StoreJoin(f: Fleet, jobs: map<Agent, Bundle>, d: Agent, b: Bundle)
    requires d !in jobs
    ensures Store(Store(f, jobs), map[d := b]) == Store(f, jobs[d := b])
  {
  }

  /** One more ledger entry of the cleanup: a peer met twice, or already clean, changes nothing. */
  lemma CleanupStep(f: Fleet, peers: seq<LedgerEntry>, j: nat, a: Agent)
    requires j < |peers| && Known(f, peers[j].agent)
    ensures var g := Store(f, CleanupJobs(f, peers[..j], a)); var p := peers[j].agent;
            Known(g, p) &&
            if NeedsCleanup(g, p, a) then
              p !in CleanupJobs(f, peers[..j], a) && CleanedBundle(g, p, a) == CleanedBundle(f, p, a) &&
              CleanupJobs(f, peers[..j + 1], a) == CleanupJobs(f, peers[..j], a)[p := CleanedBundle(f, p, a)]
            else CleanupJobs(f, peers[..j + 1], a) == CleanupJobs(f, peers[..j], a)
  {
    hide CleanedBundle;
    var p := peers[j].agent;
    var jobs := CleanupJobs(f, peers[..j], a);
    var g := Store(f, jobs);
    assert peers[..j + 1] == peers[..j] + [peers[j]];
    assert LedgerNames(peers[..j + 1]) == LedgerNames(peers[..j]) + {p};
    if p in jobs {
      CleanedEntries(f, p, a);
      assert Last(g, p) == jobs[p];
    } else {
      assert g.history[p] == f.history[p];
      SameLastBundle(f, g, p, a);
    }
  }

  lemma SameLastBundle(f: Fleet, g: Fleet, p: Agent, a: Agent)
    requires Known(f, p) && Known(g, p) && Last(f, p) == Last(g, p)
    ensures CleanedBundle(f, p, a) == CleanedBundle(g, p, a)
  {
  }

  lemma NoCleanup(f: Fleet, peers: seq<LedgerEntry>, a: Agent)
    ensures CleanupJobs(f, peers[..0], a) == map[] && Store(f, CleanupJobs(f, peers[..0], a)) == f
  {
    StoreNothing(f);
  }

  lemma ReferencingKnown(f: Fleet, a: Agent, p: Agent)
    requires IsReferencing(f, a, p)
    ensures p in f.history && Known(f, p)
  {
  }

  lemma AreOverlapJobs(f: Fleet, jobs: map<Agent, Bundle>, a: Agent, minted: Key, oldToken: Key)
    requires forall p :: p in jobs <==> IsReferencing(f, a, p)
    requires forall p :: p in jobs ==> Known(f, p) && jobs[p] == WithDoc(Last(f, p), OverlapDoc(f, p, a, minted, oldToken))
    ensures jobs == OverlapJobs(f, a, minted, oldToken)
  {
  }

  /** Minting changes nothing the scan reads. */
  lemma SameReference(f: Fleet, m: Fleet, a: Agent, p: Agent)
    requires m.history == f.history
    ensures IsReferencing(m, a, p) == IsReferencing(f, a, p)
  {
  }

  lemma ListsReferencing(f: Fleet, m: Fleet, a: Agent, order: seq<Agent>)
    requires m.history == f.history && forall d :: d in f.history ==> d in order
    ensures forall p :: p in ReferencingList(f, a, order) <==> IsReferencing(m, a, p)
  {
    hide IsReferencing;
    forall p ensures p in ReferencingList(f, a, order) <==> IsReferencing(m, a, p) {
      SameReference(f, m, a, p);
      if IsReferencing(f, a, p) { ReferencingKnown(f, a, p); }
    }
  }

  lemma SameOverlap(f: Fleet, m: Fleet, a: Agent, minted: Key, oldToken: Key)
    requires m.history == f.history
    ensures OverlapJobs(m, a, minted, oldToken) == OverlapJobs(f, a, minted, oldToken)
  {
    hide IsReferencing, OverlapDoc;
    forall p ensures IsReferencing(m, a, p) == IsReferencing(f, a, p) { SameReference(f, m, a, p); }
    forall p | Known(f, p) ensures OverlapDoc(m, p, a, minted, oldToken) == OverlapDoc(f, p, a, minted, oldToken) {
      SameOverlapDoc(f, m, p, a, minted, oldToken);
    }
    assert forall p :: p in f.history && IsReferencing(f, a, p) ==> Known(f, p) by {
      forall p | IsReferencing(f, a, p) ensures Known(f, p) { ReferencingKnown(f, a, p); }
    }
  }

  lemma SameOverlapDoc(f: Fleet, m: Fleet, p: Agent, a: Agent, minted: Key, oldToken: Key)
    requires m.history == f.history && Known(f, p)
    ensures OverlapDoc(m, p, a, minted, oldToken) == OverlapDoc(f, p, a, minted, oldToken)
  {
  }

  /** Mint, deliveries and insert make up the whole start. */
  lemma IdentityStarted(f: Fleet, m: Fleet, a: Agent, minted: Key, suffix: nat, ledger: seq<LedgerEntry>)
    requires NextSuffix(f, A2aIdentity, a) == Some(suffix) && m == Mint(f, MeshRotation(a, suffix), minted)
    requires ledger == Ledger(m, ReferencingList(f, a, f.order))
    ensures var g := Store(m, OverlapJobs(m, a, minted, CurrentIdentity(f, a)));
            g.(rows := g.rows + [Row(A2aIdentity, a, MeshBase(a), MeshRotation(a, suffix), CurrentIdentity(f, a), minted, 0, ledger, Delivering, false)])
            == StartIdentity(f, a, minted)
  {
    hide OverlapJobs, NextSuffix, CurrentIdentity, Store;
    SameOverlap(f, m, a, minted, CurrentIdentity(f, a));
    StoreRows(m, OverlapJobs(f, a, minted, CurrentIdentity(f, a)));
    var peers := ReferencingList(f, a, f.order);
    assert Ledger(m, peers) == Ledger(f, peers) by {
      forall j | 0 <= j < |peers| ensures Ledger(m, peers)[j] == Ledger(f, peers)[j] {
        assert Versions(m, peers[j]) == Versions(f, peers[j]);
      }
    }
  }

  lemma UntouchedLast(f: Fleet, jobs: map<Agent, Bundle>, p: Agent)
    requires Known(f, p) && p !in jobs
    ensures var g := Store(f, jobs); Known(g, p) && Last(g, p) == Last(f, p) && Versions(g, p) == Versions(f, p)
  {
  }

  lemma ModelStarted(f: Fleet, m: Fleet, a: Agent, minted: Key, suffix: nat)
    requires Known(f, a) && NextSuffix(f, ModelKey, a) == Some(suffix) && m == Mint(f, ModelRotation(a, suffix), minted)
    ensures var g := Store(m, map[a := Last(m, a).(modelKey := minted)]);
            g.(rows := g.rows + [Row(ModelKey, a, CurrentModelAlias(g.rows, a), ModelRotation(a, suffix), "", "", Versions(m, a) + 1, [], Delivering, false)])
            == StartModel(f, a, minted)
  {
    hide NextSuffix, Store;
    assert Last(m, a) == Last(f, a);
    StoreRows(m, map[a := Last(m, a).(modelKey := minted)]);
  }

  /** Minting changes nothing the merges read. */
  lemma SameMerges(f: Fleet, m: Fleet, x: Agent, key: Key, url: string)
    requires m.history == f.history && m.rows == f.rows && m.active == f.active && m.order == f.order && Known(f, x)
    ensures MeshPeers(m, x) == MeshPeers(f, x) && EnrolledDoc(m, x, key, url) == EnrolledDoc(f, x, key, url)
    ensures forall p :: Known(f, p) ==> PeerDoc(m, p, x, key) == PeerDoc(f, p, x, key)
  {
    hide TokenFor, OverlapFor, PeerDoc, EnrolledDoc, MeshPeers;
    SamePeers(f, m, x);
    SamePeerList(f, m, x, f.order);
    SameEnrolledDoc(f, m, x, key, url);
    forall p | Known(f, p) ensures PeerDoc(m, p, x, key) == PeerDoc(f, p, x, key) { SamePeerDoc(f, m, p, x, key); }
  }

  lemma SameEnrolledDoc(f: Fleet, m: Fleet, x: Agent, key: Key, url: string)
    requires m.history == f.history && m.rows == f.rows && m.order == f.order && Known(f, x)
    requires MeshPeers(m, x) == MeshPeers(f, x) && MeshPeerList(m, x, f.order) == MeshPeerList(f, x, f.order)
    ensures EnrolledDoc(m, x, key, url) == EnrolledDoc(f, x, key, url)
  {
    hide MeshPeers, TokenFor, OverlapFor, MeshPeerList, Render;
    forall c ensures TokenFor(m, c) == TokenFor(f, c) && OverlapFor(m, c) == OverlapFor(f, c) { SameTokens(f, m, c); }
    assert (map c | c in MeshPeers(m, x) :: TokenFor(m, c)) == (map c | c in MeshPeers(f, x) :: TokenFor(f, c));
    assert (map c | c in MeshPeers(m, x) && OverlapFor(m, c) != "" :: OverlapFor(m, c)) ==
           (map c | c in MeshPeers(f, x) && OverlapFor(f, c) != "" :: OverlapFor(f, c));
  }

  lemma SameTokens(f: Fleet, m: Fleet, c: Agent)
    requires m.history == f.history && m.rows == f.rows
    ensures TokenFor(m, c) == TokenFor(f, c) && OverlapFor(m, c) == OverlapFor(f, c)
  {
  }

  lemma SamePeers(f: Fleet, m: Fleet, x: Agent)
    requires m.history == f.history && m.rows == f.rows && m.active == f.active
    ensures MeshPeers(m, x) == MeshPeers(f, x)
  {
    hide TokenFor;
    forall c ensures TokenFor(m, c) == TokenFor(f, c) { SameTokens(f, m, c); }
  }

  lemma {:induction false} SamePeerList(f: Fleet, m: Fleet, x: Agent, order: seq<Agent>)
    requires MeshPeers(m, x) == MeshPeers(f, x)
    ensures MeshPeerList(m, x, order) == MeshPeerList(f, x, order)
  {
    if order != [] { SamePeerList(f, m, x, order[..|order| - 1]); }
  }

  lemma SamePeerDoc(f: Fleet, m: Fleet, p: Agent, x: Agent, key: Key)
    requires m.history == f.history && m.rows == f.rows && Known(f, p)
    ensures PeerDoc(m, p, x, key) == PeerDoc(f, p, x, key)
  {
  }

  /** The bundles of both legs, for any key decision. */
  function BothLegs(f: Fleet, x: Agent, key: Key, url: string): map<Agent, Bundle>
    requires Known(f, x)
  {
    map d | d in f.history && (d == x || d in MeshPeers(f, x)) ::
      WithDoc(Last(f, d), if d == x then EnrolledDoc(f, x, key, url) else PeerDoc(f, d, x, key))
  }

  lemma AreBothLegs(f: Fleet, x: Agent, key: Key, url: string, jobs: map<Agent, Bundle>)
    requires Known(f, x)
    requires forall d :: d in jobs <==> d == x || d in MeshPeers(f, x)
    requires forall d :: d in jobs ==> Known(f, d) && jobs[d] == WithDoc(Last(f, d), if d == x then EnrolledDoc(f, x, key, url) else PeerDoc(f, d, x, key))
    ensures jobs == BothLegs(f, x, key, url)
  {
    hide MeshPeers, EnrolledDoc, PeerDoc;
  }

  /** Mint and merges make up the whole enroll. */
  lemma EnrollDone(f: Fleet, g: Fleet, x: Agent, url: string, minted: Key)
    requires Known(f, x)
    requires var m := if EnrollMints(f, x) then Mint(f, MeshBase(x), minted) else f;
             g == Store(m, BothLegs(m, x, EnrollKey(f, x, minted), url))
    ensures g == Enroll(f, x, url, minted, f.history.Keys)
  {
    hide MeshPeers, EnrolledDoc, PeerDoc, Store, EnrollMints, EnrollKey;
    var m := if EnrollMints(f, x) then Mint(f, MeshBase(x), minted) else f;
    var key := EnrollKey(f, x, minted);
    SameMerges(f, m, x, key, url);
    PeersHaveBundles(f, x);
    var jobs := BothLegs(m, x, key, url);
    assert jobs == EnrollJobs(f, x, url, minted) by {
      forall d | d in jobs ensures Last(m, d) == Last(f, d) {}
    }
    assert Restrict(jobs, f.history.Keys) == jobs;
  }

  lemma PeersHaveBundles(f: Fleet, x: Agent)
    ensures forall c :: c in MeshPeers(f, x) ==> c in f.history && Known(f, c) && c != x
  {
  }

  lemma NoPeersYet(f: Fleet, x: Agent)
    ensures PeersOf(f, MeshPeerList(f, x, [])) == []
  {
  }

  lemma PeerListStep(f: Fleet, x: Agent, order: seq<Agent>, i: nat)
    requires i < |order| && Known(f, order[i])
    ensures PeersOf(f, MeshPeerList(f, x, order[..i + 1])) == PeersOf(f, MeshPeerList(f, x, order[..i])) +
      (if order[i] != x && order[i] in f.active && TokenFor(f, order[i]) != ""
       then [MeshPeer(order[i], TokenFor(f, order[i]), OverlapFor(f, order[i]))] else [])
  {
    hide TokenFor, OverlapFor;
    assert order[..i + 1][..i] == order[..i];
    IsMeshPeer(f, x, order[i]);
  }

  lemma IsMeshPeer(f: Fleet, x: Agent, c: Agent)
    requires Known(f, c)
    ensures c in MeshPeers(f, x) <==> c != x && c in f.active && TokenFor(f, c) != ""
  {
  }

  lemma IsEnrolledDoc(f: Fleet, x: Agent, key: Key, url: string, tokens: map<Agent, Key>, overlaps: map<Agent, Key>)
    requires Known(f, x)
    requires forall c :: (c in tokens <==> c in MeshPeers(f, x)) && (c in tokens ==> tokens[c] == TokenFor(f, c))
    requires forall c :: (c in overlaps <==> c in MeshPeers(f, x) && OverlapFor(f, c) != "") && (c in overlaps ==> overlaps[c] == OverlapFor(f, c))
    ensures Render(Last(f, x).a2a, Updates(Some(key), Some(url), Some(MeshPeerList(f, x, f.order)), tokens, overlaps, [])) == EnrolledDoc(f, x, key, url)
  {
    hide MeshPeers, TokenFor, OverlapFor, MeshPeerList, Render;
    assert tokens == map c | c in MeshPeers(f, x) :: TokenFor(f, c);
    assert overlaps == map c | c in MeshPeers(f, x) && OverlapFor(f, c) != "" :: OverlapFor(f, c);
  }

  lemma {:induction false} ReachedPrefix(f: Fleet, peers: seq<LedgerEntry>, j: nat)
    requires j <= |peers| && (forall m :: 0 <= m < j ==> Known(f, peers[m].agent))
    requires j < |peers| ==> !Known(f, peers[j].agent)
    ensures Reached(f, peers) == peers[..j]
  {
    if j > 0 {
      ReachedPrefix(f, peers[1..], j - 1);
      assert peers[..j] == [peers[0]] + peers[1..][..j - 1];
    }
  }

  class Registrar {
    var order: seq<Agent>
    var active: set<Agent>
    var blobs: map<Agent, Blob>
    var rows: seq<Row>
    var reports: map<Agent, nat>
    /** The gateway's key table, as this process sees it through /key/list. */
    var gateway: map<Alias, Key>
    /** The mesh's strict switch, a row of the settings table. */
    var strict: bool
    ghost var history: map<Agent, seq<Bundle>>
    ghost var issued: map<Key, Alias>
    ghost var devices: map<Agent, Device>

    ghost predicate Valid()
      reads this
    {
      blobs.Keys == history.Keys &&
      forall d :: d in blobs ==> |history[d]| > 0 && blobs[d] == Blob(history[d][|history[d]| - 1], |history[d]|)
    }

    /** The devices table lists each device with a bundle once. */
    ghost predicate Table()
      reads this
    {
      (forall d :: d in order <==> d in blobs) && (forall i, j :: 0 <= i < j < |order| ==> order[i] != order[j])
    }

    ghost function State(): Fleet
      reads this
    {
      Fleet(order, active, history, rows, reports, gateway, issued, devices, strict)
    }

    constructor ()
      ensures Valid() && Table() && State() == Birth(false)
    {
      order, active, blobs, rows, reports, gateway, strict := [], {}, map[], [], map[], map[], false;
      history, issued, devices := map[], map[], map[];
    }

    // ---------------------------------------------------------------- primitive writes

    /** rotateBundle: bump the version and replace the stored bundle in one transaction. */
    method RotateBundle(d: Agent, bundle: Bundle) returns (version: nat)
      requires Valid() && d in blobs
      modifies this`blobs, this`history
      ensures Valid() && State() == Store(old(State()), map[d := bundle])
      ensures blobs.Keys == old(blobs.Keys) && version == old(Versions(State(), d)) + 1
    {
      StoreOne(State(), d, bundle);
      version := blobs[d].version + 1;
      blobs := blobs[d := Blob(bundle, version)];
      history := history[d := history[d] + [bundle]];
    }

    method MintKey(alias: Alias, key: Key)
      requires Valid() && Fresh(State(), key)
      modifies this`gateway, this`issued
      ensures Valid() && State() == Mint(old(State()), alias, key)
    {
      gateway := gateway[alias := key];
      issued := issued[key := alias];
    }

    method DeleteAtGateway(key: Key)
      requires Valid()
      modifies this`gateway
      ensures Valid() && State() == old(State()).(live := DeleteKey(old(State()).live, key))
    {
      gateway := map al | al in gateway && gateway[al] != key :: gateway[al];
    }

    method NoteFailed(i: nat)
      requires Valid() && i < |rows|
      modifies this`rows
      ensures Valid() && State() == NoteFailure(old(State()), i)
    {
      rows := rows[i := rows[i].(failed := true)];
    }

    // ------------------------------------------------------------------------ lookups

    /** findOpenRotationByAgent. */
    method FindOpen(a: Agent, kind: Kind) returns (r: Option<nat>)
      ensures r == OpenRow(rows, a, kind)
    {
      var i := |rows|;
      while i > 0
        invariant 0 <= i <= |rows|
        invariant OpenRow(rows, a, kind) == OpenRow(rows[..i], a, kind)
      {
        i := i - 1;
        if rows[i].agent == a && rows[i].kind == kind && rows[i].Open() { return Some(i); }
        assert rows[..i + 1][..i] == rows[..i];
      }
      return None;
    }

    /** countPriorRotations. */
    method CountPrior(a: Agent, kind: Kind) returns (prior: nat)
      ensures prior == PriorCount(rows, a, kind)
    {
      prior := 0;
      var i := 0;
      while i < |rows|
        invariant 0 <= i <= |rows| && prior == PriorCount(rows[..i], a, kind)
      {
        assert rows[..i + 1][..i] == rows[..i];
        if rows[i].agent == a && rows[i].kind == kind { prior := prior + 1; }
        i := i + 1;
      }
      assert rows[..i] == rows;
    }

    /** freshMeshAlias or freshModelAlias. */
    method ProbeSuffix(a: Agent, kind: Kind) returns (r: Option<nat>)
      ensures r == NextSuffix(State(), kind, a)
    {
      hide PriorCount;
      var prior := CountPrior(a, kind);
      var n := prior + 1;
      while n < prior + 1 + PROBES
        invariant prior + 1 <= n <= prior + 1 + PROBES
        invariant FreshSuffix(gateway, kind, a, prior + 1, PROBES) == FreshSuffix(gateway, kind, a, n, prior + 1 + PROBES - n)
      {
        if RotationAlias(kind, a, n) !in gateway { return Some(n); }
        n := n + 1;
      }
      return None;
    }

    /** currentModelAlias: the newest model row by id. */
    method NewestModelAlias(a: Agent) returns (alias: Alias)
      ensures alias == CurrentModelAlias(rows, a)
    {
      var newest: Option<nat> := None;
      var i := 0;
      while i < |rows|
        invariant 0 <= i <= |rows| && newest == NewestRow(rows[..i], a, ModelKey)
      {
        assert rows[..i + 1][..i] == rows[..i];
        if rows[i].agent == a && rows[i].kind.ModelKey? { newest := Some(i); }
        i := i + 1;
      }
      assert rows[..i] == rows;
      alias := if newest.Some? then rows[newest.value].newAlias else ModelBase(a);
    }

    method ArePeersConfirmed(i: nat) returns (ok: bool)
      requires i < |rows|
      ensures ok == PeersConfirmed(State(), i)
    {
      var j := 0;
      while j < |rows[i].peers|
        invariant 0 <= j <= |rows[i].peers|
        invariant forall m :: 0 <= m < j ==> Confirmed(State(), rows[i].peers[m].agent, rows[i].peers[m].version)
      {
        var e := rows[i].peers[j];
        if e.agent !in reports || reports[e.agent] < e.version {
          assert e in rows[i].peers && !Confirmed(State(), e.agent, e.version);
          return false;
        }
        j := j + 1;
      }
      return true;
    }

    // -------------------------------------------------------------------------- starts

    /** referencingPeerDevices: one scan of the joined tables, in table order. */
    method ScanReferencing(a: Agent) returns (peers: seq<Agent>)
      requires Valid() && Table()
      ensures peers == ReferencingList(State(), a, order)
      ensures forall i, j :: 0 <= i < j < |peers| ==> peers[i] != peers[j]
    {
      hide ReferencingList;
      NoReferencing(State(), a);
      peers := [];
      var i := 0;
      while i < |order|
        invariant 0 <= i <= |order|
        invariant peers == ReferencingList(State(), a, order[..i])
        invariant forall m, n :: 0 <= m < n < |peers| ==> peers[m] != peers[n]
      {
        ReferencingStep(State(), a, order, i);
        var p := order[i];
        var doc := blobs[p].bundle.a2a;
        if p != a && doc.Some? && (a in doc.value.tokens || a in doc.value.trusted) { peers := peers + [p]; }
        i := i + 1;
      }
      assert order[..i] == order;
    }

    /** The guards of startIdentityRotation, then the alias probe. */
    method GuardIdentityStart(a: Agent) returns (ok: bool, oldToken: Key, suffix: nat)
      requires Valid()
      ensures ok <==> Known(State(), a) && CurrentIdentity(State(), a) != "" && OpenRow(rows, a, A2aIdentity).None? &&
                      NextSuffix(State(), A2aIdentity, a).Some?
      ensures ok ==> a in blobs && oldToken == CurrentIdentity(State(), a) && NextSuffix(State(), A2aIdentity, a) == Some(suffix)
    {
      ok, oldToken, suffix := false, "", 0;
      if a !in blobs || blobs[a].bundle.a2a.None? || blobs[a].bundle.a2a.value.identityKey == "" { return; }
      oldToken := blobs[a].bundle.a2a.value.identityKey;
      var open := FindOpen(a, A2aIdentity);
      if open.Some? { return; }
      var probe := ProbeSuffix(a, A2aIdentity);
      if probe.None? { return; }
      ok, suffix := true, probe.value;
    }

    /** startIdentityRotation; None when a guard refuses, the new row's id otherwise. */
    method StartIdentityRotation(a: Agent, minted: Key) returns (id: Option<nat>)
      requires Valid() && Table() && Fresh(State(), minted)
      modifies this
      ensures Valid()
      ensures id.Some? <==> old(CanStartIdentity(State(), a, minted))
      ensures State() == if id.Some? then StartIdentity(old(State()), a, minted) else old(State())
      ensures id.Some? ==> id.value == old(|rows|)
    {
      hide Store, OverlapJobs, StartIdentity, IsReferencing, CurrentIdentity, OpenRow, NextSuffix, ReferencingList, Mint;
      ghost var f := State();
      var ok, oldToken, suffix := GuardIdentityStart(a);
      if !ok { return None; }
      var peers := ScanReferencing(a);
      MintKey(MeshRotation(a, suffix), minted);
      ListsReferencing(f, State(), a, order);
      var i := StoreIdentity(a, minted, oldToken, suffix, peers, f);
      id := Some(i);
    }

    /** The deliveries, and the row that lists them. */
    method StoreIdentity(a: Agent, minted: Key, oldToken: Key, suffix: nat, peers: seq<Agent>, ghost f: Fleet) returns (i: nat)
      requires Valid() && (forall m, n :: 0 <= m < n < |peers| ==> peers[m] != peers[n])
      requires peers == ReferencingList(f, a, f.order) && forall p :: p in peers <==> IsReferencing(State(), a, p)
      requires NextSuffix(f, A2aIdentity, a) == Some(suffix) && oldToken == CurrentIdentity(f, a)
      requires State() == Mint(f, MeshRotation(a, suffix), minted)
      modifies this`blobs, this`history, this`rows
      ensures Valid() && State() == StartIdentity(f, a, minted) && i == old(|rows|)
    {
      hide Store, OverlapJobs, StartIdentity, IsReferencing, CurrentIdentity, NextSuffix, Ledger, ReferencingList, Mint;
      ghost var m := State();
      var ledger := DeliverOverlap(a, peers, minted, oldToken);
      IdentityStarted(f, m, a, minted, suffix, ledger);
      i := |rows|;
      rows := rows + [Row(A2aIdentity, a, MeshBase(a), MeshRotation(a, suffix), oldToken, minted, 0, ledger, Delivering, false)];
    }

    /** The delivery loop: NEW as canonical, OLD as overlap, the ledger entry from the version returned. */
    method DeliverOverlap(a: Agent, peers: seq<Agent>, minted: Key, oldToken: Key) returns (ledger: seq<LedgerEntry>)
      requires Valid() && (forall i, j :: 0 <= i < j < |peers| ==> peers[i] != peers[j])
      requires forall p :: p in peers <==> IsReferencing(State(), a, p)
      modifies this`blobs, this`history
      ensures Valid() && State() == Store(old(State()), OverlapJobs(old(State()), a, minted, oldToken))
      ensures ledger == Ledger(old(State()), peers)
    {
      hide Store, OverlapDoc, IsReferencing;
      ghost var f := State();
      ghost var jobs: map<Agent, Bundle> := map[];
      ledger := [];
      StoreNothing(f);
      var i := 0;
      while i < |peers|
        invariant 0 <= i <= |peers| && Valid() && State() == Store(f, jobs)
        invariant forall p :: p in jobs <==> p in peers[..i]
        invariant forall p :: p in jobs ==> Known(f, p) && jobs[p] == WithDoc(Last(f, p), OverlapDoc(f, p, a, minted, oldToken))
        invariant ledger == Ledger(f, peers)[..i]
      {
        var p := peers[i];
        ReferencingKnown(f, a, p);
        var version := DeliverOne(p, a, minted, oldToken, f, jobs);
        jobs := jobs[p := WithDoc(Last(f, p), OverlapDoc(f, p, a, minted, oldToken))];
        ledger := ledger + [LedgerEntry(p, version)];
        i := i + 1;
      }
      assert peers[..i] == peers;
      AreOverlapJobs(f, jobs, a, minted, oldToken);
    }

    method DeliverOne(p: Agent, a: Agent, minted: Key, oldToken: Key, ghost f: Fleet, ghost jobs: map<Agent, Bundle>) returns (version: nat)
      requires Valid() && State() == Store(f, jobs) && p !in jobs && Known(f, p)
      modifies this`blobs, this`history
      ensures Valid() && State() == Store(f, jobs[p := WithDoc(Last(f, p), OverlapDoc(f, p, a, minted, oldToken))])
      ensures version == Versions(f, p) + 1
    {
      hide Store;
      UntouchedLast(f, jobs, p);
      var next := RenderA2aJson(blobs[p].bundle.a2a, NO_UPDATES.(addTokens := map[a := minted], addOverlap := map[a := oldToken]));
      StoreJoin(f, jobs, p, WithDoc(blobs[p].bundle, next));
      version := RotateBundle(p, WithDoc(blobs[p].bundle, next));
    }

    /** The guards of startModelRotation, then the alias probe. */
    method GuardModelStart(a: Agent) returns (ok: bool, suffix: nat)
      requires Valid()
      ensures ok <==> Known(State(), a) && Last(State(), a).modelKey != "" && OpenRow(rows, a, ModelKey).None? &&
                      NextSuffix(State(), ModelKey, a).Some?
      ensures ok ==> a in blobs && NextSuffix(State(), ModelKey, a) == Some(suffix)
    {
      ok, suffix := false, 0;
      if a !in blobs || blobs[a].bundle.modelKey == "" { return; }
      var open := FindOpen(a, ModelKey);
      if open.Some? { return; }
      var probe := ProbeSuffix(a, ModelKey);
      if probe.None? { return; }
      ok, suffix := true, probe.value;
    }

    /** startModelRotation. */
    method StartModelRotation(a: Agent, minted: Key) returns (id: Option<nat>)
      requires Valid() && Fresh(State(), minted)
      modifies this
      ensures Valid()
      ensures id.Some? <==> old(CanStartModel(State(), a, minted))
      ensures State() == if id.Some? then StartModel(old(State()), a, minted) else old(State())
    {
      hide Store, StartModel, OpenRow, NextSuffix, Mint;
      ghost var f := State();
      var ok, suffix := GuardModelStart(a);
      if !ok { return None; }
      MintKey(ModelRotation(a, suffix), minted);
      var i := StoreModel(a, minted, suffix, f);
      id := Some(i);
    }

    /** The merge of the new key and the row that waits for it. */
    method StoreModel(a: Agent, minted: Key, suffix: nat, ghost f: Fleet) returns (i: nat)
      requires Valid() && a in blobs && Known(f, a) && NextSuffix(f, ModelKey, a) == Some(suffix)
      requires State() == Mint(f, ModelRotation(a, suffix), minted)
      modifies this`blobs, this`history, this`rows
      ensures Valid() && State() == StartModel(f, a, minted)
    {
      hide Store, StartModel, OpenRow, NextSuffix, CurrentModelAlias, Mint;
      ModelStarted(f, State(), a, minted, suffix);
      var version := RotateBundle(a, blobs[a].bundle.(modelKey := minted));
      var oldAlias := NewestModelAlias(a);
      i := |rows|;
      rows := rows + [Row(ModelKey, a, oldAlias, ModelRotation(a, suffix), "", "", version, [], Delivering, false)];
    }

    // -------------------------------------------------------------------------- enroll

    /** The pair a render carries for one agent. */
    method TokensOf(c: Agent) returns (token: Key, overlap: Key)
      requires Valid()
      ensures token == TokenFor(State(), c) && overlap == OverlapFor(State(), c)
    {
      token, overlap := "", "";
      if c in blobs && blobs[c].bundle.a2a.Some? { token := blobs[c].bundle.a2a.value.identityKey; }
      var open := FindOpen(c, A2aIdentity);
      if open.Some? && rows[open.value].newToken != "" {
        token, overlap := rows[open.value].newToken, rows[open.value].oldToken;
      }
    }

    /** resolveMeshPeers: one scan of the joined tables. */
    method ResolveMeshPeers(x: Agent) returns (peers: seq<MeshPeer>)
      requires Valid() && Table()
      ensures peers == PeersOf(State(), MeshPeerList(State(), x, order))
    {
      hide TokenFor, OverlapFor, MeshPeers, MeshPeerList, PeersOf;
      ghost var f := State();
      NoPeersYet(f, x);
      peers := [];
      var i := 0;
      while i < |order|
        invariant 0 <= i <= |order| && peers == PeersOf(f, MeshPeerList(f, x, order[..i]))
      {
        var c := order[i];
        PeerListStep(f, x, order, i);
        var token, overlap := TokensOf(c);
        if c != x && c in active && token != "" { peers := peers + [MeshPeer(c, token, overlap)]; }
        i := i + 1;
      }
      assert order[..i] == order;
    }

    /** The token and overlap objects of leg 1. */
    method TokenObjects(peers: seq<MeshPeer>, ghost f: Fleet, ghost names: seq<Agent>) returns (tokens: map<Agent, Key>, overlaps: map<Agent, Key>)
      requires peers == PeersOf(f, names)
      ensures forall c :: (c in tokens <==> c in names) && (c in tokens ==> tokens[c] == TokenFor(f, c))
      ensures forall c :: (c in overlaps <==> c in names && OverlapFor(f, c) != "") && (c in overlaps ==> overlaps[c] == OverlapFor(f, c))
    {
      hide TokenFor, OverlapFor;
      tokens, overlaps := map[], map[];
      var i := 0;
      while i < |peers|
        invariant 0 <= i <= |peers|
        invariant forall c :: (c in tokens <==> c in names[..i]) && (c in tokens ==> tokens[c] == TokenFor(f, c))
        invariant forall c :: (c in overlaps <==> c in names[..i] && OverlapFor(f, c) != "") &&
                              (c in overlaps ==> overlaps[c] == OverlapFor(f, c))
      {
        tokens := tokens[peers[i].agent := peers[i].identityKey];
        if peers[i].overlapKey != "" { overlaps := overlaps[peers[i].agent := peers[i].overlapKey]; }
        i := i + 1;
      }
      assert names[..i] == names;
    }

    /** Merge leg 2: every peer's next document, rendered before anything is stored. */
    method RenderPeers(x: Agent, key: Key, peers: seq<Agent>) returns (nexts: map<Agent, A2a>)
      requires Valid() && forall p :: p in peers ==> Known(State(), p)
      ensures forall p :: (p in nexts <==> p in peers) && (p in nexts ==> nexts[p] == PeerDoc(State(), p, x, key))
    {
      nexts := map[];
      var i := 0;
      while i < |peers|
        invariant 0 <= i <= |peers|
        invariant forall p :: (p in nexts <==> p in peers[..i]) && (p in nexts ==> nexts[p] == PeerDoc(State(), p, x, key))
      {
        var p := peers[i];
        assert Known(State(), p);
        var open := FindOpen(x, A2aIdentity);
        var u := NO_UPDATES.(addTrusted := Some([x]), addTokens := map[x := key]);
        if open.Some? && rows[open.value].oldToken != "" && rows[open.value].newToken != "" {
          u := u.(addTokens := map[x := rows[open.value].newToken], addOverlap := map[x := rows[open.value].oldToken]);
        }
        var next := RenderA2aJson(blobs[p].bundle.a2a, u);
        nexts := nexts[p := next];
        i := i + 1;
      }
    }

    /** One rotateBundle per document: the target's first, then each peer's, in scan order. */
    method ApplyMerges(x: Agent, own: A2a, peers: seq<Agent>, nexts: map<Agent, A2a>)
      requires Valid() && Known(State(), x) && x !in peers && (forall m, n :: 0 <= m < n < |peers| ==> peers[m] != peers[n])
      requires forall p :: p in peers ==> Known(State(), p) && p in nexts
      modifies this`blobs, this`history
      ensures Valid() && State() == Store(old(State()), MergeJobs(old(State()), x, own, peers, nexts))
    {
      hide Store, Known;
      ghost var f := State();
      StoreNothing(f);
      ApplyOne(x, own, f, map[]);
      var i := 0;
      while i < |peers|
        invariant 0 <= i <= |peers| && Valid() && State() == Store(f, MergeJobs(f, x, own, peers[..i], nexts))
      {
        assert peers[..i + 1][..i] == peers[..i];
        MergeJobsEntries(f, x, own, peers[..i], nexts);
        ApplyOne(peers[i], nexts[peers[i]], f, MergeJobs(f, x, own, peers[..i], nexts));
        i := i + 1;
      }
      assert peers[..i] == peers;
    }

    method ApplyOne(p: Agent, next: A2a, ghost f: Fleet, ghost was: map<Agent, Bundle>)
      requires Valid() && State() == Store(f, was) && Known(f, p) && p !in was
      modifies this`blobs, this`history
      ensures Valid() && State() == Store(f, was[p := WithDoc(Last(f, p), next)])
    {
      hide Store;
      UntouchedLast(f, was, p);
      StoreJoin(f, was, p, WithDoc(Last(f, p), next));
      var _ := RotateBundle(p, WithDoc(blobs[p].bundle, next));
    }

    /** MINT, OPEN or REFUSE. */
    method DecideEnroll(x: Agent, minted: Key) returns (key: Option<Key>)
      requires Valid() && (x in blobs && MeshBase(x) !in gateway ==> Fresh(State(), minted))
      modifies this`gateway, this`issued
      ensures Valid() && (key.Some? <==> old(CanEnroll(State(), x, minted)))
      ensures State() == if key.Some? && old(EnrollMints(State(), x)) then Mint(old(State()), MeshBase(x), minted) else old(State())
      ensures key.Some? ==> key.value == EnrollKey(old(State()), x, minted)
    {
      if x !in blobs { return None; }
      var bundleKey := if blobs[x].bundle.a2a.Some? then blobs[x].bundle.a2a.value.identityKey else "";
      if MeshBase(x) !in gateway {
        MintKey(MeshBase(x), minted);
        return Some(minted);
      }
      key := if bundleKey != "" then Some(bundleKey) else None;
    }

    /** enrollAgent. */
    method EnrollAgent(x: Agent, url: string, minted: Key) returns (ok: bool)
      requires Valid() && Table() && (x in blobs && MeshBase(x) !in gateway ==> Fresh(State(), minted))
      modifies this
      ensures Valid() && ok == old(CanEnroll(State(), x, minted))
      ensures State() == if ok then Enroll(old(State()), x, url, minted, old(blobs).Keys) else old(State())
    {
      hide MeshPeers, EnrolledDoc, PeerDoc, Store, EnrollKey, Enroll, CurrentIdentity, MeshPeerList, TokenFor, OverlapFor;
      ghost var f := State();
      var key := DecideEnroll(x, minted);
      if key.None? { return false; }
      MergeBothLegs(x, url, key.value);
      EnrollDone(f, State(), x, url, minted);
      ok := true;
    }

    /** Both merge legs, rendered from one scan and then applied. */
    method MergeBothLegs(x: Agent, url: string, key: Key)
      requires Valid() && Table() && x in blobs
      modifies this`blobs, this`history
      ensures Valid() && State() == Store(old(State()), BothLegs(old(State()), x, key, url))
    {
      hide MeshPeers, EnrolledDoc, PeerDoc, Store, MeshPeerList, BothLegs, MergeJobs;
      ghost var f := State();
      MeshPeerListFacts(f, x, order);
      PeersHaveBundles(f, x);
      var own, names := RenderTarget(x, url, key);
      var nexts := RenderPeers(x, key, names);
      MergeJobsEntries(f, x, own, names, nexts);
      ApplyMerges(x, own, names, nexts);
      AreBothLegs(f, x, key, url, MergeJobs(f, x, own, names, nexts));
    }

    /** Merge leg 1: the target's next document. */
    method RenderTarget(x: Agent, url: string, key: Key) returns (own: A2a, names: seq<Agent>)
      requires Valid() && Table() && x in blobs
      ensures names == MeshPeerList(State(), x, order) && own == EnrolledDoc(State(), x, key, url)
    {
      hide MeshPeers, EnrolledDoc, MeshPeerList, TokenFor, OverlapFor, Render;
      ghost var f := State();
      MeshPeerListFacts(f, x, order);
      PeersHaveBundles(f, x);
      var peers := ResolveMeshPeers(x);
      names := seq(|peers|, j requires 0 <= j < |peers| => peers[j].agent);
      assert names == MeshPeerList(f, x, order);
      var tokens, overlaps := TokenObjects(peers, f, names);
      own := RenderA2aJson(blobs[x].bundle.a2a, Updates(Some(key), Some(url), Some(names), tokens, overlaps, []));
      IsEnrolledDoc(f, x, key, url, tokens, overlaps);
    }

    // --------------------------------------------------------------------------- sweep

    /** flipTarget; false when the target's bundle lost its a2a.json. */
    method FlipTarget(i: nat) returns (ok: bool)
      requires Valid() && i < |rows| && rows[i].kind.A2aIdentity? && rows[i].status.Delivering?
      modifies this
      ensures Valid() && ok == old(HasDoc(State(), rows[i].agent))
      ensures State() == if ok then Flip(old(State()), i) else old(State())
    {
      hide Store, Render;
      ghost var f := State();
      var a := rows[i].agent;
      if a !in blobs || blobs[a].bundle.a2a.None? { return false; }
      var next := RenderA2aJson(blobs[a].bundle.a2a, NO_UPDATES.(identityKey := Some(rows[i].newToken)));
      var version := RotateBundle(a, WithDoc(blobs[a].bundle, next));
      StoreRows(f, map[a := WithDoc(Last(f, a), next)]);
      rows := rows[i := rows[i].(status := AwaitingTarget, newVersion := version)];
      ok := true;
    }

    /** cleanupPeerOverlap: one bundle after the other, stopping at a device without a bundle. */
    method CleanupPeerOverlap(i: nat) returns (cleaned: nat, ok: bool)
      requires Valid() && i < |rows|
      modifies this`blobs, this`history
      ensures Valid()
      ensures var f := old(State()); var r := old(rows[i]);
              State() == Store(f, CleanupJobs(f, Reached(f, r.peers), r.agent)) &&
              cleaned == |CleanupJobs(f, Reached(f, r.peers), r.agent)| && ok == (Reached(f, r.peers) == r.peers)
    {
      hide Store, CleanupJobs, Reached, NeedsCleanup, CleanedBundle;
      ghost var f := State();
      var peers, a := rows[i].peers, rows[i].agent;
      cleaned := 0;
      NoCleanup(f, peers, a);
      var j := 0;
      while j < |peers|
        invariant 0 <= j <= |peers| && Valid() && rows == f.rows && blobs.Keys == f.history.Keys
        invariant forall m :: 0 <= m < j ==> Known(f, peers[m].agent)
        invariant State() == Store(f, CleanupJobs(f, peers[..j], a))
        invariant cleaned == |CleanupJobs(f, peers[..j], a)|
      {
        if peers[j].agent !in blobs {
          ReachedPrefix(f, peers, j);
          return cleaned, false;
        }
        var bumped := CleanOne(peers[j].agent, a, f, peers, j);
        if bumped { cleaned := cleaned + 1; }
        j := j + 1;
      }
      ReachedPrefix(f, peers, j);
      assert peers[..j] == peers;
      ok := true;
    }

    /** One peer of the cleanup: no version bump when its overlap entry is already gone. */
    method CleanOne(p: Agent, a: Agent, ghost f: Fleet, ghost peers: seq<LedgerEntry>, ghost j: nat) returns (bumped: bool)
      requires Valid() && j < |peers| && p == peers[j].agent && p in blobs && Known(f, p)
      requires State() == Store(f, CleanupJobs(f, peers[..j], a))
      modifies this`blobs, this`history
      ensures Valid() && blobs.Keys == old(blobs.Keys) && State() == Store(f, CleanupJobs(f, peers[..j + 1], a))
      ensures |CleanupJobs(f, peers[..j + 1], a)| == |CleanupJobs(f, peers[..j], a)| + (if bumped then 1 else 0)
    {
      hide CleanupJobs, Store;
      CleanupStep(f, peers, j, a);
      var doc := blobs[p].bundle.a2a;
      bumped := doc.Some? && a in doc.value.overlap;
      assert bumped == NeedsCleanup(State(), p, a);
      if bumped {
        var next := RenderA2aJson(doc, NO_UPDATES.(dropOverlap := [a]));
        StoreJoin(f, CleanupJobs(f, peers[..j], a), p, WithDoc(blobs[p].bundle, next));
        var _ := RotateBundle(p, WithDoc(blobs[p].bundle, next));
      }
    }

    /** revokeMeshKey or revokeModelKey: true when the old key is gone from the gateway. */
    method RevokeOldKey(i: nat, reply: Reply) returns (gone: bool)
      requires Valid() && i < |rows|
      modifies this`gateway
      ensures Valid()
      ensures var r := rows[i];
              gone == if r.kind.ModelKey? then !reply.Unconfigured? && !reply.Unreachable? && (r.oldAlias in old(gateway) ==> reply.Deleted?)
                      else reply.Deleted? && r.oldToken != ""
      ensures State() == if gone then Revoke(old(State()), i) else old(State())
    {
      var r := rows[i];
      if reply.Unconfigured? || reply.Unreachable? { return false; }
      if r.kind.ModelKey? {
        if r.oldAlias !in gateway { return true; }
        if reply.Refused? { return false; }
        DeleteAtGateway(gateway[r.oldAlias]);
      } else {
        if r.oldToken == "" || reply.Refused? { return false; }
        DeleteAtGateway(r.oldToken);
      }
      gone := true;
    }

    /** The awaiting_revoke arm of the sweep. */
    method RevokeAndClose(i: nat, reply: Reply)
      requires Valid() && i < |rows|
      modifies this
      ensures Valid() && State() == RevokeStage(old(State()), i, reply)
    {
      hide Revoke, RevokeStage, Store, CleanupJobs, Reached;
      ghost var f := State();
      RevokeSameBundles(f, i);
      StageCases(f, i, reply);
      var gone := RevokeOldKey(i, reply);
      if !gone {
        NoteFailed(i);
        return;
      }
      if rows[i].kind.ModelKey? {
        rows := rows[i := rows[i].(status := Completed, failed := false)];
        return;
      }
      StoreRows(State(), CleanupJobs(State(), Reached(State(), rows[i].peers), rows[i].agent));
      var _, ok := CleanupPeerOverlap(i);
      if ok {
        rows := rows[i := rows[i].(status := Completed, oldToken := "", newToken := "", failed := false)];
      } else {
        NoteFailed(i);
      }
    }

    /** The flip of one row, its failure noted. */
    method FlipOrNote(i: nat)
      requires Valid() && i < |rows| && rows[i].kind.A2aIdentity? && rows[i].status.Delivering?
      modifies this
      ensures Valid() && State() == if old(HasDoc(State(), rows[i].agent)) then Flip(old(State()), i) else NoteFailure(old(State()), i)
    {
      hide Flip, HasDoc;
      var ok := FlipTarget(i);
      if !ok { NoteFailed(i); }
    }

    /** advanceRotations over one row of its snapshot. */
    method AdvanceRow(i: nat, forced: bool, reply: Reply)
      requires Valid() && i < |rows|
      modifies this
      ensures Valid() && State() == SweepRow(old(State()), i, forced, reply)
    {
      hide Flip, RevokeStage, PeersConfirmed, HasDoc;
      var status := rows[i].status;
      if status.Completed? { return; }
      if rows[i].kind.A2aIdentity? && status.Delivering? {
        var confirmed := forced;
        if !forced { confirmed := ArePeersConfirmed(i); }
        if confirmed { FlipOrNote(i); }
        return;
      }
      if !status.AwaitingRevoke? {
        var r := rows[i];
        if !forced && (r.newVersion == 0 || r.agent !in reports || reports[r.agent] < r.newVersion) { return; }
        rows := rows[i := r.(status := AwaitingRevoke)];
      }
      RevokeAndClose(i, reply);
    }

    /** advanceRotations: every selected open row of the table as read at the start, oldest first. */
    method AdvanceRotations(only: Option<nat>, force: Option<nat>, replies: nat -> Reply)
      requires Valid()
      modifies this
      ensures Valid() && State() == Sweep(old(State()), only, force, replies)
    {
      hide SweepRow, SweepFrom;
      var snapshot := rows;
      var i := 0;
      while i < |snapshot|
        invariant 0 <= i <= |snapshot| && Valid() && |rows| == |snapshot| && rows[i..] == snapshot[i..]
        invariant SweepFrom(State(), i, only, force, replies) == Sweep(old(State()), only, force, replies)
      {
        SweepFromStep(State(), i, only, force, replies);
        var skip := (force.Some? && force.value != i) || (only.Some? && only.value != i);
        if snapshot[i].Open() && !skip { AdvanceRow(i, force.Some?, replies(i)); }
        i := i + 1;
      }
      SweepFromEnd(State(), only, force, replies);
    }

    /** The report handler: the applied version is recorded, then the sweep runs. */
    method ReportApplied(d: Agent, version: nat, replies: nat -> Reply)
      requires Valid()
      modifies this
      ensures Valid()
      ensures State() == Sweep(if version > 0 then old(State()).(reports := old(reports)[d := version]) else old(State()), None, None, replies)
    {
      if version > 0 { reports := reports[d := version]; }
      AdvanceRotations(None, None, replies);
    }
  }

  lemma NoReferencing(f: Fleet, a: Agent)
    ensures ReferencingList(f, a, []) == []
  {
  }

  lemma ReferencingStep(f: Fleet, a: Agent, order: seq<Agent>, i: nat)
    requires i < |order|
    ensures ReferencingList(f, a, order[..i + 1]) == ReferencingList(f, a, order[..i]) + (if IsReferencing(f, a, order[i]) then [order[i]] else [])
  {
    assert order[..i + 1][..i] == order[..i];
  }

  lemma {:induction false} ReachedSame(f: Fleet, g: Fleet, peers: seq<LedgerEntry>)
    requires f.history == g.history
    ensures Reached(f, peers) == Reached(g, peers)
  {
    if peers != [] { ReachedSame(f, g, peers[1..]); }
  }

  /** One round of the sweep's loop: a closed or unselected row is skipped. */
  lemma SweepFromStep(f: Fleet, i: nat, only: Option<nat>, force: Option<nat>, replies: nat -> Reply)
    requires i < |f.rows|
    ensures var g := if f.rows[i].Open() && Selected(i, only, force) then SweepRow(f, i, force.Some?, replies(i)) else f;
            |g.rows| == |f.rows| && g.rows[i + 1..] == f.rows[i + 1..] &&
            SweepFrom(f, i, only, force, replies) == SweepFrom(g, i + 1, only, force, replies)
  {
    SweepRowRows(f, i, force.Some?, replies(i));
    ClosedRow(f, i, force.Some?, replies(i));
    hide SweepRow;
  }

  lemma ClosedRow(f: Fleet, i: nat, forced: bool, reply: Reply)
    requires i < |f.rows|
    ensures !f.rows[i].Open() ==> SweepRow(f, i, forced, reply) == f
  {
  }

  lemma SweepFromEnd(f: Fleet, only: Option<nat>, force: Option<nat>, replies: nat -> Reply)
    ensures SweepFrom(f, |f.rows|, only, force, replies) == f
  {
  }

  /** The revocation stage, by what the gateway answered. */
  lemma StageCases(f: Fleet, i: nat, reply: Reply)
    requires i < |f.rows|
    ensures var r := f.rows[i]; var g := Revoke(f, i);
            var h := Store(g, CleanupJobs(g, Reached(g, r.peers), r.agent));
            RevokeStage(f, i, reply) ==
              if r.kind.ModelKey? then
                if !reply.Unconfigured? && !reply.Unreachable? && (r.oldAlias in f.live ==> reply.Deleted?)
                then SetRow(g, i, r.(status := Completed, failed := false)) else NoteFailure(f, i)
              else if !(reply.Deleted? && r.oldToken != "") then NoteFailure(f, i)
              else if Reached(g, r.peers) == r.peers then SetRow(h, i, r.(status := Completed, oldToken := "", newToken := "", failed := false))
              else NoteFailure(h, i)
  {
    hide Store, CleanupJobs, Reached;
    var r := f.rows[i];
    var g := Revoke(f, i);
    RevokeSameBundles(f, i);
    ReachedSame(f, g, r.peers);
    SameHistoryJobs(f, g, Reached(f, r.peers), r.agent);
    SameHistoryJobs(f, g, r.peers, r.agent);
    PartialCleanup(f, i);
    StoreRows(g, CleanupJobs(g, r.peers, r.agent));
  }

  /** What an interrupted cleanup stored is the cleanup restricted to the peers it reached. */
  lemma PartialCleanup(f: Fleet, i: nat)
    requires i < |f.rows|
    ensures var names := LedgerNames(Reached(f, f.rows[i].peers));
            CleanupLost(f, i, names) == Store(Revoke(f, i), CleanupJobs(f, Reached(f, f.rows[i].peers), f.rows[i].agent))
  {
    var peers := f.rows[i].peers;
    var reached := Reached(f, peers);
    assert forall e :: e in reached ==> e in peers;
    assert Restrict(CleanupJobs(f, peers, f.rows[i].agent), LedgerNames(reached)) == CleanupJobs(f, reached, f.rows[i].agent);
  }
}
