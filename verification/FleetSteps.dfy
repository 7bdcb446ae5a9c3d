/** Every action of the fleet keeps the invariant, so every run does. */
module FleetSteps {
  import opened A2aDoc
  import opened Fleet
  import opened FleetInvariant

  // ------------------------------------------------------------- reading the invariant

  lemma InvRow(f: Fleet, i: nat)
    requires Inv(f) && i < |f.rows|
    ensures RowOk(f, i)
  {
  }

  lemma InvDevice(f: Fleet, d: Agent)
    requires Inv(f) && (d in f.devices || d in f.history)
    ensures d in f.devices && d in f.history && Known(f, d) && DeviceOk(f, d)
  {
    assert DeviceOk(f, d);
  }

  // -------------------------------------------------------------- small legal changes

  lemma LastFacts(f: Fleet, d: Agent)
    requires Inv(f) && d in f.history
    ensures Known(f, d) && d in f.devices && DeviceOk(f, d) && BundleOk(f, d, Last(f, d))
    ensures CurrentIdentity(f, d) != "" ==> LiveKey(f, CurrentIdentity(f, d))
    ensures Last(f, d).modelKey != "" ==> LiveKey(f, Last(f, d).modelKey)
  {
    assert DeviceOk(f, d);
    assert BundleOk(f, d, At(f, d, Versions(f, d)));
  }

  lemma LastFitsRow(f: Fleet, i: nat, d: Agent)
    requires Inv(f) && d in f.history && IsCurrent(f, i)
    ensures LegalForRow(f, i, d, Last(f, d))
  {
    InvRow(f, i);
    var r := f.rows[i];
    var n := Versions(f, d);
    if r.kind.A2aIdentity? {
      forall e | e in r.peers && e.agent == d ensures PeerVersionOk(f, i, Last(f, d)) {
        assert PeerVersionOk(f, i, At(f, e.agent, n));
      }
    } else if r.agent == d && r.Open() {
      assert ModelVersionOk(f, i, At(f, d, n));
    }
  }

  /** Storing a document that only touches tokens is legal when the tokens still fit every rotation. */
  lemma DocLegal(f: Fleet, d: Agent, doc: A2a)
    requires Inv(f) && d in f.history && doc.identityKey == CurrentIdentity(f, d) && (doc.strict ==> f.strict)
    requires forall i, e :: 0 <= i < |f.rows| && IsCurrent(f, i) && f.rows[i].kind.A2aIdentity? && e in f.rows[i].peers && e.agent == d
               ==> PeerVersionOk(f, i, WithDoc(Last(f, d), doc))
    ensures Legal(f, d, WithDoc(Last(f, d), doc))
  {
    LastFacts(f, d);
    forall i | 0 <= i < |f.rows| && IsCurrent(f, i) ensures LegalForRow(f, i, d, WithDoc(Last(f, d), doc)) {
      LastFitsRow(f, i, d);
    }
  }

  lemma EnvLegal(f: Fleet, d: Agent, key: Key)
    requires Inv(f) && d in f.history && key != "" && LiveKey(f, key) && ModelAliasOf(f.issued[key], d)
    requires forall i :: 0 <= i < |f.rows| && f.rows[i].agent == d && f.rows[i].kind.ModelKey? ==> !f.rows[i].Open()
    ensures Legal(f, d, Last(f, d).(modelKey := key))
  {
    var b := Last(f, d).(modelKey := key);
    LastFacts(f, d);
    forall i | 0 <= i < |f.rows| && IsCurrent(f, i) ensures LegalForRow(f, i, d, b) {
      LastFitsRow(f, i, d);
      assert PeerVersionOk(f, i, Last(f, d)) == PeerVersionOk(f, i, b);
    }
  }

  /** A document agreeing with the last one on agent c's entries fits c's rotation as the last one did. */
  lemma UntouchedFits(f: Fleet, i: nat, d: Agent, doc: A2a)
    requires Inv(f) && d in f.history && IsCurrent(f, i) && f.rows[i].kind.A2aIdentity?
    requires exists e :: e in f.rows[i].peers && e.agent == d
    requires Last(f, d).a2a.Some? ==>
               var prev := Last(f, d).a2a.value; var c := f.rows[i].agent;
               (c in prev.tokens ==> c in doc.tokens && doc.tokens[c] == prev.tokens[c]) &&
               (c in prev.overlap ==> c in doc.overlap && doc.overlap[c] == prev.overlap[c]) &&
               (c in prev.peerKeys && c in prev.trusted ==> c in doc.peerKeys && c in doc.trusted)
    ensures PeerVersionOk(f, i, WithDoc(Last(f, d), doc))
  {
    LastFitsRow(f, i, d);
  }

  /** The open row of an agent is its newest row; a completed newest row means there is none. */
  lemma OpenIsCurrent(f: Fleet, a: Agent, kind: Kind)
    requires Inv(f)
    ensures var r := OpenRow(f.rows, a, kind);
            (r.Some? ==> IsCurrent(f, r.value)) &&
            forall i :: 0 <= i < |f.rows| && IsCurrent(f, i) && f.rows[i].agent == a && f.rows[i].kind == kind ==>
              (f.rows[i].Open() <==> r == Some(i))
  {
    var r := OpenRow(f.rows, a, kind);
    if r.Some? { InvRow(f, r.value); }
  }

  // ------------------------------------------------------------------------ enroll

  lemma MintedFunctions(f: Fleet, al: Alias, k: Key)
    ensures var g := Mint(f, al, k);
            (forall d :: CurrentIdentity(g, d) == CurrentIdentity(f, d)) &&
            (forall d :: Known(g, d) == Known(f, d)) && (forall d :: Known(f, d) ==> Last(g, d) == Last(f, d))
  {
  }

  /** What leg 1 leaves in the target's document for another agent c. */
  lemma EnrolledEntries(f: Fleet, x: Agent, key: Key, url: string, c: Agent)
    requires Known(f, x)
    ensures var doc := EnrolledDoc(f, x, key, url);
            var was := if Last(f, x).a2a.Some? then Last(f, x).a2a.value else EMPTY;
            doc.identityKey == key &&
            if c in MeshPeers(f, x) then
              c in doc.tokens && doc.tokens[c] == TokenFor(f, c) &&
              (OverlapFor(f, c) != "" ==> c in doc.overlap && doc.overlap[c] == OverlapFor(f, c))
            else
              (c in was.tokens ==> c in doc.tokens && doc.tokens[c] == was.tokens[c]) &&
              (c in was.overlap ==> c in doc.overlap && doc.overlap[c] == was.overlap[c])
    ensures var doc := EnrolledDoc(f, x, key, url);
            var was := if Last(f, x).a2a.Some? then Last(f, x).a2a.value else EMPTY;
            doc.peerKeys == was.peerKeys && doc.strict == was.strict && forall a :: a in was.trusted ==> a in doc.trusted
  {
  }

  /** What leg 2 leaves in a peer's document. */
  lemma PeerEntries(f: Fleet, p: Agent, x: Agent, key: Key)
    requires Known(f, p)
    ensures var doc := PeerDoc(f, p, x, key);
            var was := if Last(f, p).a2a.Some? then Last(f, p).a2a.value else EMPTY;
            var r := OpenRow(f.rows, x, A2aIdentity);
            doc.identityKey == was.identityKey && x in doc.tokens &&
            (r.Some? && f.rows[r.value].oldToken != "" && f.rows[r.value].newToken != "" ==>
              doc.tokens[x] == f.rows[r.value].newToken && x in doc.overlap && doc.overlap[x] == f.rows[r.value].oldToken) &&
            (r.None? ==> doc.tokens[x] == key) &&
            forall c :: c != x ==>
              (c in was.tokens ==> c in doc.tokens && doc.tokens[c] == was.tokens[c]) &&
              (c in was.overlap ==> c in doc.overlap && doc.overlap[c] == was.overlap[c])
    ensures var doc := PeerDoc(f, p, x, key);
            var was := if Last(f, p).a2a.Some? then Last(f, p).a2a.value else EMPTY;
            doc.peerKeys == was.peerKeys && doc.strict == was.strict && forall a :: a in was.trusted ==> a in doc.trusted
  {
  }

  lemma EnrolledFits(f: Fleet, x: Agent, key: Key, url: string, i: nat)
    requires Inv(f) && x in f.history && IsCurrent(f, i) && f.rows[i].kind.A2aIdentity?
    requires exists e :: e in f.rows[i].peers && e.agent == x
    ensures PeerVersionOk(f, i, WithDoc(Last(f, x), EnrolledDoc(f, x, key, url)))
  {
    hide Inv, EnrolledDoc, MeshPeers;
    var c := f.rows[i].agent;
    InvRow(f, i);
    InvDevice(f, x);
    OpenIsCurrent(f, c, A2aIdentity);
    EnrolledEntries(f, x, key, url, c);
    if c !in MeshPeers(f, x) { UntouchedFits(f, i, x, EnrolledDoc(f, x, key, url)); }
  }

  lemma PeerDocFits(f: Fleet, d: Agent, x: Agent, key: Key, i: nat)
    requires Inv(f) && d in f.history && IsCurrent(f, i) && f.rows[i].kind.A2aIdentity?
    requires exists e :: e in f.rows[i].peers && e.agent == d
    requires f.rows[i].agent == x ==> key == CurrentIdentity(f, x)
    ensures PeerVersionOk(f, i, WithDoc(Last(f, d), PeerDoc(f, d, x, key)))
  {
    hide Inv, PeerDoc;
    InvRow(f, i);
    InvDevice(f, d);
    OpenIsCurrent(f, x, A2aIdentity);
    PeerEntries(f, d, x, key);
    if f.rows[i].agent != x { UntouchedFits(f, i, d, PeerDoc(f, d, x, key)); }
  }

  /** Minting a fresh key does not change what a bundle has to satisfy. */
  lemma MintFits(f: Fleet, al: Alias, k: Key, i: nat, d: Agent, b: Bundle)
    requires i < |f.rows| && Fresh(f, k) && LegalForRow(f, i, d, b)
    ensures LegalForRow(Mint(f, al, k), i, d, b)
  {
    var g := Mint(f, al, k);
    assert PeersAt(f, i) == PeersAt(g, i) && NewKey(f, i) == NewKey(g, i);
  }

  /** An enroll mints only for an agent without identity rows, so its new key contradicts no rotation. */
  lemma EnrollRowsFit(f: Fleet, x: Agent, url: string, minted: Key, d: Agent, i: nat)
    requires Inv(f) && Enabled(f, AEnroll(x, url, minted, {})) && d in EnrollJobs(f, x, url, minted) && IsCurrent(f, i)
    ensures LegalForRow(f, i, d, EnrollJobs(f, x, url, minted)[d])
  {
    hide Inv, EnrolledDoc, PeerDoc, MeshPeers;
    var r := f.rows[i];
    var key := EnrollKey(f, x, minted);
    InvDevice(f, d);
    LastFitsRow(f, i, d);
    if d == x { EnrolledEntries(f, x, key, url, x); } else { PeerEntries(f, d, x, key); }
    if r.kind.A2aIdentity? {
      forall e | e in r.peers && e.agent == d ensures PeerVersionOk(f, i, EnrollJobs(f, x, url, minted)[d]) {
        if d == x { EnrolledFits(f, x, key, url, i); } else { PeerDocFits(f, d, x, key, i); }
      }
    }
  }

  /** The documents an enroll merges are legal, whoever the receiving device is. */
  lemma EnrollLegal(f: Fleet, g: Fleet, x: Agent, url: string, minted: Key)
    requires Inv(f) && Inv(g) && Enabled(f, AEnroll(x, url, minted, {}))
    requires g == if EnrollMints(f, x) then Mint(f, MeshBase(x), minted) else f
    ensures AllLegal(g, EnrollJobs(f, x, url, minted))
  {
    hide Inv, EnrolledDoc, PeerDoc, MeshPeers;
    var jobs := EnrollJobs(f, x, url, minted);
    var key := EnrollKey(f, x, minted);
    forall d | d in jobs && d in g.history ensures Legal(g, d, jobs[d]) {
      MintedFunctions(f, MeshBase(x), minted);
      LastFacts(g, d);
      if d == x { EnrolledEntries(f, x, key, url, x); } else { PeerEntries(f, d, x, key); }
      forall i | 0 <= i < |g.rows| && IsCurrent(g, i) ensures LegalForRow(g, i, d, jobs[d]) {
        assert IsCurrent(f, i);
        EnrollRowsFit(f, x, url, minted, d, i);
        if EnrollMints(f, x) { MintFits(f, MeshBase(x), minted, i, d, jobs[d]); }
      }
    }
  }

  lemma EnrollKeeps(f: Fleet, x: Agent, url: string, minted: Key, reach: set<Agent>)
    requires Inv(f) && Enabled(f, AEnroll(x, url, minted, reach))
    ensures Inv(Enroll(f, x, url, minted, reach))
  {
    var g := if EnrollMints(f, x) then Mint(f, MeshBase(x), minted) else f;
    if EnrollMints(f, x) { MintKeeps(f, MeshBase(x), minted); }
    EnrollLegal(f, g, x, url, minted);
    StoreKeeps(g, Restrict(EnrollJobs(f, x, url, minted), reach));
  }

  // ----------------------------------------------------------------- rotation starts

  lemma OverlapEntries(f: Fleet, p: Agent, a: Agent, newKey: Key, oldKey: Key)
    requires Known(f, p)
    ensures var doc := OverlapDoc(f, p, a, newKey, oldKey);
            var was := if Last(f, p).a2a.Some? then Last(f, p).a2a.value else EMPTY;
            doc.identityKey == was.identityKey && doc.peerKeys == was.peerKeys && doc.strict == was.strict && doc.trusted == was.trusted &&
            a in doc.tokens && doc.tokens[a] == newKey && a in doc.overlap && doc.overlap[a] == oldKey &&
            forall c :: c != a ==>
              (c in was.tokens ==> c in doc.tokens && doc.tokens[c] == was.tokens[c]) &&
              (c in was.overlap ==> c in doc.overlap && doc.overlap[c] == was.overlap[c])
  {
  }

  lemma OverlapFits(f: Fleet, a: Agent, minted: Key, p: Agent, i: nat)
    requires Inv(f) && CurrentIdentity(f, a) != "" && OpenRow(f.rows, a, A2aIdentity).None? && p in f.history
    requires IsCurrent(f, i) && f.rows[i].kind.A2aIdentity? && exists e :: e in f.rows[i].peers && e.agent == p
    ensures PeerVersionOk(f, i, WithDoc(Last(f, p), OverlapDoc(f, p, a, minted, CurrentIdentity(f, a))))
  {
    hide Inv, OverlapDoc;
    InvRow(f, i);
    InvDevice(f, p);
    OverlapEntries(f, p, a, minted, CurrentIdentity(f, a));
    if f.rows[i].agent != a { UntouchedFits(f, i, p, OverlapDoc(f, p, a, minted, CurrentIdentity(f, a))); }
  }

  lemma OverlapLegal(f: Fleet, a: Agent, al: Alias, minted: Key)
    requires Inv(f) && CurrentIdentity(f, a) != "" && OpenRow(f.rows, a, A2aIdentity).None?
    requires Fresh(f, minted) && al !in f.live
    ensures AllLegal(Mint(f, al, minted), OverlapJobs(f, a, minted, CurrentIdentity(f, a)))
  {
    hide Inv, OverlapDoc;
    var g := Mint(f, al, minted);
    MintKeeps(f, al, minted);
    MintedFunctions(f, al, minted);
    var jobs := OverlapJobs(f, a, minted, CurrentIdentity(f, a));
    forall p | p in jobs && p in g.history ensures Legal(g, p, jobs[p]) {
      LastFacts(g, p);
      OverlapEntries(f, p, a, minted, CurrentIdentity(f, a));
      forall i | 0 <= i < |g.rows| && IsCurrent(g, i) ensures LegalForRow(g, i, p, jobs[p]) {
        assert IsCurrent(f, i);
        LastFitsRow(f, i, p);
        if f.rows[i].kind.A2aIdentity? && (exists e :: e in f.rows[i].peers && e.agent == p) { OverlapFits(f, a, minted, p, i); }
        assert LegalForRow(f, i, p, jobs[p]);
        MintFits(f, al, minted, i, p, jobs[p]);
      }
    }
  }

  /** Everything but the rows part of the invariant is blind to the registry. */
  lemma RowsOnly(f: Fleet, rows: seq<Row>)
    requires Inv(f)
    ensures var g := f.(rows := rows); Shape(g) && Disks(g) && KeysOk(g) && PresentedLive(g)
  {
    var g := f.(rows := rows);
    forall d | d in g.devices ensures DeviceOk(g, d) { InvDevice(f, d); }
    forall d, x | 1 <= x <= Versions(g, d) ensures BundleOk(g, d, At(g, d, x)) { assert BundleOk(f, d, At(f, d, x)); }
    SamePresented(f, g);
  }

  /** Two states with the same bundles, disks and gateway keys, and the same row up to its failure note. */
  ghost predicate SameAround(f: Fleet, g: Fleet, i: nat) {
    i < |f.rows| && i < |g.rows| && g.rows[i] == f.rows[i].(failed := g.rows[i].failed) && f.history == g.history &&
    f.devices == g.devices && f.live == g.live && f.issued == g.issued && f.strict == g.strict
  }

  lemma SameFits(f: Fleet, g: Fleet, i: nat)
    requires SameAround(f, g, i)
    ensures PeersAt(f, i) == PeersAt(g, i) && TargetAt(f, i) == TargetAt(g, i) && NewKey(f, i) == NewKey(g, i)
    ensures forall b :: PeerVersionOk(f, i, b) == PeerVersionOk(g, i, b)
    ensures forall b :: TargetVersionOk(f, i, b) == TargetVersionOk(g, i, b)
    ensures forall b :: ModelVersionOk(f, i, b) == ModelVersionOk(g, i, b)
    ensures forall d :: Versions(f, d) == Versions(g, d)
    ensures forall d, x :: 1 <= x <= Versions(f, d) ==> At(f, d, x) == At(g, d, x)
  {
  }

  lemma SameIdentityRow(f: Fleet, g: Fleet, i: nat)
    requires SameAround(f, g, i) && IdentityRowOk(f, i)
    ensures IdentityRowOk(g, i)
  {
    SameFits(f, g, i);
    var r := g.rows[i];
    assert PeersOk(f, i) && TargetOk(f, i);
    assert PeersOk(g, i) by {
      forall e, x | e in r.peers && 1 <= e.version <= x <= Versions(g, e.agent)
        ensures PeerVersionOk(g, i, At(g, e.agent, x))
      {
        assert PeerVersionOk(f, i, At(f, e.agent, x));
      }
    }
    assert TargetOk(g, i) by {
      if r.status.Delivering? {
        forall x | 1 <= x <= Versions(g, r.agent) && IdentityOf(At(g, r.agent, x)) == r.newToken ensures PeersAt(g, i) {
          assert At(f, r.agent, x) == At(g, r.agent, x);
        }
      } else {
        forall x | 1 <= r.newVersion <= x <= Versions(g, r.agent) ensures TargetVersionOk(g, i, At(g, r.agent, x)) {
          assert TargetVersionOk(f, i, At(f, r.agent, x));
        }
      }
    }
  }

  lemma SameModelRow(f: Fleet, g: Fleet, i: nat)
    requires SameAround(f, g, i) && ModelRowOk(f, i)
    ensures ModelRowOk(g, i)
  {
    SameFits(f, g, i);
    var r := g.rows[i];
    forall x | r.Open() && 1 <= r.newVersion <= x <= Versions(g, r.agent) ensures ModelVersionOk(g, i, At(g, r.agent, x)) {
      assert ModelVersionOk(f, i, At(f, r.agent, x));
    }
  }

  lemma AppendRowKeeps(f: Fleet, r: Row)
    requires Inv(f) && OpenRow(f.rows, r.agent, r.kind).None?
    requires RowOk(f.(rows := f.rows + [r]), |f.rows|)
    ensures Inv(f.(rows := f.rows + [r]))
  {
    var g := f.(rows := f.rows + [r]);
    RowsOnly(f, g.rows);
    forall i | 0 <= i < |g.rows| ensures RowOk(g, i) {
      if i < |f.rows| { OlderRow(f, r, i); }
    }
  }

  lemma OlderRow(f: Fleet, r: Row, i: nat)
    requires i < |f.rows| && RowOk(f, i) && OpenRow(f.rows, r.agent, r.kind).None?
    ensures RowOk(f.(rows := f.rows + [r]), i)
  {
    var g := f.(rows := f.rows + [r]);
    assert g.rows[..i] == f.rows[..i] && g.rows[i] == f.rows[i];
    assert forall j :: i < j < |f.rows| ==> g.rows[j] == f.rows[j];
    assert forall j :: i < j < |g.rows| ==> g.rows[j] == (if j < |f.rows| then f.rows[j] else r);
    if IsCurrent(f, i) && !(r.agent == f.rows[i].agent && r.kind == f.rows[i].kind) { assert IsCurrent(g, i); }
    if IsCurrent(g, i) {
      forall j | i < j < |f.rows| ensures !(f.rows[j].agent == f.rows[i].agent && f.rows[j].kind == f.rows[i].kind) {
        assert g.rows[j] == f.rows[j];
      }
    }
    assert SameAround(f, g, i);
    if IsCurrent(g, i) {
      if f.rows[i].kind.A2aIdentity? { SameIdentityRow(f, g, i); } else { SameModelRow(f, g, i); }
    }
  }

  /** The order the ledger was written in loses no referencing peer and repeats none. */
  lemma LedgerEntries(f: Fleet, a: Agent)
    requires Inv(f)
    ensures forall e :: e in Ledger(f, ReferencingList(f, a, f.order)) <==>
              IsReferencing(f, a, e.agent) && e.version == Versions(f, e.agent) + 1
  {
    var peers := ReferencingList(f, a, f.order);
    var l := Ledger(f, peers);
    forall e: LedgerEntry | IsReferencing(f, a, e.agent) && e.version == Versions(f, e.agent) + 1 ensures e in l {
      assert e.agent in peers;
      var j :| 0 <= j < |peers| && peers[j] == e.agent;
      assert l[j] == e;
    }
  }

  /** The new row over the delivered bundles: every ledger version is the overlap bundle just stored. */
  lemma NewIdentityRow(f: Fleet, h: Fleet, a: Agent, minted: Key)
    requires Inv(f) && Inv(h) && CanStartIdentity(f, a, minted)
    requires h == Store(Mint(f, MeshRotation(a, NextSuffix(f, A2aIdentity, a).value), minted),
                        OverlapJobs(f, a, minted, CurrentIdentity(f, a)))
    requires LiveKey(h, minted)
    ensures RowOk(h.(rows := h.rows + [IdentityRow(f, a, minted)]), |f.rows|)
  {
    hide Inv, OverlapDoc, NextSuffix;
    var jobs := OverlapJobs(f, a, minted, CurrentIdentity(f, a));
    var r := IdentityRow(f, a, minted);
    var k := h.(rows := h.rows + [r]);
    var i := |f.rows|;
    StoreVersions(Mint(f, r.newAlias, minted), jobs);
    LedgerEntries(f, a);
    LastFacts(f, a);
    assert Last(k, a) == Last(f, a);
    forall e | e in r.peers ensures e.agent in jobs && Versions(k, e.agent) == e.version {
      assert IsReferencing(f, a, e.agent);
    }
    forall e, x | e in r.peers && 1 <= e.version <= x <= Versions(k, e.agent) ensures PeerVersionOk(k, i, At(k, e.agent, x)) {
      assert At(k, e.agent, x) == jobs[e.agent];
      OverlapEntries(f, e.agent, a, minted, CurrentIdentity(f, a));
    }
    assert PeersOk(k, i);
    NewTargetOk(f, k, a, minted, i);
    assert IdentityRowOk(k, i);
  }

  lemma NewTargetOk(f: Fleet, k: Fleet, a: Agent, minted: Key, i: nat)
    requires Inv(f) && Known(f, a) && minted !in f.issued && Known(k, a) && k.history[a] == f.history[a]
    requires i < |k.rows| && k.rows[i].agent == a && k.rows[i].kind.A2aIdentity? && k.rows[i].status.Delivering?
    requires k.rows[i].newToken == minted && minted != "" && k.rows[i].oldToken == CurrentIdentity(f, a) != ""
    ensures TargetOk(k, i)
  {
    hide Inv;
    forall x | 1 <= x <= Versions(k, a) ensures IdentityOf(At(k, a, x)) != minted {
      assert At(k, a, x) == At(f, a, x);
      BundleOkAt(f, a, x);
    }
    assert Last(k, a) == Last(f, a);
  }

  lemma BundleOkAt(f: Fleet, d: Agent, x: nat)
    requires Inv(f) && 1 <= x <= Versions(f, d)
    ensures BundleOk(f, d, At(f, d, x))
  {
  }

  lemma StartIdentityKeeps(f: Fleet, a: Agent, minted: Key)
    requires Inv(f) && CanStartIdentity(f, a, minted)
    ensures Inv(StartIdentity(f, a, minted))
  {
    hide Inv, OverlapJobs;
    var al := MeshRotation(a, NextSuffix(f, A2aIdentity, a).value);
    var jobs := OverlapJobs(f, a, minted, CurrentIdentity(f, a));
    var g := Mint(f, al, minted);
    MintKeeps(f, al, minted);
    InvKnown(f, a);
    OverlapLegal(f, a, al, minted);
    StoreKeeps(g, jobs);
    NewIdentityRow(f, Store(g, jobs), a, minted);
    AppendRowKeeps(Store(g, jobs), IdentityRow(f, a, minted));
  }

  lemma InvKnown(f: Fleet, a: Agent)
    requires Inv(f) && Known(f, a)
    ensures a in f.history && a in f.devices
  {
  }

  lemma StartIdentityLostKeeps(f: Fleet, a: Agent, minted: Key, reach: set<Agent>)
    requires Inv(f) && CanStartIdentity(f, a, minted)
    ensures Inv(StartIdentityLost(f, a, minted, reach))
  {
    var al := MeshRotation(a, NextSuffix(f, A2aIdentity, a).value);
    MintKeeps(f, al, minted);
    OverlapLegal(f, a, al, minted);
    StoreKeeps(Mint(f, al, minted), Restrict(OverlapJobs(f, a, minted, CurrentIdentity(f, a)), reach));
  }

  lemma NewModelRow(f: Fleet, h: Fleet, a: Agent, minted: Key)
    requires Inv(f) && CanStartModel(f, a, minted)
    requires h == Store(Mint(f, ModelRotation(a, NextSuffix(f, ModelKey, a).value), minted), map[a := Last(f, a).(modelKey := minted)])
    ensures RowOk(h.(rows := h.rows + [ModelRow(f, a)]), |f.rows|)
  {
    hide Inv;
    InvKnown(f, a);
    var r := ModelRow(f, a);
    var k := h.(rows := h.rows + [r]);
    assert k.rows[..|f.rows|] == f.rows;
    var newest := NewestRow(f.rows, a, ModelKey);
    if newest.Some? { InvRow(f, newest.value); assert IsCurrent(f, newest.value); }
    assert Versions(k, a) == r.newVersion && At(k, a, r.newVersion).modelKey == minted;
  }

  lemma StartModelKeeps(f: Fleet, a: Agent, minted: Key)
    requires Inv(f) && CanStartModel(f, a, minted)
    ensures Inv(StartModel(f, a, minted))
  {
    hide Inv;
    var al := ModelRotation(a, NextSuffix(f, ModelKey, a).value);
    var g := Mint(f, al, minted);
    MintKeeps(f, al, minted);
    MintedFunctions(f, al, minted);
    InvKnown(f, a);
    EnvLegal(g, a, minted);
    var jobs := map[a := Last(f, a).(modelKey := minted)];
    StoreKeeps(g, jobs);
    NewModelRow(f, Store(g, jobs), a, minted);
    AppendRowKeeps(Store(g, jobs), ModelRow(f, a));
  }

  lemma StartModelLostKeeps(f: Fleet, a: Agent, minted: Key, reach: set<Agent>)
    requires Inv(f) && CanStartModel(f, a, minted)
    ensures Inv(StartModelLost(f, a, minted, reach))
  {
    var al := ModelRotation(a, NextSuffix(f, ModelKey, a).value);
    MintKeeps(f, al, minted);
    MintedFunctions(f, al, minted);
    EnvLegal(Mint(f, al, minted), a, minted);
    StoreKeeps(Mint(f, al, minted), Restrict(map[a := Last(f, a).(modelKey := minted)], reach));
  }

  lemma ProvisionKeeps(f: Fleet, a: Agent, minted: Key)
    requires Inv(f) && CanProvision(f, a, minted) && OpenRow(f.rows, a, ModelKey).None?
    ensures Inv(Provision(f, a, minted))
  {
    MintKeeps(f, ModelBase(a), minted);
    MintedFunctions(f, ModelBase(a), minted);
    EnvLegal(Mint(f, ModelBase(a), minted), a, minted);
    StoreKeeps(Mint(f, ModelBase(a), minted), map[a := Last(f, a).(modelKey := minted)]);
  }

  // --------------------------------------------------------------------- row updates

  lemma {:induction false} SameAliasChain(rows: seq<Row>, i: nat, r: Row, a: Agent)
    requires i < |rows| && r.agent == rows[i].agent && r.kind == rows[i].kind && r.newAlias == rows[i].newAlias
    ensures NewestRow(rows[i := r], a, ModelKey) == NewestRow(rows, a, ModelKey)
    ensures CurrentModelAlias(rows[i := r], a) == CurrentModelAlias(rows, a)
    decreases |rows|
  {
    var n := |rows| - 1;
    if i < n {
      SameAliasChain(rows[..n], i, r, a);
      assert rows[i := r][..n] == rows[..n][i := r];
    } else {
      assert rows[i := r][..n] == rows[..n];
    }
  }

  /** Updating one row keeps the invariant when that row still holds: the others never look at it. */
  lemma SetRowKeeps(f: Fleet, i: nat, r: Row)
    requires Inv(f) && i < |f.rows|
    requires r.agent == f.rows[i].agent && r.kind == f.rows[i].kind && r.newAlias == f.rows[i].newAlias
    requires RowOk(SetRow(f, i, r), i)
    ensures Inv(SetRow(f, i, r))
  {
    var g := SetRow(f, i, r);
    RowsOnly(f, g.rows);
    forall j | 0 <= j < |g.rows| ensures RowOk(g, j) {
      if j != i { OtherRow(f, i, r, j); }
    }
  }

  lemma OtherRow(f: Fleet, i: nat, r: Row, j: nat)
    requires i < |f.rows| && j < |f.rows| && i != j && RowOk(f, j)
    requires r.agent == f.rows[i].agent && r.kind == f.rows[i].kind && r.newAlias == f.rows[i].newAlias
    ensures RowOk(SetRow(f, i, r), j)
  {
    var g := SetRow(f, i, r);
    CurrentAfterSet(f, i, r, j);
    if i < j {
      assert g.rows[..j] == f.rows[..j][i := r];
      SameAliasChain(f.rows[..j], i, r, g.rows[j].agent);
    } else {
      assert g.rows[..j] == f.rows[..j];
    }
    assert SameAround(f, g, j);
    if IsCurrent(f, j) {
      if f.rows[j].kind.A2aIdentity? { SameIdentityRow(f, g, j); } else { SameModelRow(f, g, j); }
    }
  }

  lemma CurrentAfterSet(f: Fleet, i: nat, r: Row, j: nat)
    requires i < |f.rows| && j < |f.rows| && r.agent == f.rows[i].agent && r.kind == f.rows[i].kind
    ensures IsCurrent(SetRow(f, i, r), j) == IsCurrent(f, j)
  {
    var g := SetRow(f, i, r);
    assert forall k :: 0 <= k < |f.rows| ==> g.rows[k].agent == f.rows[k].agent && g.rows[k].kind == f.rows[k].kind;
  }

  lemma RowPrefix(f: Fleet, i: nat, r: Row)
    requires i < |f.rows|
    ensures SetRow(f, i, r).rows[..i] == f.rows[..i]
  {
  }

  // --------------------------------------------------------------------------- sweep

  lemma ConfirmedIsOnDisk(f: Fleet, i: nat)
    requires Inv(f) && i < |f.rows|
    ensures PeersConfirmed(f, i) ==> PeersAt(f, i)
    ensures TargetConfirmed(f, i) ==> TargetAt(f, i)
  {
    assert forall d :: d in f.reports ==> d in f.devices && DeviceOk(f, d);
  }

  lemma FlipIdentity(b: Bundle, k: Key)
    ensures Render(b.a2a, NO_UPDATES.(identityKey := Some(k))).identityKey == k
  {
  }

  predicate HasDoc(f: Fleet, a: Agent) { Known(f, a) && Last(f, a).a2a.Some? }

  /** What a flip needs of the disks; the sweep flips only on reports that imply it. */
  ghost predicate Flippable(f: Fleet, i: nat) {
    IsOpen(f, i) && f.rows[i].kind.A2aIdentity? && f.rows[i].status.Delivering? && PeersAt(f, i) && HasDoc(f, f.rows[i].agent)
  }

  lemma CanFlipIsFlippable(f: Fleet, i: nat)
    requires Inv(f) && CanFlip(f, i)
    ensures Flippable(f, i)
  {
    ConfirmedIsOnDisk(f, i);
  }

  lemma FlipBundleLegal(f: Fleet, i: nat)
    requires Inv(f) && IsOpen(f, i) && f.rows[i].kind.A2aIdentity? && PeersAt(f, i) && HasDoc(f, f.rows[i].agent)
    ensures Legal(f, f.rows[i].agent,
              WithDoc(Last(f, f.rows[i].agent), Render(Last(f, f.rows[i].agent).a2a, NO_UPDATES.(identityKey := Some(f.rows[i].newToken)))))
  {
    var a := f.rows[i].agent;
    var doc := Render(Last(f, a).a2a, NO_UPDATES.(identityKey := Some(f.rows[i].newToken)));
    var b := WithDoc(Last(f, a), doc);
    InvRow(f, i);
    LastFacts(f, a);
    forall j | 0 <= j < |f.rows| && IsCurrent(f, j) ensures LegalForRow(f, j, a, b) {
      LastFitsRow(f, j, a);
      if f.rows[j].kind.A2aIdentity? {
        forall e | e in f.rows[j].peers && e.agent == a ensures PeerVersionOk(f, j, b) { UntouchedFits(f, j, a, doc); }
        if f.rows[j].agent == a { assert j == i; }
      }
    }
  }

  /** Every ledger peer still lists the old key beside the new one, or goes by the agent's signature. */
  ghost predicate OverlapsLeft(f: Fleet, i: nat)
    requires i < |f.rows|
  {
    var r := f.rows[i];
    forall e, x :: e in r.peers && 1 <= e.version <= x <= Versions(f, e.agent) ==>
      var b := At(f, e.agent, x);
      Signs(f, b, r.agent) || (b.a2a.Some? && r.agent in b.a2a.value.overlap && b.a2a.value.overlap[r.agent] == r.oldToken)
  }

  lemma FlipKeeps(f: Fleet, i: nat)
    requires Inv(f) && Flippable(f, i)
    ensures Inv(FlipBundle(f, i)) && Inv(Flip(f, i))
  {
    hide Inv;
    InvRow(f, i);
    OverlapsAreLeft(f, i);
    FlipAgainKeeps(f, i);
  }

  lemma OverlapsAreLeft(f: Fleet, i: nat)
    requires i < |f.rows| && PeersOk(f, i) && (f.rows[i].status.Delivering? || f.rows[i].status.AwaitingTarget?)
    ensures OverlapsLeft(f, i)
  {
    forall e, x | e in f.rows[i].peers && 1 <= e.version <= x <= Versions(f, e.agent)
      ensures var b := At(f, e.agent, x); PeerVersionOk(f, i, b)
    {
    }
  }

  /** Where the overlaps are left, the flip keeps the invariant, even when it comes again. */
  lemma FlipAgainKeeps(f: Fleet, i: nat)
    requires Inv(f) && IsOpen(f, i) && f.rows[i].kind.A2aIdentity? && PeersAt(f, i) && HasDoc(f, f.rows[i].agent) && OverlapsLeft(f, i)
    ensures Inv(FlipBundle(f, i)) && Inv(Flip(f, i))
  {
    hide Inv;
    var a := f.rows[i].agent;
    FlipBundleLegal(f, i);
    var jobs := map[a := WithDoc(Last(f, a), Render(Last(f, a).a2a, NO_UPDATES.(identityKey := Some(f.rows[i].newToken))))];
    StoreKeeps(f, jobs);
    var g := FlipBundle(f, i);
    StoreVersions(f, jobs);
    var r := f.rows[i].(status := AwaitingTarget, newVersion := Versions(f, a) + 1);
    var h := SetRow(g, i, r);
    InvRow(f, i);
    InvRow(g, i);
    CurrentAfterSet(g, i, r, i);
    assert PeersOk(h, i) by {
      forall e, x | e in r.peers && 1 <= e.version <= x <= Versions(h, e.agent) ensures PeerVersionOk(h, i, At(h, e.agent, x)) {
        assert PeerVersionOk(g, i, At(g, e.agent, x));
        assert At(h, e.agent, x) == At(f, e.agent, x);
      }
    }
    assert Last(h, a) == jobs[a];
    SetRowKeeps(g, i, r);
  }

  /** What a confirmation needs of the target's disk; the sweep confirms only on a report that implies it. */
  ghost predicate Confirmable(f: Fleet, i: nat) {
    IsOpen(f, i) && TargetAt(f, i) && f.rows[i].status == (if f.rows[i].kind.A2aIdentity? then AwaitingTarget else Delivering)
  }

  lemma CanConfirmIsConfirmable(f: Fleet, i: nat)
    requires Inv(f) && CanConfirm(f, i)
    ensures Confirmable(f, i)
  {
    ConfirmedIsOnDisk(f, i);
  }

  lemma ConfirmKeeps(f: Fleet, i: nat)
    requires Inv(f) && Confirmable(f, i)
    ensures Inv(Confirm(f, i))
  {
    var r := f.rows[i].(status := AwaitingRevoke);
    var h := SetRow(f, i, r);
    InvRow(f, i);
    CurrentAfterSet(f, i, r, i);
    RowPrefix(f, i, r);
    if r.kind.A2aIdentity? {
      forall e, x | e in r.peers && 1 <= e.version <= x <= Versions(h, e.agent) ensures PeerVersionOk(h, i, At(h, e.agent, x)) {
        assert PeerVersionOk(f, i, At(f, e.agent, x));
      }
      forall x | 1 <= r.newVersion <= x <= Versions(h, r.agent) ensures TargetVersionOk(h, i, At(h, r.agent, x)) {
        assert TargetVersionOk(f, i, At(f, r.agent, x));
      }
      assert TargetOk(h, i);
    } else {
      forall x | 1 <= r.newVersion <= x <= Versions(h, r.agent) ensures ModelVersionOk(h, i, At(h, r.agent, x)) {
        assert ModelVersionOk(f, i, At(f, r.agent, x));
      }
    }
    SetRowKeeps(f, i, r);
  }

  lemma NoteFailureKeeps(f: Fleet, i: nat)
    requires Inv(f) && IsOpen(f, i)
    ensures Inv(NoteFailure(f, i))
  {
    var r := f.rows[i].(failed := true);
    var h := SetRow(f, i, r);
    InvRow(f, i);
    CurrentAfterSet(f, i, r, i);
    RowPrefix(f, i, r);
    if r.kind.A2aIdentity? { SameIdentityRow(f, h, i); } else { SameModelRow(f, h, i); }
    SetRowKeeps(f, i, r);
  }

  /** The plaintext the sweep's revoke deletes, "" when the model alias is already gone. */
  function RevokedKey(f: Fleet, i: nat): Key
    requires i < |f.rows|
  {
    var r := f.rows[i];
    if r.kind.A2aIdentity? then r.oldToken else if r.oldAlias in f.live then f.live[r.oldAlias] else ""
  }

  /** Deliver-then-revoke: when a sweep may delete the prev key, nothing still needs it. */
  lemma OldKeyUnused(f: Fleet, i: nat)
    requires Inv(f) && CanRevoke(f, i) && RevokedKey(f, i) != ""
    ensures Unused(f, RevokedKey(f, i))
  {
    var r := f.rows[i];
    var key := RevokedKey(f, i);
    InvRow(f, i);
    forall d, x | d in f.devices && 1 <= x <= Versions(f, d)
      ensures (f.devices[d].a2aAt <= x ==> IdentityOf(At(f, d, x)) != key) && (f.devices[d].envAt <= x ==> At(f, d, x).modelKey != key)
    {
      assert DeviceOk(f, d) && BundleOk(f, d, At(f, d, x));
      if d == r.agent && r.kind.A2aIdentity? && f.devices[d].a2aAt <= x {
        assert TargetVersionOk(f, i, At(f, r.agent, x));
      }
      if d == r.agent && r.kind.ModelKey? && f.devices[d].envAt <= x {
        assert ModelVersionOk(f, i, At(f, r.agent, x));
      }
    }
    forall j | 0 <= j < |f.rows| && IsCurrent(f, j)
      ensures if f.rows[j].kind.A2aIdentity? then f.rows[j].Open() ==> f.rows[j].newToken != key
              else f.rows[j].newAlias in f.live ==> f.live[f.rows[j].newAlias] != key
    {
      InvRow(f, j);
    }
  }

  lemma RevokeKeeps(f: Fleet, i: nat)
    requires Inv(f) && CanRevoke(f, i)
    ensures Inv(Revoke(f, i))
  {
    if RevokedKey(f, i) != "" {
      OldKeyUnused(f, i);
      DeleteKeeps(f, RevokedKey(f, i));
    } else {
      InvRow(f, i);
      assert forall al :: al in f.live ==> f.live[al] != "";
    }
  }

  /** Dropping agent a's overlap entry touches nothing else of a peer's document. */
  lemma CleanedEntries(f: Fleet, p: Agent, a: Agent)
    requires NeedsCleanup(f, p, a)
    ensures var b := CleanedBundle(f, p, a);
            var was := Last(f, p).a2a.value;
            b.a2a.Some? && b.modelKey == Last(f, p).modelKey && b.a2a.value.identityKey == was.identityKey &&
            b == WithDoc(Last(f, p), b.a2a.value) && b.a2a.value.tokens == was.tokens && a !in b.a2a.value.overlap &&
            b.a2a.value.peerKeys == was.peerKeys && b.a2a.value.strict == was.strict && b.a2a.value.trusted == was.trusted &&
            forall c :: c != a && c in was.overlap ==> c in b.a2a.value.overlap && b.a2a.value.overlap[c] == was.overlap[c]
  {
  }

  lemma CleanupFits(f: Fleet, i: nat, p: Agent, j: nat)
    requires Inv(f) && IsOpen(f, i) && f.rows[i].kind.A2aIdentity? && f.rows[i].status.AwaitingRevoke?
    requires NeedsCleanup(f, p, f.rows[i].agent) && IsCurrent(f, j) && f.rows[j].kind.A2aIdentity?
    requires exists e :: e in f.rows[j].peers && e.agent == p
    ensures PeerVersionOk(f, j, CleanedBundle(f, p, f.rows[i].agent))
  {
    hide Inv, CleanedBundle;
    var a := f.rows[i].agent;
    InvRow(f, i);
    LastFitsRow(f, j, p);
    CleanedEntries(f, p, a);
    if f.rows[j].agent == a { assert j == i; } else { UntouchedFits(f, j, p, CleanedBundle(f, p, a).a2a.value); }
  }

  lemma CleanupLegal(f: Fleet, i: nat)
    requires Inv(f) && IsOpen(f, i) && f.rows[i].kind.A2aIdentity? && f.rows[i].status.AwaitingRevoke?
    ensures AllLegal(f, CleanupJobs(f, f.rows[i].peers, f.rows[i].agent))
  {
    hide Inv, CleanedBundle, PeerVersionOk;
    var a := f.rows[i].agent;
    var jobs := CleanupJobs(f, f.rows[i].peers, a);
    forall p | p in jobs && p in f.history ensures Legal(f, p, jobs[p]) {
      CleanedEntries(f, p, a);
      LastFacts(f, p);
      forall j, e | 0 <= j < |f.rows| && IsCurrent(f, j) && f.rows[j].kind.A2aIdentity? && e in f.rows[j].peers && e.agent == p
        ensures PeerVersionOk(f, j, jobs[p])
      {
        CleanupFits(f, i, p, j);
      }
      DocLegal(f, p, jobs[p].a2a.value);
    }
  }

  lemma SameHistoryJobs(f: Fleet, g: Fleet, peers: seq<LedgerEntry>, a: Agent)
    requires f.history == g.history
    ensures CleanupJobs(f, peers, a) == CleanupJobs(g, peers, a)
  {
    assert forall p :: NeedsCleanup(f, p, a) == NeedsCleanup(g, p, a);
    assert forall p :: Known(f, p) ==> CleanedBundle(f, p, a) == CleanedBundle(g, p, a);
  }

  lemma RevokeSameBundles(f: Fleet, i: nat)
    requires i < |f.rows|
    ensures Revoke(f, i) == f.(live := Revoke(f, i).live)
    ensures CleanupJobs(Revoke(f, i), f.rows[i].peers, f.rows[i].agent) == CleanupJobs(f, f.rows[i].peers, f.rows[i].agent)
  {
    SameHistoryJobs(f, Revoke(f, i), f.rows[i].peers, f.rows[i].agent);
  }

  lemma CleanupLostKeeps(f: Fleet, i: nat, reach: set<Agent>)
    requires Inv(f) && CanRevoke(f, i)
    ensures Inv(CleanupLost(f, i, reach))
  {
    hide Inv, Revoke, CleanedBundle;
    var g := Revoke(f, i);
    RevokeKeeps(f, i);
    RevokeSameBundles(f, i);
    InvRow(f, i);
    if f.rows[i].kind.A2aIdentity? { CleanupLegal(g, i); }
    StoreKeeps(g, Restrict(CleanupJobs(f, f.rows[i].peers, f.rows[i].agent), reach));
  }

  /** Closing the row: the target's last bundle already carries what the registry forgets. */
  lemma CloseIdentityKeeps(f: Fleet, i: nat)
    requires Inv(f) && IsOpen(f, i) && f.rows[i].kind.A2aIdentity? && f.rows[i].status.AwaitingRevoke?
    ensures Inv(SetRow(f, i, f.rows[i].(status := Completed, oldToken := "", newToken := "", failed := false)))
  {
    hide Inv;
    var r := f.rows[i];
    var s := r.(status := Completed, oldToken := "", newToken := "", failed := false);
    var k := SetRow(f, i, s);
    InvRow(f, i);
    CurrentAfterSet(f, i, s, i);
    assert TargetOk(f, i) && PeersOk(f, i);
    assert TargetVersionOk(f, i, Last(f, r.agent));
    assert NewKey(k, i) == r.newToken;
    assert forall b :: PeerVersionOk(f, i, b) ==> PeerVersionOk(k, i, b);
    assert PeersOk(k, i) by {
      forall e, x | e in s.peers && 1 <= e.version <= x <= Versions(k, e.agent) ensures PeerVersionOk(k, i, At(k, e.agent, x)) {
        assert PeerVersionOk(f, i, At(f, e.agent, x));
      }
    }
    assert TargetOk(k, i) by {
      forall x | 1 <= s.newVersion <= x <= Versions(k, s.agent) ensures TargetVersionOk(k, i, At(k, s.agent, x)) {
        assert TargetVersionOk(f, i, At(f, s.agent, x));
      }
    }
    SetRowKeeps(f, i, s);
  }

  lemma CloseModelKeeps(f: Fleet, i: nat)
    requires Inv(f) && IsOpen(f, i) && f.rows[i].kind.ModelKey? && f.rows[i].status.AwaitingRevoke?
    ensures Inv(SetRow(f, i, f.rows[i].(status := Completed, failed := false)))
  {
    hide Inv;
    var s := f.rows[i].(status := Completed, failed := false);
    InvRow(f, i);
    CurrentAfterSet(f, i, s, i);
    RowPrefix(f, i, s);
    SetRowKeeps(f, i, s);
  }

  lemma CompleteKeeps(f: Fleet, i: nat)
    requires Inv(f) && CanRevoke(f, i)
    ensures Inv(Complete(f, i))
  {
    hide Inv, Revoke, CleanedBundle, CleanupJobs;
    var r := f.rows[i];
    var g := Revoke(f, i);
    RevokeKeeps(f, i);
    RevokeSameBundles(f, i);
    if r.kind.A2aIdentity? {
      var jobs := CleanupJobs(f, r.peers, r.agent);
      CleanupLegal(g, i);
      StoreKeeps(g, jobs);
      CloseIdentityKeeps(Store(g, jobs), i);
    } else {
      CloseModelKeeps(g, i);
    }
  }

  // -------------------------------------------------------------------------- resync

  /** A resync leaves overlaps alone, and of a token either it keeps the value or lists a public key instead. */
  lemma ResyncEntries(doc: A2a, d: Agent, strict: bool, keys: map<Agent, string>, identity: map<Agent, Key>, c: Agent)
    ensures var next := ResyncDoc(doc, d, strict, keys, identity);
            next.identityKey == doc.identityKey && next.overlap == doc.overlap && next.trusted == doc.trusted &&
            (c in next.peerKeys <==> c in keys && c in doc.trusted && c != d) &&
            (next.strict <==> strict && exists p :: p in TrustedPeers(doc, d) && p in keys) &&
            (c in doc.tokens && !(strict && c in next.peerKeys) ==> c in next.tokens && (doc.tokens[c] != "" ==> next.tokens[c] == doc.tokens[c]))
  {
    var next := ResyncDoc(doc, d, strict, keys, identity);
    if p :| p in TrustedPeers(doc, d) && p in keys { assert p in next.peerKeys; }
    assert forall p :: p in next.peerKeys ==> p in TrustedPeers(doc, d) && p in keys;
  }

  lemma ResyncFits(f: Fleet, keys: map<Agent, string>, reach: set<Agent>, d: Agent, i: nat)
    requires Inv(f) && KeysStay(f, keys, reach) && d in reach && d in ResyncJobs(f, f.strict, keys) && IsCurrent(f, i) && f.rows[i].kind.A2aIdentity?
    requires exists e :: e in f.rows[i].peers && e.agent == d
    ensures PeerVersionOk(f, i, ResyncJobs(f, f.strict, keys)[d])
  {
    hide Inv, ResyncDoc, Identities;
    InvRow(f, i);
    LastFitsRow(f, i, d);
    assert f.rows[i].agent != d;
    assert f.strict ==> Stays(f, d, keys, f.rows[i].agent);
    ResyncEntries(Last(f, d).a2a.value, d, f.strict, keys, Identities(f), f.rows[i].agent);
  }

  lemma ResyncKeeps(f: Fleet, keys: map<Agent, string>, reach: set<Agent>)
    requires Inv(f) && KeysStay(f, keys, reach)
    ensures Inv(Store(f, Restrict(ResyncJobs(f, f.strict, keys), reach)))
  {
    hide Inv, ResyncDoc, Identities, KeysStay;
    var jobs := ResyncJobs(f, f.strict, keys);
    forall d | d in jobs && d in reach && d in f.history ensures Legal(f, d, jobs[d]) {
      forall i, e | 0 <= i < |f.rows| && IsCurrent(f, i) && f.rows[i].kind.A2aIdentity? && e in f.rows[i].peers && e.agent == d
        ensures PeerVersionOk(f, i, jobs[d])
      {
        ResyncFits(f, keys, reach, d, i);
      }
      ResyncEntries(Last(f, d).a2a.value, d, f.strict, keys, Identities(f), d);
      DocLegal(f, d, jobs[d].a2a.value);
    }
    StoreKeeps(f, Restrict(jobs, reach));
  }

  // ------------------------------------------------------------------------- devices

  lemma DeviceKeeps(f: Fleet, d: Agent, v: Device)
    requires Inv(f) && d in f.devices && DeviceOk(SetDevice(f, d, v), d)
    requires f.devices[d].snapAt <= v.snapAt && f.devices[d].a2aAt <= v.a2aAt && f.devices[d].envAt <= v.envAt
    ensures Inv(SetDevice(f, d, v))
  {
    hide Rows, IsCurrent, GatewayKeeps;
    var g := SetDevice(f, d, v);
    assert g.devices.Keys == f.devices.Keys;
    forall e | e in g.devices ensures DeviceOk(g, e) { assert DeviceOk(f, e); }
    SamePresented(f, g);
    forall i | 0 <= i < |f.rows| && IsCurrent(f, i) ensures GatewayKeeps(f, g, i) { GatewayOnlyGrows(f, g, i); }
    QuietKeeps(f, g);
  }

  lemma ReportKeeps(f: Fleet, d: Agent, v: nat)
    requires Inv(f) && d in f.devices && v <= f.devices[d].localAt
    ensures Inv(f.(reports := f.reports[d := v]))
  {
    hide Rows, IsCurrent, GatewayKeeps;
    var g := f.(reports := f.reports[d := v]);
    forall e | e in g.devices ensures DeviceOk(g, e) { assert DeviceOk(f, e); }
    SamePresented(f, g);
    forall i | 0 <= i < |f.rows| && IsCurrent(f, i) ensures GatewayKeeps(f, g, i) { GatewayOnlyGrows(f, g, i); }
    QuietKeeps(f, g);
  }

  function AddDevice(f: Fleet, d: Agent, b: Bundle, active: bool): Fleet {
    f.(order := f.order + [d], active := if active then f.active + {d} else f.active,
       history := f.history[d := [b]], devices := f.devices[d := Device(0, 0, 0, 0, 0)])
  }

  lemma AddDeviceKeys(f: Fleet, d: Agent, b: Bundle, active: bool)
    requires Inv(f) && d !in f.history && d !in f.devices && d !in f.reports && d !in f.order && BundleOk(f, d, b)
    requires (IdentityOf(b) != "" ==> LiveKey(f, IdentityOf(b))) && (b.modelKey != "" ==> LiveKey(f, b.modelKey))
    ensures var g := AddDevice(f, d, b, active); KeysOk(g) && PresentedLive(g)
  {
    var g := AddDevice(f, d, b, active);
    forall e, x | 1 <= x <= Versions(g, e) ensures BundleOk(g, e, At(g, e, x)) {
      if e != d { assert BundleOk(f, e, At(f, e, x)); }
    }
    forall e, x | e in g.devices && 1 <= x <= Versions(g, e)
      ensures (g.devices[e].a2aAt <= x && IdentityOf(At(g, e, x)) != "" ==> LiveKey(g, IdentityOf(At(g, e, x)))) &&
              (g.devices[e].envAt <= x && At(g, e, x).modelKey != "" ==> LiveKey(g, At(g, e, x).modelKey))
    {
      if e != d { assert At(f, e, x) == At(g, e, x); }
    }
  }

  lemma AddDeviceRow(f: Fleet, d: Agent, b: Bundle, active: bool, i: nat)
    requires i < |f.rows| && RowOk(f, i) && d !in f.history && d !in f.devices
    ensures RowOk(AddDevice(f, d, b, active), i)
  {
    var g := AddDevice(f, d, b, active);
    assert Grows(f, g);
    GrowsVersions(f, g);
    assert forall e :: e in f.history ==> Versions(g, e) == Versions(f, e);
    RowGrows(f, g, i);
  }

  lemma AddDeviceKeeps(f: Fleet, d: Agent, b: Bundle, active: bool)
    requires Inv(f) && d !in f.history && d !in f.devices && d !in f.reports && d !in f.order && BundleOk(f, d, b)
    requires (IdentityOf(b) != "" ==> LiveKey(f, IdentityOf(b))) && (b.modelKey != "" ==> LiveKey(f, b.modelKey))
    ensures Inv(AddDevice(f, d, b, active))
  {
    var g := AddDevice(f, d, b, active);
    AddDeviceKeys(f, d, b, active);
    forall e | e in g.devices ensures DeviceOk(g, e) { if e != d { InvDevice(f, e); } }
    forall i | 0 <= i < |g.rows| ensures RowOk(g, i) {
      InvRow(f, i);
      AddDeviceRow(f, d, b, active, i);
    }
  }

  lemma CreateKeeps(f: Fleet, d: Agent, b: Bundle, active: bool)
    requires Inv(f) && CanCreate(f, d, b) && (IsStrict(b) ==> f.strict)
    ensures Inv(Create(f, d, b, active))
  {
    var g := if IdentityOf(b) != "" then Mint(f, HandMesh(d), IdentityOf(b)) else f;
    if IdentityOf(b) != "" { MintKeeps(f, HandMesh(d), IdentityOf(b)); }
    var h := if b.modelKey != "" then Mint(g, HandModel(d), b.modelKey) else g;
    if b.modelKey != "" { MintKeeps(g, HandModel(d), b.modelKey); }
    AddDeviceKeeps(h, d, b, active);
  }

  // ---------------------------------------------------------------------- every action

  /** The invariant is inductive over every action, in any interleaving. */
  lemma StepKeeps(f: Fleet, x: Action)
    requires Inv(f) && Enabled(f, x)
    ensures Inv(Do(f, x))
  {
    hide Inv;
    match x
    case ACreate(d, b, on) => CreateKeeps(f, d, b, on);
    case AEnroll(a, url, k, reach) => EnrollKeeps(f, a, url, k, reach);
    case AStartIdentity(a, k) => StartIdentityKeeps(f, a, k);
    case AStartIdentityLost(a, k, reach) => StartIdentityLostKeeps(f, a, k, reach);
    case AStartModel(a, k) => StartModelKeeps(f, a, k);
    case AStartModelLost(a, k, reach) => StartModelLostKeeps(f, a, k, reach);
    case AProvision(a, k) => ProvisionKeeps(f, a, k);
    case AFlip(i) =>
      CanFlipIsFlippable(f, i);
      FlipKeeps(f, i);
    case AFlipLost(i) =>
      CanFlipIsFlippable(f, i);
      FlipKeeps(f, i);
    case AConfirm(i) =>
      CanConfirmIsConfirmable(f, i);
      ConfirmKeeps(f, i);
    case ACleanupLost(i, reach) => CleanupLostKeeps(f, i, reach);
    case AComplete(i) => CompleteKeeps(f, i);
    case ANoteFailure(i) => NoteFailureKeeps(f, i);
    case AResync(keys, reach) => ResyncKeeps(f, keys, reach);
    case AReport(d, v) => ReportKeeps(f, d, v);
    case _ => DeviceStepKeeps(f, x);
  }

  lemma DeviceStepKeeps(f: Fleet, x: Action)
    requires Inv(f) && Enabled(f, x)
    requires x.AFetch? || x.AWriteA2a? || x.AWriteEnv? || x.AWriteSnapshot? || x.AAdopt? || x.AReboot?
    ensures Inv(Do(f, x))
  {
    assert DeviceOk(f, x.agent);
    DeviceKeeps(f, x.agent, Do(f, x).devices[x.agent]);
  }

  lemma {:induction false} RunKeeps(f: Fleet, xs: seq<Action>)
    requires Inv(f) && IsRun(f, xs)
    ensures Inv(After(f, xs))
    decreases |xs|
  {
    if xs != [] {
      StepKeeps(f, xs[0]);
      RunKeeps(Do(f, xs[0]), xs[1..]);
    }
  }

  lemma {:induction false} RunConcat(f: Fleet, xs: seq<Action>, ys: seq<Action>)
    requires IsRun(f, xs) && IsRun(After(f, xs), ys)
    ensures IsRun(f, xs + ys) && After(f, xs + ys) == After(After(f, xs), ys)
    decreases |xs|
  {
    hide Do, Enabled;
    if xs == [] {
      assert xs + ys == ys;
    } else {
      RunConcat(Do(f, xs[0]), xs[1..], ys);
      assert (xs + ys)[0] == xs[0] && (xs + ys)[1..] == xs[1..] + ys;
    }
  }

  lemma OneStep(f: Fleet, x: Action)
    requires Enabled(f, x)
    ensures IsRun(f, [x]) && After(f, [x]) == Do(f, x)
  {
    hide Do, Enabled;
    assert [x][1..] == [];
    assert IsRun(Do(f, x), []);
  }

  lemma OneMoreStep(f: Fleet, xs: seq<Action>, x: Action)
    requires IsRun(f, xs) && Enabled(After(f, xs), x)
    ensures IsRun(f, xs + [x]) && After(f, xs + [x]) == Do(After(f, xs), x)
  {
    hide IsRun, After, Enabled, Do;
    OneStep(After(f, xs), x);
    RunConcat(f, xs, [x]);
  }

  lemma BirthInv(strict: bool)
    ensures Inv(Birth(strict))
  {
  }
}
