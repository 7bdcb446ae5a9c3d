/** What a resync leaves of every receiver's acceptance, and what the hypothesis on a strict one is for. */
module FleetStrict {
  import opened A2aDoc
  import opened Fleet
  import opened FleetInvariant
  import opened FleetSteps
  import opened FleetSafety
  import opened FleetTheorems

  /** No trusted peer of d has an active key, so d's rebuilt document lists none and is not strict. */
  predicate NoneListed(doc: A2a, d: Agent, keys: map<Agent, string>) {
    forall p :: p in TrustedPeers(doc, d) ==> p !in keys
  }

  /** What a resync leaves of a receiver's acceptance, under either position of the switch. */
  lemma ResyncTakes(f: Fleet, keys: map<Agent, string>, reach: set<Agent>, p: Agent, a: Agent, k: Key)
    requires p in f.history && Enrolled(f, p) && p != a && k != ""
    ensures var g := Store(f, Restrict(ResyncJobs(f, f.strict, keys), reach)); var doc := Last(f, p).a2a.value;
            Known(g, p) && g.strict == f.strict &&
            (Takes(g, Last(g, p), a, k) <==>
              if p !in reach then Takes(f, Last(f, p), a, k)
              else if f.strict then (a in doc.trusted && a in keys) || (NoneListed(doc, p, keys) && Accepts(doc, a, k))
              else Accepts(doc, a, k) ||
                   (a in doc.trusted && a in f.history && Enrolled(f, a) && CurrentIdentity(f, a) == k &&
                    !(a in doc.tokens && doc.tokens[a] != "")))
  {
    hide Identities, ResyncDoc;
    var doc := Last(f, p).a2a.value;
    ResyncedLast(f, keys, reach, p);
    ResyncedAccepts(doc, p, f.strict, keys, Identities(f), a, k);
    ResyncEntries(doc, p, f.strict, keys, Identities(f), a);
    IdentitiesAre(f, a);
  }

  lemma IdentitiesAre(f: Fleet, a: Agent)
    ensures a in Identities(f) <==> a in f.history && Enrolled(f, a)
    ensures a in Identities(f) ==> Identities(f)[a] == CurrentIdentity(f, a) != ""
  {
  }

  lemma ResyncedAccepts(doc: A2a, d: Agent, strict: bool, keys: map<Agent, string>, identity: map<Agent, Key>, a: Agent, k: Key)
    requires a != d && k != ""
    ensures var r := ResyncDoc(doc, d, strict, keys, identity);
            r.trusted == doc.trusted &&
            (strict ==> (a in r.peerKeys && a in r.trusted <==> a in doc.trusted && a in keys)) &&
            (Accepts(r, a, k) <==>
              (a in doc.overlap && doc.overlap[a] == k) ||
              (a in doc.tokens && doc.tokens[a] == k && !(strict && a in doc.trusted && a in keys)) ||
              (!strict && a in doc.trusted && a in identity && identity[a] == k && !(a in doc.tokens && doc.tokens[a] != "")))
  {
  }

  /** A reached member's newest bundle holds the rebuilt document, whether or not that is a new version. */
  lemma ResyncedLast(f: Fleet, keys: map<Agent, string>, reach: set<Agent>, p: Agent)
    requires p in f.history && Enrolled(f, p)
    ensures var g := Store(f, Restrict(ResyncJobs(f, f.strict, keys), reach));
            Known(g, p) && g.strict == f.strict && Last(f, p).a2a.Some? &&
            Last(g, p) == if p in reach then WithDoc(Last(f, p), ResyncDoc(Last(f, p).a2a.value, p, f.strict, keys, Identities(f))) else Last(f, p)
  {
    hide Identities, ResyncDoc;
    StoreVersions(f, Restrict(ResyncJobs(f, f.strict, keys), reach));
  }

  /**
   * A peer's tables stop listing a keyed agent's key exactly when a strict resync reaches it and no overlap
   * entry holds that key.  Its guard stops taking any bearer of the agent, listed or not, exactly when the
   * resync reaches it; from then on it takes the agent by its signature.
   */
  lemma BearerLostExactly(f: Fleet, keys: map<Agent, string>, reach: set<Agent>, p: Agent, a: Agent, k: Key)
    requires f.strict && p in f.history && Enrolled(f, p) && p != a && k != ""
    requires AcceptsBundle(Last(f, p), a, k) && a in Last(f, p).a2a.value.trusted && a in keys
    ensures var g := Store(f, Restrict(ResyncJobs(f, f.strict, keys), reach)); var overlap := Last(f, p).a2a.value.overlap;
            Known(g, p) && (p in reach ==> Signs(g, Last(g, p), a)) &&
            (!AcceptsBundle(Last(g, p), a, k) <==> p in reach && !(a in overlap && overlap[a] == k)) &&
            (IsStrict(Last(g, p)) <==> p in reach || IsStrict(Last(f, p)))
  {
    hide Identities, ResyncDoc;
    ResyncedLast(f, keys, reach, p);
    ResyncedAccepts(Last(f, p).a2a.value, p, f.strict, keys, Identities(f), a, k);
    ResyncEntries(Last(f, p).a2a.value, p, f.strict, keys, Identities(f), a);
  }

  /**
   * The exact condition of the hypothesis on a strict resync.  A served pair it reaches stays served if and
   * only if the receiver lists the agent's active key afterwards, or has no trusted peer with a key, so that
   * it is not strict, and its tables list every key the agent may present.
   */
  lemma ResyncServesExactly(f: Fleet, keys: map<Agent, string>, reach: set<Agent>, a: Agent, p: Agent)
    requires Inv(f) && f.strict && Served(f, a, p) && p in f.history && Enrolled(f, p) && p in reach
    ensures var g := Store(f, Restrict(ResyncJobs(f, f.strict, keys), reach)); var doc := Last(f, p).a2a.value;
            Served(g, a, p) <==>
              (a in doc.trusted && a in keys) ||
              (NoneListed(doc, p, keys) && forall x: nat :: Offers(f, a, x) && x <= Versions(f, a) ==> Accepts(doc, a, IdentityOf(At(f, a, x))))
  {
    hide Inv, ResyncJobs, Served, Fits, Offers, Takes, NoneListed, ResyncDoc, Identities;
    var jobs := Restrict(ResyncJobs(f, f.strict, keys), reach);
    var g := Store(f, jobs);
    ServedPeer(f, a, p);
    var i, e := NewestFacts(f, a, p);
    StoreIsOneMore(f, g, jobs, a);
    StoreIsOneMore(f, g, jobs, p);
    ResyncIdentity(f, keys, reach, a);
    OneMoreServes(f, g, a, p);
    var doc := Last(f, p).a2a.value;
    forall x: nat | Offers(f, a, x)
      ensures Takes(g, Last(g, p), a, IdentityOf(At(f, a, x))) <==>
                (a in doc.trusted && a in keys) || (NoneListed(doc, p, keys) && Accepts(doc, a, IdentityOf(At(f, a, x))))
    {
      ResyncTakes(f, keys, reach, p, a, IdentityOf(At(f, a, x)));
    }
    LastOffered(f, a);
  }

  lemma ResyncIdentity(f: Fleet, keys: map<Agent, string>, reach: set<Agent>, d: Agent)
    requires Known(f, d)
    ensures var g := Store(f, Restrict(ResyncJobs(f, f.strict, keys), reach)); Known(g, d) && IdentityOf(Last(g, d)) == IdentityOf(Last(f, d))
  {
    hide ResyncDoc, Identities;
    StoreVersions(f, Restrict(ResyncJobs(f, f.strict, keys), reach));
    if d in f.history && Enrolled(f, d) {
      ResyncedLast(f, keys, reach, d);
      ResyncEntries(Last(f, d).a2a.value, d, f.strict, keys, Identities(f), d);
    }
  }

  /**
   * On the disks: once a reached member applies the rebuilt bundle, the agent's sends go through if and only
   * if it lists the agent's key, or is not strict and its tables list what the agent presents.
   */
  lemma StrictResyncDelivers(f: Fleet, keys: map<Agent, string>, p: Agent, a: Agent)
    requires Inv(f) && f.strict && p in f.history && Enrolled(f, p) && p != a
    requires OnDisk(f, a).Some? && IdentityOf(OnDisk(f, a).value) != ""
    ensures var g := Store(f, Restrict(ResyncJobs(f, f.strict, keys), {p})); var doc := Last(f, p).a2a.value;
            p in g.devices && var h := SetDevice(g, p, g.devices[p].(a2aAt := Versions(g, p)));
            (Delivered(h, a, p) <==>
              (a in doc.trusted && a in keys) || (NoneListed(doc, p, keys) && Accepts(doc, a, IdentityOf(OnDisk(f, a).value))))
  {
    hide Inv, ResyncJobs, Takes, NoneListed;
    InvDevices(f);
    InvDevice(f, p);
    var k := IdentityOf(OnDisk(f, a).value);
    var jobs := Restrict(ResyncJobs(f, f.strict, keys), {p});
    StoreVersions(f, jobs);
    ResyncTakes(f, keys, {p}, p, a, k);
    PresentedKeyLive(f, a, f.devices[a].a2aAt);
    var g := Store(f, jobs);
    var h := SetDevice(g, p, g.devices[p].(a2aAt := Versions(g, p)));
    assert OnDisk(h, p) == Some(Last(g, p));
    assert OnDisk(h, a) == OnDisk(f, a);
    SameTakes(g, h, Last(g, p), a, k);
  }

  /**
   * An instance: when the active key of an agent is gone, a strict resync takes its signature away from
   * every peer it reaches, and no token is put back in its place.
   */
  lemma RevokedKeyBreaks(f: Fleet, keys: map<Agent, string>, p: Agent, a: Agent, k: Key)
    requires Inv(f) && f.strict && p in f.history && Enrolled(f, p) && p != a && Signs(f, Last(f, p), a) && a !in keys
    requires OnDisk(f, a).Some? && IdentityOf(OnDisk(f, a).value) == k != "" && !AcceptsBundle(Last(f, p), a, k)
    ensures var g := Store(f, Restrict(ResyncJobs(f, f.strict, keys), {p}));
            p in g.devices && Takes(f, Last(f, p), a, k) &&
            var h := SetDevice(g, p, g.devices[p].(a2aAt := Versions(g, p))); !Delivered(h, a, p)
  {
    hide Inv, ResyncJobs, Delivered;
    StrictResyncDelivers(f, keys, p, a);
  }

  /**
   * Another: another trusted peer's first key makes the receiver strict, and an agent that has no active
   * key is refused, although its token is still in the tables.
   */
  lemma UnkeyedAgentRefused(f: Fleet, keys: map<Agent, string>, p: Agent, a: Agent, c: Agent, k: Key)
    requires Inv(f) && f.strict && p in f.history && Enrolled(f, p) && p != a && p != c && a !in keys && c in keys
    requires c in Last(f, p).a2a.value.trusted && !IsStrict(Last(f, p)) && AcceptsBundle(Last(f, p), a, k)
    requires OnDisk(f, a).Some? && IdentityOf(OnDisk(f, a).value) == k != ""
    ensures var g := Store(f, Restrict(ResyncJobs(f, f.strict, keys), {p}));
            p in g.devices && Takes(f, Last(f, p), a, k) && Known(g, p) && AcceptsBundle(Last(g, p), a, k) &&
            var h := SetDevice(g, p, g.devices[p].(a2aAt := Versions(g, p))); !Delivered(h, a, p)
  {
    hide Inv, ResyncJobs, Delivered, ResyncDoc, Identities;
    StrictResyncDelivers(f, keys, p, a);
    assert c in TrustedPeers(Last(f, p).a2a.value, p);
    ResyncedLast(f, keys, {p}, p);
    ResyncedAccepts(Last(f, p).a2a.value, p, f.strict, keys, Identities(f), a, k);
  }

  lemma InvDevices(f: Fleet)
    requires Inv(f)
    ensures f.devices.Keys == f.history.Keys
  {
  }

  /** A resync keeps a key in a receiver's tables unless strict mode strips the keyed peer's canonical token. */
  lemma ResyncKeepsAcceptance(doc: A2a, d: Agent, strict: bool, keys: map<Agent, string>, identity: map<Agent, Key>, c: Agent, k: Key)
    requires Accepts(doc, c, k) && k != ""
    ensures Accepts(ResyncDoc(doc, d, strict, keys, identity), c, k) <==>
              (c in doc.overlap && doc.overlap[c] == k) || !(strict && c in doc.trusted && c != d && c in keys)
  {
  }

  /** Strict on and off again during a delivery: the restored canonical token is the target's stored identity, not NEW. */
  lemma StrictRoundTrip(doc: A2a, d: Agent, keys: map<Agent, string>, identity: map<Agent, Key>, c: Agent, k: Key)
    requires c in doc.trusted && c != d && c in keys && c in identity && identity[c] != ""
    requires Accepts(doc, c, k) && !(c in doc.overlap && doc.overlap[c] == k)
    ensures var off := ResyncDoc(ResyncDoc(doc, d, true, keys, identity), d, false, keys, identity);
            Accepts(off, c, k) <==> identity[c] == k
  {
  }
}
