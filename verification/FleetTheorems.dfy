/** The main results about whole runs of the fleet. */
module FleetTheorems {
  import opened A2aDoc
  import opened Fleet
  import opened FleetInvariant
  import opened FleetSteps
  import opened FleetSafety

  // ---------------------------------------------------------------- no failed sends

  /**
   * Zero failed sends.  Once p is served in a's rotation it stays served: through delivery, flip,
   * revocation and cleanup, through crashes, enrolls and resyncs, and through every later rotation of
   * a, each key a presents is live at the gateway and p takes it: by its token tables as long as p's own
   * document is not strict, by a's listed public key with the switch on.
   */
  lemma {:induction false} NoFailedSends(f: Fleet, xs: seq<Action>, a: Agent, p: Agent)
    requires Inv(f) && Served(f, a, p) && IsRun(f, xs)
    ensures Inv(After(f, xs)) && Served(After(f, xs), a, p) && Delivered(After(f, xs), a, p)
    decreases |xs|
  {
    hide Inv, Served;
    if xs == [] {
      ServedDelivers(f, a, p);
    } else {
      ServedStep(f, xs[0], a, p);
      NoFailedSends(Do(f, xs[0]), xs[1..], a, p);
    }
  }

  function TurnOn(f: Fleet): Fleet { f.(strict := true) }

  /** Every acceptance of the dual mode is one of the strict mode: the invariant and the served pairs carry over. */
  lemma TurnOnKeeps(f: Fleet, a: Agent, p: Agent)
    requires Inv(f)
    ensures Inv(TurnOn(f)) && (Served(f, a, p) ==> Served(TurnOn(f), a, p))
  {
    hide Inv, Served, Fits;
    TurnOnInv(f);
    if Served(f, a, p) {
      ServedPeer(f, a, p);
      forall x: nat, y: nat | Offers(f, a, x) && Offers(f, p, y) ensures Fits(TurnOn(f), a, x, p, y) {
        ServedFits(f, a, p, x, y);
        FitsIs(TurnOn(f), a, x, p, y);
      }
      ServedIs(TurnOn(f), a, p);
    }
  }

  lemma TurnOnInv(f: Fleet)
    requires Inv(f)
    ensures Inv(TurnOn(f))
  {
    hide Rows;
    var g := TurnOn(f);
    forall d | d in g.devices ensures DeviceOk(g, d) { assert DeviceOk(f, d); }
    forall d, x | 1 <= x <= Versions(g, d) ensures BundleOk(g, d, At(g, d, x)) { assert BundleOk(f, d, At(f, d, x)); }
    SamePresented(f, g);
    assert Rows(g) by {
      forall i | 0 <= i < |g.rows| ensures RowOk(g, i) { TurnOnRow(f, i); }
      RowsAre(g);
    }
  }

  lemma RowsAre(f: Fleet)
    requires forall i :: 0 <= i < |f.rows| ==> RowOk(f, i)
    ensures Rows(f)
  {
  }

  lemma TurnOnRow(f: Fleet, i: nat)
    requires Rows(f) && i < |f.rows|
    ensures RowOk(TurnOn(f), i)
  {
    var g := TurnOn(f);
    assert RowOk(f, i) && IsCurrent(f, i) == IsCurrent(g, i);
    if IsCurrent(f, i) && f.rows[i].kind.A2aIdentity? {
      forall e, x | e in g.rows[i].peers && 1 <= e.version <= x <= Versions(g, e.agent) ensures PeerVersionOk(g, i, At(g, e.agent, x)) {
        assert PeerVersionOk(f, i, At(f, e.agent, x));
      }
      TurnOnTarget(f, i);
    }
    if IsCurrent(f, i) && f.rows[i].kind.ModelKey? {
      forall x | g.rows[i].Open() && 1 <= g.rows[i].newVersion <= x <= Versions(g, g.rows[i].agent)
        ensures ModelVersionOk(g, i, At(g, g.rows[i].agent, x))
      {
        assert ModelVersionOk(f, i, At(f, f.rows[i].agent, x));
      }
    }
  }

  lemma TurnOnTarget(f: Fleet, i: nat)
    requires i < |f.rows| && TargetOk(f, i)
    ensures TargetOk(TurnOn(f), i)
  {
    var g, a := TurnOn(f), f.rows[i].agent;
    assert PeersAt(f, i) == PeersAt(g, i) && NewKey(f, i) == NewKey(g, i) && Versions(f, a) == Versions(g, a);
    assert forall x :: 1 <= x <= Versions(f, a) ==> At(g, a, x) == At(f, a, x);
    assert forall b :: TargetVersionOk(g, i, b) == TargetVersionOk(f, i, b);
  }

  /** Nothing is lost either when the switch is turned on between two stretches of a run, at whatever point of a rotation. */
  lemma NoFailedSendsAcrossTurnOn(f: Fleet, xs: seq<Action>, ys: seq<Action>, a: Agent, p: Agent)
    requires Inv(f) && Served(f, a, p) && IsRun(f, xs) && IsRun(TurnOn(After(f, xs)), ys)
    ensures Served(After(TurnOn(After(f, xs)), ys), a, p) && Delivered(After(TurnOn(After(f, xs)), ys), a, p)
  {
    hide Inv, Served;
    NoFailedSends(f, xs, a, p);
    TurnOnKeeps(After(f, xs), a, p);
    NoFailedSends(TurnOn(After(f, xs)), ys, a, p);
  }

  lemma OfferBounds(f: Fleet, d: Agent, x: nat)
    requires Offers(f, d, x)
    ensures 1 <= x <= Versions(f, d)
  {
  }

  lemma LastOffered(f: Fleet, d: Agent)
    requires d in f.devices && Known(f, d)
    ensures Offers(f, d, Versions(f, d))
  {
  }

  /** g stores at most one further bundle for d, which the device has not seen yet. */
  predicate OneMore(f: Fleet, g: Fleet, d: Agent) {
    Known(f, d) && Known(g, d) && f.history[d] <= g.history[d] && |g.history[d]| <= |f.history[d]| + 1
  }

  /**
   * A served pair whose devices get at most one bundle each, the agent's with the same identity key, stays
   * served if and only if the receiver's newest bundle takes every key the agent may present.
   */
  lemma OneMoreServes(f: Fleet, g: Fleet, a: Agent, p: Agent)
    requires Served(f, a, p) && LedgerPeer(g, a, p) && g.devices == f.devices && g.strict == f.strict
    requires a in f.devices && OneMore(f, g, a) && OneMore(f, g, p) && DeviceOk(f, a) && DeviceOk(f, p)
    requires p in f.devices && IdentityOf(Last(g, a)) == IdentityOf(Last(f, a))
    ensures forall x: nat :: Offers(f, a, x) ==> 1 <= x <= Versions(f, a) && IdentityOf(At(f, a, x)) != ""
    ensures Served(g, a, p) <==> forall x: nat :: Offers(f, a, x) ==> Takes(g, Last(g, p), a, IdentityOf(At(f, a, x)))
  {
    hide Served, Fits, Takes;
    ServedPeer(f, a, p);
    LastOffered(f, p);
    forall x: nat | Offers(f, a, x) ensures 1 <= x <= Versions(f, a) && IdentityOf(At(f, a, x)) != "" { ServedFits(f, a, p, x, Versions(f, p)); }
    if Served(g, a, p) {
      forall x: nat | Offers(f, a, x) ensures Takes(g, Last(g, p), a, IdentityOf(At(f, a, x))) {
        var z := if x < Versions(f, a) then x else Versions(g, a);
        OneMoreAt(f, g, a, x);
        ServedFits(g, a, p, z, Versions(g, p));
      }
    }
    if forall x: nat :: Offers(f, a, x) ==> Takes(g, Last(g, p), a, IdentityOf(At(f, a, x))) {
      forall x: nat, y: nat | Offers(g, a, x) && Offers(g, p, y) ensures Fits(g, a, x, p, y) {
        var z := if x <= Versions(f, a) then x else Versions(f, a);
        LastOffered(f, a);
        OneMoreAt(f, g, a, z);
        if y <= Versions(f, p) {
          OneMoreAt(f, g, p, y);
          ServedFits(f, a, p, z, y);
          SameTakes(f, g, At(f, p, y), a, IdentityOf(At(f, a, z)));
        }
        FitsIs(g, a, x, p, y);
      }
      ServedIs(g, a, p);
    }
  }

  lemma OneMoreAt(f: Fleet, g: Fleet, d: Agent, x: nat)
    requires OneMore(f, g, d) && 1 <= x <= Versions(f, d)
    ensures x <= Versions(g, d) && At(g, d, x) == At(f, d, x)
  {
    assert f.history[d] <= g.history[d];
  }

  lemma StoreIsOneMore(f: Fleet, g: Fleet, jobs: map<Agent, Bundle>, d: Agent)
    requires g.history == Store(f, jobs).history && Known(f, d)
    ensures OneMore(f, g, d) && Last(g, d) == if d in jobs then jobs[d] else Last(f, d)
  {
  }

  /** No bundle the peer may run is strict without listing the agent's public key. */
  ghost predicate Admits(f: Fleet, a: Agent, p: Agent) {
    forall y: nat :: Offers(f, p, y) ==> OpenTo(f, At(f, p, y), a)
  }

  /**
   * A rotation whose target has confirmed serves exactly the ledger peers that admit the agent at all, and
   * with the switch off those are all of them.
   */
  lemma ConfirmedRotationServes(f: Fleet, a: Agent, p: Agent)
    requires Inv(f) && LedgerPeer(f, a, p)
    requires var s := f.rows[NewestRow(f.rows, a, A2aIdentity).value].status; s.AwaitingRevoke? || s.Completed?
    ensures Served(f, a, p) <==> Admits(f, a, p)
    ensures !f.strict ==> Served(f, a, p)
  {
    hide Inv, Served, Fits, Admits;
    var i, e := NewestFacts(f, a, p);
    assert PeersAt(f, i);
    if !f.strict { OffAdmits(f, a, p); }
    if Admits(f, a, p) {
      forall x: nat, y: nat | Offers(f, a, x) && Offers(f, p, y) ensures Fits(f, a, x, p, y) {
        TargetOffersNew(f, i, x);
        OfferedFits(f, i, e, y);
        AdmitsOne(f, a, p, y);
        VersionTakes(f, i, At(f, p, y), NewKey(f, i));
        FitsIs(f, a, x, p, y);
      }
      ServedIs(f, a, p);
    }
    if Served(f, a, p) { ServedAdmits(f, a, p); }
  }

  lemma AdmitsOne(f: Fleet, a: Agent, p: Agent, y: nat)
    requires Admits(f, a, p) && Offers(f, p, y)
    ensures OpenTo(f, At(f, p, y), a)
  {
  }

  lemma OffAdmits(f: Fleet, a: Agent, p: Agent)
    requires Inv(f) && !f.strict
    ensures Admits(f, a, p)
  {
    hide Inv;
    forall y: nat | Offers(f, p, y) ensures OpenTo(f, At(f, p, y), a) { BundleOkAt(f, p, y); }
  }

  lemma ServedAdmits(f: Fleet, a: Agent, p: Agent)
    requires Served(f, a, p) && a in f.devices && Known(f, a)
    ensures Admits(f, a, p)
  {
    hide Served;
    forall y: nat | Offers(f, p, y) ensures OpenTo(f, At(f, p, y), a) { ServedFits(f, a, p, Versions(f, a), y); }
  }

  /** Every version the peer holds takes whatever the agent may come to present. */
  ghost predicate HeldFit(f: Fleet, a: Agent, p: Agent) {
    forall x: nat, y: nat :: Offers(f, a, x) && Holds(f, p, y) && y <= Versions(f, p) ==> Fits(f, a, x, p, y)
  }

  /** The peer's newest bundle takes the agent by signature, or is not strict and the agent presents its current key alone. */
  ghost predicate KeySettled(f: Fleet, a: Agent, p: Agent) {
    forall x: nat :: Offers(f, a, x) && Known(f, p) ==>
      Signs(f, Last(f, p), a) || (!IsStrict(Last(f, p)) && IdentityOf(At(f, a, x)) == CurrentIdentity(f, a))
  }

  /** What the start gives a referencing peer: one version more, with the new key and the current one. */
  lemma StartedPeer(f: Fleet, a: Agent, minted: Key, p: Agent)
    requires CanStartIdentity(f, a, minted) && IsReferencing(f, a, p)
    ensures var g := StartIdentity(f, a, minted);
            Known(f, p) && Versions(g, p) == Versions(f, p) + 1 &&
            (Signs(g, Last(g, p), a) <==> Signs(f, Last(f, p), a)) && (IsStrict(Last(g, p)) <==> IsStrict(Last(f, p))) &&
            forall k :: AcceptsBundle(Last(g, p), a, k) <==> k == minted || k == CurrentIdentity(f, a)
  {
    hide NextSuffix, OverlapDoc;
    var m := Mint(f, MeshRotation(a, NextSuffix(f, A2aIdentity, a).value), minted);
    var jobs := OverlapJobs(f, a, minted, CurrentIdentity(f, a));
    StoreVersions(m, jobs);
    OverlapEntries(f, p, a, minted, CurrentIdentity(f, a));
    assert p in jobs && jobs[p] == WithDoc(Last(f, p), OverlapDoc(f, p, a, minted, CurrentIdentity(f, a)));
    assert Last(StartIdentity(f, a, minted), p) == jobs[p];
  }

  /** What a start leaves on offer: the target's versions, and what the peer holds plus the overlap bundle. */
  lemma StartOffers(f: Fleet, a: Agent, minted: Key, p: Agent)
    requires Inv(f) && CanStartIdentity(f, a, minted) && IsReferencing(f, a, p)
    ensures var g := StartIdentity(f, a, minted);
            (forall x: nat :: Offers(g, a, x) <==> Offers(f, a, x)) &&
            (forall y: nat :: Offers(g, p, y) <==> p in f.devices && ((Holds(f, p, y) && y <= Versions(f, p)) || y == Versions(f, p) + 1))
  {
    hide Inv, StartIdentity, CanStartIdentity;
    StartFacts(f, a, minted);
    StartLeavesTarget(f, a, minted) by { CanSuffix(f, a, minted); }
    StartedPeer(f, a, minted, p);
    InvDevice(f, p);
  }

  /** A pair the start leaves on offer fits exactly when the stated pair before it does. */
  lemma StartPair(f: Fleet, a: Agent, minted: Key, p: Agent, x: nat, y: nat)
    requires Inv(f) && CanStartIdentity(f, a, minted) && IsReferencing(f, a, p) && Offers(f, a, x) && p in f.devices
    requires (Holds(f, p, y) && y <= Versions(f, p)) || y == Versions(f, p) + 1
    ensures var g := StartIdentity(f, a, minted);
            x <= Versions(g, a) && y <= Versions(g, p) && 1 <= y &&
            (y <= Versions(f, p) ==> (Fits(g, a, x, p, y) <==> Fits(f, a, x, p, y))) &&
            (y > Versions(f, p) ==> (Fits(g, a, x, p, y) <==>
              IdentityOf(At(f, a, x)) != "" &&
              (Signs(f, Last(f, p), a) || (!IsStrict(Last(f, p)) && IdentityOf(At(f, a, x)) == CurrentIdentity(f, a)))))
  {
    hide Inv, StartIdentity, CanStartIdentity, NextSuffix, Fits;
    CanSuffix(f, a, minted);
    StartFacts(f, a, minted);
    StartLeavesTarget(f, a, minted);
    StartedPeer(f, a, minted, p);
    InvDevice(f, p);
    var g := StartIdentity(f, a, minted);
    BundleOkAt(f, a, x);
    FitsIs(g, a, x, p, y);
    if y <= Versions(f, p) { FitsIs(f, a, x, p, y); }
  }

  /**
   * A fresh start serves exactly the referencing peers whose disk, like everything else they hold,
   * takes what the target may present, and whose newest bundle is settled for it.
   */
  lemma StartServes(f: Fleet, a: Agent, minted: Key, p: Agent)
    requires Inv(f) && CanStartIdentity(f, a, minted)
    ensures Inv(StartIdentity(f, a, minted))
    ensures Served(StartIdentity(f, a, minted), a, p) <==>
              IsReferencing(f, a, p) && p in f.devices && f.devices[p].a2aAt != 0 && HeldFit(f, a, p) && KeySettled(f, a, p)
  {
    hide Inv, StartIdentity, NextSuffix, CanStartIdentity, Fits, IsReferencing;
    CanSuffix(f, a, minted);
    StartIdentityKeeps(f, a, minted);
    StartFacts(f, a, minted);
    var g := StartIdentity(f, a, minted);
    var j := |f.rows|;
    if IsReferencing(f, a, p) && p in f.devices && f.devices[p].a2aAt != 0 {
      StartOffers(f, a, minted, p);
      InvDevice(f, p);
      ReferencingKnown(f, a, p);
      if HeldFit(f, a, p) && KeySettled(f, a, p) { StartFits(f, a, minted, p); }
      if Served(g, a, p) { StartedFits(f, a, minted, p); }
    }
  }

  lemma ReferencingKnown(f: Fleet, a: Agent, p: Agent)
    requires IsReferencing(f, a, p)
    ensures Known(f, p)
  {
  }

  lemma StartFits(f: Fleet, a: Agent, minted: Key, p: Agent)
    requires Inv(f) && CanStartIdentity(f, a, minted) && IsReferencing(f, a, p) && p in f.devices && f.devices[p].a2aAt != 0
    requires HeldFit(f, a, p) && KeySettled(f, a, p)
    ensures Served(StartIdentity(f, a, minted), a, p)
  {
    hide Inv, StartIdentity, CanStartIdentity, NextSuffix, IsReferencing, Fits, Offers;
    CanSuffix(f, a, minted);
    var g := StartIdentity(f, a, minted);
    StartFacts(f, a, minted);
    StartOffers(f, a, minted, p);
    InvDevice(f, p);
    var z := f.devices[p].a2aAt;
    forall x: nat, y: nat | Offers(g, a, x) && Offers(g, p, y) ensures x <= Versions(g, a) && 1 <= x && 1 <= y <= Versions(g, p) && Fits(g, a, x, p, y) {
      OfferBounds(f, a, x);
      StartPair(f, a, minted, p, x, y);
      assert Offers(f, a, x) && Holds(f, p, z) && Fits(f, a, x, p, z);
      FitsIs(f, a, x, p, z);
    }
  }

  lemma StartedFits(f: Fleet, a: Agent, minted: Key, p: Agent)
    requires Inv(f) && CanStartIdentity(f, a, minted) && IsReferencing(f, a, p) && p in f.devices
    requires Served(StartIdentity(f, a, minted), a, p)
    ensures HeldFit(f, a, p) && KeySettled(f, a, p)
  {
    hide Inv, StartIdentity, CanStartIdentity, NextSuffix, IsReferencing, Fits;
    CanSuffix(f, a, minted);
    var g := StartIdentity(f, a, minted);
    StartOffers(f, a, minted, p);
    ReferencingKnown(f, a, p);
    forall x: nat, y: nat | Offers(f, a, x) && Holds(f, p, y) && y <= Versions(f, p) ensures Fits(f, a, x, p, y) {
      StartPair(f, a, minted, p, x, y);
      assert Offers(g, a, x) && Offers(g, p, y);
    }
    forall x: nat | Offers(f, a, x)
      ensures Signs(f, Last(f, p), a) || (!IsStrict(Last(f, p)) && IdentityOf(At(f, a, x)) == CurrentIdentity(f, a))
    {
      var y := Versions(f, p) + 1;
      StartPair(f, a, minted, p, x, y);
      assert Offers(g, a, x) && Offers(g, p, y);
    }
  }

  /** Every version the target holds presents one of the rotation's two keys. */
  ghost predicate Settled(f: Fleet, i: nat)
    requires i < |f.rows|
  {
    var r := f.rows[i];
    forall x: nat :: Holds(f, r.agent, x) && x <= Versions(f, r.agent) ==>
      IdentityOf(At(f, r.agent, x)) == r.oldToken || IdentityOf(At(f, r.agent, x)) == r.newToken
  }

  /** Every version the peer holds lists the rotation's old key. */
  ghost predicate Warm(f: Fleet, i: nat, p: Agent)
    requires i < |f.rows|
  {
    forall y: nat :: Holds(f, p, y) && y <= Versions(f, p) ==> AcceptsBundle(At(f, p, y), f.rows[i].agent, f.rows[i].oldToken)
  }

  /**
   * Before the target's confirmation, with the switch off, being served is a matter of what the two devices
   * hold: the target nothing but the rotation's keys, the peer something, and nothing without the old key.
   */
  lemma ServedBeforeConfirmation(f: Fleet, a: Agent, p: Agent, i: nat)
    requires Inv(f) && !f.strict && LedgerPeer(f, a, p) && i < |f.rows| && NewestRow(f.rows, a, A2aIdentity) == Some(i)
    requires f.rows[i].status.Delivering? || f.rows[i].status.AwaitingTarget?
    ensures p in f.devices
    ensures Served(f, a, p) <==> f.devices[p].a2aAt != 0 && Settled(f, i) && Warm(f, i, p)
  {
    hide Inv, Fits;
    var j, e := NewestFacts(f, a, p);
    if f.devices[p].a2aAt != 0 && Settled(f, i) && Warm(f, i, p) {
      forall x: nat, y: nat | Offers(f, a, x) && Offers(f, p, y) ensures Fits(f, a, x, p, y) {
        BundleOkAt(f, p, y);
        HeldPairFits(f, a, p, i, e, x, y);
      }
      ServedIs(f, a, p);
    } else if Served(f, a, p) {
      ServedHolds(f, a, p, i, e);
    }
  }

  lemma HeldPairFits(f: Fleet, a: Agent, p: Agent, i: nat, e: LedgerEntry, x: nat, y: nat)
    requires i < |f.rows| && f.rows[i].agent == a && f.rows[i].kind.A2aIdentity? && RowShape(f, i) && IdentityRowOk(f, i)
    requires f.rows[i].status.Delivering? || f.rows[i].status.AwaitingTarget?
    requires e in f.rows[i].peers && e.agent == p && 1 <= e.version <= Versions(f, p) && a in f.devices && p in f.devices
    requires DeviceOk(f, a) && DeviceOk(f, p) && Settled(f, i) && Warm(f, i, p) && Offers(f, a, x) && Offers(f, p, y)
    requires !IsStrict(At(f, p, y))
    ensures Fits(f, a, x, p, y)
  {
    hide PeerVersionOk, Fits, Takes;
    var r, k := f.rows[i], IdentityOf(At(f, a, x));
    assert TargetVersionOk(f, i, Last(f, a));
    assert k == r.oldToken || k == r.newToken;
    FitsIs(f, a, x, p, y);
    if PeersAt(f, i) || y == Versions(f, p) {
      OfferedFits(f, i, e, y);
      VersionTakes(f, i, At(f, p, y), k);
    } else {
      assert r.status.Delivering? && k == r.oldToken;
      ByToken(f, At(f, p, y), a, k);
    }
  }

  lemma ByToken(f: Fleet, b: Bundle, a: Agent, k: Key)
    requires AcceptsBundle(b, a, k) && !IsStrict(b)
    ensures Takes(f, b, a, k)
  {
  }

  lemma ServedHolds(f: Fleet, a: Agent, p: Agent, i: nat, e: LedgerEntry)
    requires Served(f, a, p) && !f.strict
    requires i < |f.rows| && f.rows[i].agent == a && f.rows[i].kind.A2aIdentity? && RowShape(f, i) && IdentityRowOk(f, i)
    requires f.rows[i].status.Delivering? || f.rows[i].status.AwaitingTarget?
    requires e in f.rows[i].peers && e.agent == p && 1 <= e.version <= Versions(f, p) && a in f.devices && p in f.devices
    requires DeviceOk(f, a) && DeviceOk(f, p) && Known(f, a)
    ensures Settled(f, i) && Warm(f, i, p)
  {
    hide Served;
    var r, n, m := f.rows[i], Versions(f, a), Versions(f, p);
    assert PeerVersionOk(f, i, At(f, p, m));
    forall x: nat | Holds(f, a, x) && x <= n ensures IdentityOf(At(f, a, x)) == r.oldToken || IdentityOf(At(f, a, x)) == r.newToken {
      ServedFits(f, a, p, x, m);
    }
    forall y: nat | Holds(f, p, y) && y <= m ensures AcceptsBundle(At(f, p, y), a, r.oldToken) {
      ServedFits(f, a, p, n, y);
      assert TargetVersionOk(f, i, Last(f, a));
      if PeersAt(f, i) { OfferedFits(f, i, e, y); }
    }
  }

  // ------------------------------------------------------------------- exactly when

  /** A device can put on its disk whatever it holds, and the registrar's latest bundle. */
  lemma PutOnDisk(f: Fleet, d: Agent, x: nat) returns (xs: seq<Action>)
    requires Inv(f) && Offers(f, d, x)
    ensures IsRun(f, xs) && Inv(After(f, xs)) && 1 <= x <= Versions(f, d)
    ensures d in After(f, xs).devices && After(f, xs) == SetDevice(f, d, After(f, xs).devices[d])
    ensures OnDisk(After(f, xs), d) == Some(At(f, d, x))
  {
    hide Inv, Enabled, Do;
    InvDevice(f, d);
    if x == f.devices[d].a2aAt {
      xs := [];
    } else if x == f.devices[d].fetched {
      xs := WriteFetched(f, d);
    } else {
      xs := FetchAfresh(f, d);
    }
    RunKeeps(f, xs);
  }

  lemma WriteFetched(f: Fleet, d: Agent) returns (xs: seq<Action>)
    requires d in f.devices && f.devices[d].fetched != 0
    ensures IsRun(f, xs) && After(f, xs) == SetDevice(f, d, f.devices[d].(a2aAt := f.devices[d].fetched))
  {
    xs := [AWriteA2a(d)];
    OneStep(f, AWriteA2a(d));
  }

  /** Reboot, fetch the latest bundle, write its a2a.json. */
  lemma FetchAfresh(f: Fleet, d: Agent) returns (xs: seq<Action>)
    requires d in f.devices && Known(f, d)
    ensures IsRun(f, xs)
    ensures var v := f.devices[d]; var n := Versions(f, d); After(f, xs) == SetDevice(f, d, v.(a2aAt := n, localAt := v.snapAt, fetched := n))
  {
    hide IsRun, After;
    var g := Do(f, AReboot(d));
    var h := Do(g, AFetch(d));
    OneStep(f, AReboot(d));
    OneStep(g, AFetch(d));
    OneStep(h, AWriteA2a(d));
    RunConcat(f, [AReboot(d)], [AFetch(d)]);
    RunConcat(f, [AReboot(d)] + [AFetch(d)], [AWriteA2a(d)]);
    xs := [AReboot(d)] + [AFetch(d)] + [AWriteA2a(d)];
  }

  /** Both devices choose what to apply: the send between those two bundles is reachable. */
  lemma PutBothOnDisk(f: Fleet, a: Agent, x: nat, p: Agent, y: nat) returns (xs: seq<Action>)
    requires Inv(f) && Offers(f, a, x) && Offers(f, p, y) && a != p
    ensures IsRun(f, xs) && Inv(After(f, xs)) && After(f, xs).strict == f.strict
    ensures OnDisk(After(f, xs), a) == Some(At(f, a, x)) && OnDisk(After(f, xs), p) == Some(At(f, p, y))
  {
    hide Inv;
    var us := PutOnDisk(f, a, x);
    var g := After(f, us);
    var vs := PutOnDisk(g, p, y);
    RunConcat(f, us, vs);
    xs := us + vs;
  }

  /** An unserved ledger peer loses a send in some run. */
  lemma UnservedFails(f: Fleet, a: Agent, p: Agent) returns (xs: seq<Action>)
    requires Inv(f) && LedgerPeer(f, a, p) && !Served(f, a, p)
    ensures IsRun(f, xs) && !Delivered(After(f, xs), a, p)
  {
    hide Inv, Takes, IsRun, After;
    var i, e := NewestFacts(f, a, p);
    if f.devices[p].a2aAt == 0 {
      xs := PutOnDisk(f, a, Versions(f, a));
    } else {
      var x: nat, y: nat :| Offers(f, a, x) && Offers(f, p, y) && !Fits(f, a, x, p, y);
      xs := PutBothOnDisk(f, a, x, p, y);
      if KeyIsLive(After(f, xs), IdentityOf(At(f, a, x))) { KeyNonEmpty(After(f, xs), IdentityOf(At(f, a, x))); }
      SameTakes(f, After(f, xs), At(f, p, y), a, IdentityOf(At(f, a, x)));
    }
  }

  lemma SameTakes(f: Fleet, g: Fleet, b: Bundle, a: Agent, k: Key)
    requires f.strict == g.strict
    ensures Takes(f, b, a, k) == Takes(g, b, a, k)
  {
  }

  /** The exact condition: a ledger peer is served if and only if no run whatsoever loses one of its sends. */
  lemma ServedExactly(f: Fleet, a: Agent, p: Agent)
    requires Inv(f) && LedgerPeer(f, a, p)
    ensures Served(f, a, p) <==> forall xs :: IsRun(f, xs) ==> Delivered(After(f, xs), a, p)
  {
    hide Inv, Served;
    if Served(f, a, p) {
      forall xs | IsRun(f, xs) ensures Delivered(After(f, xs), a, p) { NoFailedSends(f, xs, a, p); }
    } else {
      var xs := UnservedFails(f, a, p);
    }
  }

  // ------------------------------------------------------------- deliver, then revoke

  /** The disks a revocation waits for: the whole ledger at its versions, the target at its flip or merge. */
  ghost predicate DisksConfirm(f: Fleet, i: nat)
    requires i < |f.rows|
  {
    (forall e :: e in f.rows[i].peers ==>
      e.agent in f.devices && f.devices[e.agent].snapAt >= e.version && f.devices[e.agent].a2aAt >= e.version) &&
    f.rows[i].agent in f.devices && f.devices[f.rows[i].agent].snapAt >= f.rows[i].newVersion &&
    f.devices[f.rows[i].agent].a2aAt >= f.rows[i].newVersion && f.devices[f.rows[i].agent].envAt >= f.rows[i].newVersion
  }

  /**
   * Deliver-then-revoke.  A key leaves the gateway only as the old key of a row awaiting revocation,
   * when every ledger peer's disk and the target's disk really hold the versions the row names; no disk
   * runs it and no bundle still to be fetched carries it.
   */
  lemma RevokedOnlyAfterDelivery(f: Fleet, x: Action, k: Key)
    requires Inv(f) && Enabled(f, x) && KeyIsLive(f, k) && !KeyIsLive(Do(f, x), k)
    ensures (x.AComplete? || x.ACleanupLost?) && x.row < |f.rows| && f.rows[x.row].status.AwaitingRevoke?
    ensures k == RevokedKey(f, x.row) && DisksConfirm(f, x.row) && Unused(f, k)
  {
    hide Inv;
    OnlySweepsRevoke(f, x, k);
    var i := x.row;
    InvRow(f, i);
    KeyNonEmpty(f, k);
    OldKeyUnused(f, i);
    InvDisks(f);
    forall e | e in f.rows[i].peers ensures f.devices[e.agent].a2aAt >= e.version { InvDevice(f, e.agent); }
    InvDevice(f, f.rows[i].agent);
  }

  lemma KeyNonEmpty(f: Fleet, k: Key)
    requires Inv(f) && KeyIsLive(f, k)
    ensures k != ""
  {
  }

  lemma OnlySweepsRevoke(f: Fleet, x: Action, k: Key)
    requires Inv(f) && Enabled(f, x) && KeyIsLive(f, k) && !KeyIsLive(Do(f, x), k)
    ensures (x.AComplete? || x.ACleanupLost?) && x.row < |f.rows| && f.rows[x.row].status.AwaitingRevoke?
    ensures k == RevokedKey(f, x.row)
  {
    hide Inv, Do, Enabled, RevokedKey, Revoke;
    var al :| al in f.live && f.live[al] == k;
    assert al !in Do(f, x).live || Do(f, x).live[al] != k;
    if x.AComplete? || x.ACleanupLost? { SweepsRevoke(f, x); } else { NothingRevoked(f, x, al); }
  }

  lemma SweepsRevoke(f: Fleet, x: Action)
    requires Enabled(f, x) && (x.AComplete? || x.ACleanupLost?)
    ensures x.row < |f.rows| && f.rows[x.row].status.AwaitingRevoke?
    ensures forall al :: al in f.live ==>
              f.live[al] == RevokedKey(f, x.row) || (al in Do(f, x).live && Do(f, x).live[al] == f.live[al])
  {
    hide CleanupJobs, Revoke, RevokedKey;
    RevokeSameBundles(f, x.row);
    RevokesOne(f, x.row);
  }

  lemma RevokesOne(f: Fleet, i: nat)
    requires i < |f.rows|
    ensures forall al :: al in f.live ==> f.live[al] == RevokedKey(f, i) || (al in Revoke(f, i).live && Revoke(f, i).live[al] == f.live[al])
  {
  }

  lemma NothingRevoked(f: Fleet, x: Action, al: Alias)
    requires Enabled(f, x) && al in f.live && !x.AComplete? && !x.ACleanupLost?
    ensures al in Do(f, x).live && Do(f, x).live[al] == f.live[al]
  {
    hide EnrollJobs, OverlapJobs, ResyncJobs, CleanupJobs, KeysStay, IdentityRow, ModelRow, Versions, Last;
  }

  // ----------------------------------------------------------------------- model keys

  /** In every reachable state the model key a device runs, and the one its stored bundle carries, is live. */
  lemma ModelKeyAlwaysLive(f: Fleet, xs: seq<Action>, d: Agent)
    requires Inv(f) && IsRun(f, xs) && d in After(f, xs).devices
    ensures var g := After(f, xs); var at := g.devices[d].envAt;
            Known(g, d) && (Last(g, d).modelKey != "" ==> KeyIsLive(g, Last(g, d).modelKey)) &&
            at <= Versions(g, d) && (at != 0 && At(g, d, at).modelKey != "" ==> KeyIsLive(g, At(g, d, at).modelKey))
  {
    hide Inv;
    RunKeeps(f, xs);
    var g := After(f, xs);
    InvDevice(g, d);
    var at := g.devices[d].envAt;
    ModelKeyLiveAt(g, d, Versions(g, d));
    if at != 0 { ModelKeyLiveAt(g, d, at); }
  }

  lemma ModelKeyLiveAt(f: Fleet, d: Agent, x: nat)
    requires Inv(f) && d in f.devices && 1 <= x <= Versions(f, d) && f.devices[d].envAt <= x
    ensures At(f, d, x).modelKey != "" ==> KeyIsLive(f, At(f, d, x).modelKey)
  {
    assert At(f, d, x).modelKey != "" ==> LiveKey(f, At(f, d, x).modelKey);
  }

  /** Each model rotation retires exactly the alias its predecessor introduced, the first one the base alias. */
  lemma OldAliasChain(f: Fleet, i: nat, j: nat)
    requires Inv(f) && i < j < |f.rows| && f.rows[i].kind.ModelKey? && f.rows[j].kind.ModelKey? && f.rows[i].agent == f.rows[j].agent
    requires forall m :: i < m < j ==> !(f.rows[m].agent == f.rows[j].agent && f.rows[m].kind.ModelKey?)
    ensures f.rows[j].oldAlias == f.rows[i].newAlias && f.rows[j].newAlias != f.rows[i].newAlias
    ensures !f.rows[i].Open()
  {
    hide Inv;
    InvRow(f, j);
    InvRow(f, i);
    var r := NewestRow(f.rows[..j], f.rows[j].agent, ModelKey);
    assert f.rows[..j][i] == f.rows[i];
    assert r == Some(i);
  }

  // -------------------------------------------------------------------- the registry

  /** At most one open row per agent and kind, and plaintexts exactly while an identity rotation is open. */
  lemma RegistryDiscipline(f: Fleet, i: nat, j: nat)
    requires Inv(f) && i < |f.rows| && j < |f.rows|
    ensures f.rows[i].Open() && f.rows[j].Open() && f.rows[i].agent == f.rows[j].agent && f.rows[i].kind == f.rows[j].kind ==> i == j
    ensures f.rows[i].kind.A2aIdentity? ==> (f.rows[i].Open() <==> f.rows[i].oldToken != "") && (f.rows[i].Open() <==> f.rows[i].newToken != "")
  {
    hide Inv;
    InvRow(f, i);
    InvRow(f, j);
  }

  /** Along any run a row's status only moves forward, and its tokens never change except to be wiped. */
  lemma {:induction false} RowsMoveForward(f: Fleet, xs: seq<Action>, i: nat)
    requires Inv(f) && IsRun(f, xs) && i < |f.rows|
    ensures i < |After(f, xs).rows| && RowMoves(f.rows[i], After(f, xs).rows[i])
    decreases |xs|
  {
    hide Inv;
    if xs != [] {
      StepKeeps(f, xs[0]);
      StepMoves(f, xs[0]);
      RowsMoveForward(Do(f, xs[0]), xs[1..], i);
    }
  }
}
