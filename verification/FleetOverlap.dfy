/** What overlapping calls of the registrar break, write by write: a call works on rows and documents it read before another one ran. */
module FleetOverlap {
  import opened A2aDoc
  import opened Fleet
  import opened FleetInvariant
  import opened FleetSteps
  import opened FleetSafety
  import opened FleetTheorems

  // ---------------------------------------------------------------------- a late flip

  /**
   * flipTarget as a sweep executes it whose rows were read before another sweep ran: the key comes from
   * the row as it was read, and the update sets the status by id, whatever it has become.
   */
  function StaleFlip(f: Fleet, i: nat, read: Row): Fleet
    requires i < |f.rows| && Known(f, f.rows[i].agent)
  {
    var a := f.rows[i].agent;
    SetRow(Store(f, map[a := WithDoc(Last(f, a), Render(Last(f, a).a2a, NO_UPDATES.(identityKey := Some(read.newToken))))]), i,
           f.rows[i].(status := AwaitingTarget, newVersion := Versions(f, a) + 1))
  }

  /**
   * A flip decided on a row that other calls have moved since.  The status does not go back exactly if
   * the row is still before its target's confirmation, and the row moves as in a run exactly if it is
   * still delivering, where the late flip is the flip.  A row awaiting its target gets a later flip
   * version and keeps the invariant; one awaiting revocation goes back, and keeps the invariant exactly
   * if no cleanup has begun.  A closed row becomes an open one without tokens, which no sweep can close,
   * and the target's identity key is the one the closed rotation led to.
   */
  lemma StaleFlipExactly(f: Fleet, xs: seq<Action>, i: nat)
    requires Inv(f) && CanFlip(f, i) && IsRun(f, xs)
    ensures var g := After(f, xs);
            i < |g.rows| && Known(g, g.rows[i].agent) &&
            var h := StaleFlip(g, i, f.rows[i]); var now := g.rows[i].status;
            i < |h.rows| &&
            (RowMoves(g.rows[i], h.rows[i]) <==> now.Delivering?) &&
            (Rank(now) <= Rank(h.rows[i].status) <==> now.Delivering? || now.AwaitingTarget?) &&
            (!now.Completed? ==> h == Flip(g, i) && (Inv(h) <==> OverlapsLeft(g, i))) &&
            (now.Delivering? || now.AwaitingTarget? ==> Inv(h)) &&
            (now.Completed? ==>
              h.rows[i].Open() && h.rows[i].oldToken == "" && !CanRevoke(Confirm(h, i), i) &&
              CurrentIdentity(h, h.rows[i].agent) == f.rows[i].newToken && !Inv(h))
  {
    hide Inv, CanFlip, OverlapsLeft, Flip;
    CanFlipRow(f, i);
    RowsMoveForward(f, xs, i);
    RunKeeps(f, xs);
    var g := After(f, xs);
    InvRow(g, i);
    InvDevice(g, g.rows[i].agent);
    var h := StaleFlip(g, i, f.rows[i]);
    LateFlip(g, i, f.rows[i]);
    if g.rows[i].status.Completed? {
      OpenHasTokens(h, i);
    } else {
      StillAtLedger(f, xs, i);
      LateFlipInv(g, i);
      if g.rows[i].status.Delivering? || g.rows[i].status.AwaitingTarget? { OverlapsAreLeft(g, i); }
    }
  }

  /** While the row is open the late flip keeps the invariant exactly if every overlap entry is still there. */
  lemma LateFlipInv(f: Fleet, i: nat)
    requires Inv(f) && IsOpen(f, i) && f.rows[i].kind.A2aIdentity? && PeersAt(f, i)
    ensures HasDoc(f, f.rows[i].agent) && (Inv(Flip(f, i)) <==> OverlapsLeft(f, i))
  {
    hide Inv, OverlapsLeft, PeersOk;
    InvRow(f, i);
    var a := f.rows[i].agent;
    assert TargetVersionOk(f, i, Last(f, a));
    if OverlapsLeft(f, i) { FlipAgainKeeps(f, i); }
    if Inv(Flip(f, i)) { FlipLeaves(f, i); }
  }

  lemma FlipLeaves(f: Fleet, i: nat)
    requires IsOpen(f, i) && f.rows[i].kind.A2aIdentity? && RowShape(f, i) && Known(f, f.rows[i].agent) && Inv(Flip(f, i))
    ensures OverlapsLeft(f, i)
  {
    hide Inv, Render;
    var a, h := f.rows[i].agent, Flip(f, i);
    StoreVersions(f, map[a := WithDoc(Last(f, a), Render(Last(f, a).a2a, NO_UPDATES.(identityKey := Some(f.rows[i].newToken))))]);
    InvRow(h, i);
    OverlapsAreLeft(h, i);
    forall e, x | e in f.rows[i].peers && 1 <= e.version <= x <= Versions(f, e.agent) ensures At(h, e.agent, x) == At(f, e.agent, x) {
    }
  }

  /** Sends of other agents, to the target among others, do not notice a late flip. */
  lemma LateFlipOthers(f: Fleet, i: nat, read: Row, b: Agent, q: Agent)
    requires Inv(f) && i < |f.rows| && Known(f, f.rows[i].agent) && b != f.rows[i].agent && Served(f, b, q)
    ensures Served(StaleFlip(f, i, read), b, q)
  {
    hide Inv, Served, Render, Takes;
    var a := f.rows[i].agent;
    var doc := Render(Last(f, a).a2a, NO_UPDATES.(identityKey := Some(read.newToken)));
    var h := StaleFlip(f, i, read);
    ServedPeer(f, b, q);
    var j, e := NewestFacts(f, b, q);
    StoreIsOneMore(f, h, map[a := WithDoc(Last(f, a), doc)], b);
    StoreIsOneMore(f, h, map[a := WithDoc(Last(f, a), doc)], q);
    SameLedgerPeers(f, h, b, q);
    OneMoreServes(f, h, b, q);
    LastOffered(f, q);
    forall x: nat | Offers(f, b, x) ensures Takes(h, Last(h, q), b, IdentityOf(At(f, b, x))) {
      ServedFits(f, b, q, x, Versions(f, q));
      if q == a { FlippedTakes(f, h, Last(f, a), read.newToken, b, IdentityOf(At(f, b, x))); }
      SameTakes(f, h, Last(f, q), b, IdentityOf(At(f, b, x)));
    }
  }

  /** An identity flip changes what a document presents, not whom it takes. */
  lemma FlippedTakes(f: Fleet, g: Fleet, b: Bundle, key: Key, c: Agent, k: Key)
    requires f.strict == g.strict && Takes(f, b, c, k)
    ensures Takes(g, WithDoc(b, Render(b.a2a, NO_UPDATES.(identityKey := Some(key)))), c, k)
  {
  }

  /** Rows that keep their agents, kinds and ledgers have the same ledger peers. */
  lemma SameLedgerPeers(f: Fleet, g: Fleet, a: Agent, p: Agent)
    requires |f.rows| == |g.rows|
    requires forall j :: 0 <= j < |f.rows| ==>
               g.rows[j].agent == f.rows[j].agent && g.rows[j].kind == f.rows[j].kind && g.rows[j].peers == f.rows[j].peers
    ensures LedgerPeer(g, a, p) <==> LedgerPeer(f, a, p)
    ensures NewestRow(g.rows, a, A2aIdentity) == NewestRow(f.rows, a, A2aIdentity)
  {
    var r, s := NewestRow(f.rows, a, A2aIdentity), NewestRow(g.rows, a, A2aIdentity);
    if r.Some? { assert g.rows[r.value].agent == a && g.rows[r.value].kind.A2aIdentity?; }
    if s.Some? { assert f.rows[s.value].agent == a && f.rows[s.value].kind.A2aIdentity?; }
  }

  /** The target's own sends survive a late flip exactly if whatever the peer may run takes the key it flips to. */
  lemma LateFlipServes(f: Fleet, i: nat, read: Row, p: Agent)
    requires Inv(f) && i < |f.rows| && Known(f, f.rows[i].agent) && read.newToken != "" && Served(f, f.rows[i].agent, p)
    ensures Served(StaleFlip(f, i, read), f.rows[i].agent, p) <==>
              forall y: nat :: Offers(f, p, y) ==> y <= Versions(f, p) && 1 <= y && Takes(f, At(f, p, y), f.rows[i].agent, read.newToken)
  {
    hide Inv, Served, Render, Takes, Fits;
    var a := f.rows[i].agent;
    var doc := Render(Last(f, a).a2a, NO_UPDATES.(identityKey := Some(read.newToken)));
    FlipIdentity(Last(f, a), read.newToken);
    var h := StaleFlip(f, i, read);
    ServedPeer(f, a, p);
    var j, e := NewestFacts(f, a, p);
    StoreIsOneMore(f, h, map[a := WithDoc(Last(f, a), doc)], a);
    StoreIsOneMore(f, h, map[a := WithDoc(Last(f, a), doc)], p);
    SameLedgerPeers(f, h, a, p);
    var n := Versions(h, a);
    LastOffered(h, a);
    if Served(h, a, p) {
      forall y: nat | Offers(f, p, y) ensures 1 <= y <= Versions(f, p) && Takes(f, At(f, p, y), a, read.newToken) {
        ServedFits(h, a, p, n, y);
        SameTakes(f, h, At(f, p, y), a, read.newToken);
      }
    }
    if forall y: nat :: Offers(f, p, y) ==> y <= Versions(f, p) && 1 <= y && Takes(f, At(f, p, y), a, read.newToken) {
      forall x: nat, y: nat | Offers(h, a, x) && Offers(h, p, y) ensures Fits(h, a, x, p, y) {
        assert Offers(f, p, y);
        if x < n {
          OneMoreAt(f, h, a, x);
          ServedFits(f, a, p, x, y);
        }
        SameTakes(f, h, At(f, p, y), a, IdentityOf(At(h, a, x)));
        FitsIs(h, a, x, p, y);
      }
      ServedIs(h, a, p);
    }
  }

  /** Once the ledger's disks are at their versions, a served peer takes the key an open rotation leads to. */
  lemma TakesNewKey(f: Fleet, i: nat, p: Agent)
    requires Inv(f) && IsOpen(f, i) && f.rows[i].kind.A2aIdentity? && PeersAt(f, i) && Served(f, f.rows[i].agent, p)
    ensures forall y: nat :: Offers(f, p, y) ==> 1 <= y <= Versions(f, p) && Takes(f, At(f, p, y), f.rows[i].agent, f.rows[i].newToken)
  {
    hide Inv, Served, Takes, OpenTo, Admits;
    var a := f.rows[i].agent;
    ServedPeer(f, a, p);
    InvRow(f, i);
    var j, e := NewestFacts(f, a, p);
    assert i == j;
    ServedAdmits(f, a, p);
    forall y: nat | Offers(f, p, y) ensures 1 <= y <= Versions(f, p) && Takes(f, At(f, p, y), a, f.rows[i].newToken) {
      OfferBounds(f, p, y);
      OfferedFits(f, i, e, y);
      AdmitsOne(f, a, p, y);
      VersionTakes(f, i, At(f, p, y), NewKey(f, i));
    }
  }

  /**
   * A late flip and the sends.  Every served pair stays served, in whatever state an open row is; on a
   * closed row the target's own pairs do exactly if the peer still takes the closed rotation's key.
   */
  lemma StaleFlipServes(f: Fleet, xs: seq<Action>, i: nat, b: Agent, q: Agent)
    requires Inv(f) && CanFlip(f, i) && IsRun(f, xs) && Served(After(f, xs), b, q)
    ensures var g := After(f, xs);
            i < |g.rows| && Known(g, g.rows[i].agent) &&
            var h := StaleFlip(g, i, f.rows[i]);
            (b != g.rows[i].agent || g.rows[i].Open() ==> Served(h, b, q)) &&
            (b == g.rows[i].agent ==>
              (Served(h, b, q) <==> forall y: nat :: Offers(g, q, y) ==> 1 <= y <= Versions(g, q) && Takes(g, At(g, q, y), b, f.rows[i].newToken)))
  {
    hide Inv, CanFlip, Served, StaleFlip, Takes, OpenTo;
    CanFlipRow(f, i);
    RowsMoveForward(f, xs, i);
    RunKeeps(f, xs);
    var g := After(f, xs);
    InvRow(f, i);
    InvRow(g, i);
    InvDevice(g, g.rows[i].agent);
    if b != g.rows[i].agent {
      LateFlipOthers(g, i, f.rows[i], b, q);
    } else {
      LateFlipServes(g, i, f.rows[i], q);
      if g.rows[i].Open() {
        StillAtLedger(f, xs, i);
        TakesNewKey(g, i, q);
      }
    }
  }

  lemma CanFlipRow(f: Fleet, i: nat)
    requires CanFlip(f, i)
    ensures i < |f.rows| && f.rows[i].kind.A2aIdentity? && f.rows[i].status.Delivering? && PeersConfirmed(f, i)
  {
  }

  /** Reports may fall back, the disks they once spoke of do not. */
  lemma StillAtLedger(f: Fleet, xs: seq<Action>, i: nat)
    requires Inv(f) && CanFlip(f, i) && IsRun(f, xs) && i < |After(f, xs).rows| && RowMoves(f.rows[i], After(f, xs).rows[i])
    ensures PeersAt(After(f, xs), i)
  {
    hide Inv;
    CanFlipIsFlippable(f, i);
    SnapshotsAdvance(f, xs);
  }

  lemma {:induction false} SnapshotsAdvance(f: Fleet, xs: seq<Action>)
    requires Inv(f) && IsRun(f, xs)
    ensures forall d :: d in f.devices ==> d in After(f, xs).devices && f.devices[d].snapAt <= After(f, xs).devices[d].snapAt
    decreases |xs|
  {
    hide Inv, Do;
    if xs != [] {
      StepKeeps(f, xs[0]);
      StepMoves(f, xs[0]);
      SnapshotsAdvance(Do(f, xs[0]), xs[1..]);
    }
  }

  lemma OpenHasTokens(f: Fleet, i: nat)
    requires i < |f.rows| && f.rows[i].kind.A2aIdentity? && f.rows[i].Open() && f.rows[i].oldToken == ""
    ensures !Inv(f)
  {
    if Inv(f) { RegistryDiscipline(f, i, i); }
  }

  lemma LateFlip(f: Fleet, i: nat, read: Row)
    requires i < |f.rows| && Known(f, f.rows[i].agent)
    ensures var h := StaleFlip(f, i, read);
            h.rows == f.rows[i := f.rows[i].(status := AwaitingTarget, newVersion := Versions(f, f.rows[i].agent) + 1)] &&
            CurrentIdentity(h, f.rows[i].agent) == read.newToken &&
            (f.rows[i].newToken == read.newToken ==> h == Flip(f, i))
  {
    hide Render;
    var a := f.rows[i].agent;
    var doc := Render(Last(f, a).a2a, NO_UPDATES.(identityKey := Some(read.newToken)));
    FlipIdentity(Last(f, a), read.newToken);
    StoreVersions(f, map[a := WithDoc(Last(f, a), doc)]);
    assert Last(StaleFlip(f, i, read), a) == WithDoc(Last(f, a), doc);
  }

  // --------------------------------------------------------------- a late confirmation

  /** The confirmation's update sets the status by id as well. */
  function StaleConfirm(f: Fleet, i: nat): Fleet
    requires i < |f.rows|
  {
    SetRow(f, i, f.rows[i].(status := AwaitingRevoke))
  }

  /**
   * A confirmation decided on a row that other calls have moved since: the confirmation itself, or nothing,
   * unless the row is closed.  Then it is open again without tokens, no sweep can revoke or close it, and
   * while it is the agent's newest no further rotation of the agent can start.
   */
  lemma StaleConfirmExactly(f: Fleet, xs: seq<Action>, i: nat)
    requires Inv(f) && CanConfirm(f, i) && f.rows[i].kind.A2aIdentity? && IsRun(f, xs)
    ensures var g := After(f, xs);
            i < |g.rows| && var h := StaleConfirm(g, i); var now := g.rows[i].status;
            i < |h.rows| &&
            (RowMoves(g.rows[i], h.rows[i]) <==> !now.Completed?) && (Inv(h) <==> !now.Completed?) &&
            (now.AwaitingTarget? ==> h == Confirm(g, i)) && (now.AwaitingRevoke? ==> h == g) &&
            (now.Completed? ==> h.rows[i].Open() && h.rows[i].oldToken == "" && !CanRevoke(h, i) &&
                                OpenRow(h.rows, h.rows[i].agent, A2aIdentity).Some?)
  {
    hide Inv, CanConfirm, Confirmable;
    ConfirmRow(f, i);
    RowsMoveForward(f, xs, i);
    RunKeeps(f, xs);
    var g := After(f, xs);
    var h := StaleConfirm(g, i);
    InvRow(g, i);
    if g.rows[i].status.Completed? {
      OpenHasTokens(h, i);
    } else if g.rows[i].status.AwaitingTarget? {
      StillConfirmable(f, xs, i);
      ConfirmKeeps(g, i);
    } else {
      assert g.rows[i := g.rows[i]] == g.rows;
      assert g.rows[i].(status := AwaitingRevoke) == g.rows[i];
    }
  }

  lemma ConfirmRow(f: Fleet, i: nat)
    requires CanConfirm(f, i) && f.rows[i].kind.A2aIdentity?
    ensures i < |f.rows| && f.rows[i].status.AwaitingTarget?
  {
  }

  lemma StillConfirmable(f: Fleet, xs: seq<Action>, i: nat)
    requires Inv(f) && CanConfirm(f, i) && f.rows[i].kind.A2aIdentity? && IsRun(f, xs) && i < |After(f, xs).rows|
    requires RowMoves(f.rows[i], After(f, xs).rows[i]) && After(f, xs).rows[i].status.AwaitingTarget?
    ensures Confirmable(After(f, xs), i)
  {
    hide Inv;
    CanConfirmIsConfirmable(f, i);
    SnapshotsAdvance(f, xs);
  }

  // -------------------------------------------------------- a late revocation and cleanup

  /**
   * The last stage as a sweep executes it that was held up in the gateway's delete: the key, the agent and
   * the ledger are those of the row as it was read.
   */
  function StaleComplete(f: Fleet, i: nat, read: Row): Fleet
    requires i < |f.rows|
  {
    var g := f.(live := DeleteKey(f.live, read.oldToken));
    SetRow(Store(g, CleanupJobs(g, read.peers, read.agent)), i, f.rows[i].(status := Completed, oldToken := "", newToken := "", failed := false))
  }

  /** A key once issued and gone from the gateway never comes back. */
  lemma DeadStays(f: Fleet, x: Action, k: Key)
    requires Inv(f) && Enabled(f, x) && k in f.issued && !KeyIsLive(f, k)
    ensures k in Do(f, x).issued && !KeyIsLive(Do(f, x), k)
  {
    hide Inv, KeyIsLive;
    GatewayStep(f, x);
    if KeyIsLive(Do(f, x), k) {
      LiveAlias(Do(f, x), k);
      if exists al :: al in f.live && f.live[al] == k { AliasLive(f, k); }
    }
  }

  lemma LiveAlias(f: Fleet, k: Key)
    requires KeyIsLive(f, k)
    ensures exists al :: al in f.live && f.live[al] == k
  {
  }

  lemma AliasLive(f: Fleet, k: Key)
    requires exists al :: al in f.live && f.live[al] == k
    ensures KeyIsLive(f, k)
  {
  }

  /** What an action puts into the gateway was there or was never issued before. */
  lemma GatewayStep(f: Fleet, x: Action)
    requires Enabled(f, x)
    ensures var g := Do(f, x);
            f.issued.Keys <= g.issued.Keys &&
            forall al :: al in g.live ==> (al in f.live && g.live[al] == f.live[al]) || g.live[al] !in f.issued
  {
    hide Do, Enabled;
    if x.AComplete? || x.ACleanupLost? {
      SweepGateway(f, x);
    } else if x.AEnroll? || x.AStartIdentity? || x.AStartIdentityLost? || x.AStartModel? || x.AStartModelLost? || x.AProvision? {
      MintGateway(f, x);
    } else {
      OtherGateway(f, x);
    }
  }

  lemma OtherGateway(f: Fleet, x: Action)
    requires Enabled(f, x) && !x.AComplete? && !x.ACleanupLost?
    requires !x.AEnroll? && !x.AStartIdentity? && !x.AStartIdentityLost? && !x.AStartModel? && !x.AStartModelLost? && !x.AProvision?
    ensures var g := Do(f, x);
            f.issued.Keys <= g.issued.Keys &&
            forall al :: al in g.live ==> (al in f.live && g.live[al] == f.live[al]) || g.live[al] !in f.issued
  {
    hide ResyncJobs, KeysStay, Versions, Last;
  }

  lemma MintGateway(f: Fleet, x: Action)
    requires Enabled(f, x)
    requires x.AEnroll? || x.AStartIdentity? || x.AStartIdentityLost? || x.AStartModel? || x.AStartModelLost? || x.AProvision?
    ensures var g := Do(f, x);
            f.issued.Keys <= g.issued.Keys &&
            forall al :: al in g.live ==> (al in f.live && g.live[al] == f.live[al]) || g.live[al] !in f.issued
  {
    hide EnrollJobs, OverlapJobs, IdentityRow, ModelRow, NextSuffix;
  }

  lemma SweepGateway(f: Fleet, x: Action)
    requires Enabled(f, x) && (x.AComplete? || x.ACleanupLost?)
    ensures var g := Do(f, x); g.issued == f.issued && forall al :: al in g.live ==> al in f.live && g.live[al] == f.live[al]
  {
    hide CleanupJobs, Store, Revoke, Complete, CleanupLost, EnrollJobs, OverlapJobs, ResyncJobs, KeysStay;
    RevokeDeletesOnly(f, x.row);
    if x.AComplete? { CompleteGateway(f, x.row); } else { CleanupGateway(f, x.row, x.reach); }
  }

  lemma RevokeDeletesOnly(f: Fleet, i: nat)
    requires i < |f.rows|
    ensures var g := Revoke(f, i); g.issued == f.issued && forall al :: al in g.live ==> al in f.live && g.live[al] == f.live[al]
  {
  }

  lemma CompleteGateway(f: Fleet, i: nat)
    requires i < |f.rows|
    ensures Complete(f, i).live == Revoke(f, i).live && Complete(f, i).issued == Revoke(f, i).issued
  {
    hide CleanupJobs, Revoke;
    RevokeSameBundles(f, i);
  }

  lemma CleanupGateway(f: Fleet, i: nat, reach: set<Agent>)
    requires i < |f.rows|
    ensures CleanupLost(f, i, reach).live == Revoke(f, i).live && CleanupLost(f, i, reach).issued == Revoke(f, i).issued
  {
    hide CleanupJobs, Revoke;
  }

  /** Only its own completion closes a row, and that deletes its old key. */
  lemma ClosingDeletes(f: Fleet, x: Action, i: nat)
    requires Inv(f) && Enabled(f, x) && IsOpen(f, i) && f.rows[i].kind.A2aIdentity?
    requires i < |Do(f, x).rows| && Do(f, x).rows[i].status.Completed?
    ensures !KeyIsLive(Do(f, x), f.rows[i].oldToken)
  {
    hide Inv;
    assert x == AComplete(i) by { OnlyCompletes(f, x, i); }
    hide CleanupJobs;
    RevokeSameBundles(f, i);
  }

  lemma OnlyCompletes(f: Fleet, x: Action, i: nat)
    requires Enabled(f, x) && IsOpen(f, i) && i < |Do(f, x).rows| && Do(f, x).rows[i].status.Completed?
    ensures x == AComplete(i)
  {
    hide EnrollJobs, OverlapJobs, ResyncJobs, CleanupJobs, KeysStay, IdentityRow, ModelRow, Versions, Last, NextSuffix, Revoke;
    if x.ACleanupLost? || x.AComplete? { RevokeSameBundles(f, x.row); }
  }

  /** A row awaiting revocation keeps its old key, and once it is closed that key is dead. */
  ghost predicate AwaitsOrDead(f: Fleet, i: nat, k: Key) {
    i < |f.rows| && k in f.issued && f.rows[i].kind.A2aIdentity? &&
    ((f.rows[i].status.AwaitingRevoke? && f.rows[i].oldToken == k) || (f.rows[i].status.Completed? && !KeyIsLive(f, k)))
  }

  lemma {:induction false} AwaitsOrDeadRun(f: Fleet, xs: seq<Action>, i: nat, k: Key)
    requires Inv(f) && IsRun(f, xs) && AwaitsOrDead(f, i, k)
    ensures AwaitsOrDead(After(f, xs), i, k)
    decreases |xs|
  {
    hide Inv, Do, Enabled, KeyIsLive;
    if xs != [] {
      var x, g := xs[0], Do(f, xs[0]);
      StepKeeps(f, x);
      StepMoves(f, x);
      GatewayStep(f, x);
      assert RowMoves(f.rows[i], g.rows[i]);
      if f.rows[i].status.Completed? { DeadStays(f, x, k); } else if g.rows[i].status.Completed? { ClosingDeletes(f, x, i); }
      AwaitsOrDeadRun(g, xs[1..], i, k);
    }
  }

  /**
   * What a late cleanup leaves of a served pair: it stays served exactly if the peer is not cleaned, or takes
   * the agent by signature, or lists every key the agent may present as its canonical token.
   */
  lemma LateCleanupServes(f: Fleet, i: nat, read: Row, p: Agent)
    requires Inv(f) && i < |f.rows| && f.rows[i].kind.A2aIdentity? && read.agent == f.rows[i].agent && read.peers == f.rows[i].peers
    requires Served(f, read.agent, p)
    ensures Known(f, p)
    ensures Served(StaleComplete(f, i, read), read.agent, p) <==>
              p !in LedgerNames(read.peers) || !NeedsCleanup(f, p, read.agent) || Signs(f, Last(f, p), read.agent) ||
              forall x: nat :: Offers(f, read.agent, x) && x <= Versions(f, read.agent) ==>
                TokenIs(Last(f, p), read.agent, IdentityOf(At(f, read.agent, x)))
  {
    hide Inv, Served, Takes, CleanedBundle, CleanupJobs, NeedsCleanup, TokenIs;
    var a := read.agent;
    var h := StaleComplete(f, i, read);
    var g := f.(live := DeleteKey(f.live, read.oldToken));
    var jobs := CleanupJobs(f, read.peers, a);
    SameHistoryJobs(f, g, read.peers, a);
    ServedPeer(f, a, p);
    InvRow(f, i);
    var j, e := NewestFacts(f, a, p);
    CleanupOf(f, read.peers, a, a);
    CleanupOf(f, read.peers, a, p);
    assert h.history == Store(f, jobs).history;
    StoreIsOneMore(f, h, jobs, a);
    StoreIsOneMore(f, h, jobs, p);
    SameLedgerPeers(f, h, a, p);
    OneMoreServes(f, h, a, p);
    LastOffered(f, p);
    LastOffered(f, a);
    forall x: nat | Offers(f, a, x)
      ensures Takes(h, Last(h, p), a, IdentityOf(At(f, a, x))) <==>
                p !in LedgerNames(read.peers) || !NeedsCleanup(f, p, a) || Signs(f, Last(f, p), a) ||
                TokenIs(Last(f, p), a, IdentityOf(At(f, a, x)))
    {
      var k := IdentityOf(At(f, a, x));
      ServedFits(f, a, p, x, Versions(f, p));
      if p in jobs { CleanedTakes(f, h, p, a, k); } else { SameTakes(f, h, Last(f, p), a, k); }
    }
  }

  /** Sends of other agents do not notice a late cleanup. */
  lemma LateCleanupOthers(f: Fleet, i: nat, read: Row, b: Agent, q: Agent)
    requires Inv(f) && i < |f.rows| && read.agent == f.rows[i].agent && read.peers == f.rows[i].peers && b != read.agent && Served(f, b, q)
    ensures Served(StaleComplete(f, i, read), b, q)
  {
    hide Inv, Served, Takes, CleanedBundle, CleanupJobs;
    var a := read.agent;
    var h := StaleComplete(f, i, read);
    var jobs := CleanupJobs(f, read.peers, a);
    SameHistoryJobs(f, f.(live := DeleteKey(f.live, read.oldToken)), read.peers, a);
    ServedPeer(f, b, q);
    var j, e := NewestFacts(f, b, q);
    CleanupOf(f, read.peers, a, b);
    CleanupOf(f, read.peers, a, q);
    StoreIsOneMore(f, h, jobs, b);
    StoreIsOneMore(f, h, jobs, q);
    if b in jobs { CleanedEntries(f, b, a); }
    SameLedgerPeers(f, h, b, q);
    OneMoreServes(f, h, b, q);
    LastOffered(f, q);
    forall x: nat | Offers(f, b, x) ensures Takes(h, Last(h, q), b, IdentityOf(At(f, b, x))) {
      ServedFits(f, b, q, x, Versions(f, q));
      if q in jobs { CleanedTakesOther(f, h, q, a, b, IdentityOf(At(f, b, x))); } else { SameTakes(f, h, Last(f, q), b, IdentityOf(At(f, b, x))); }
    }
  }

  lemma CleanedTakesOther(f: Fleet, g: Fleet, p: Agent, a: Agent, b: Agent, k: Key)
    requires NeedsCleanup(f, p, a) && f.strict == g.strict && Takes(f, Last(f, p), b, k) && b != a
    ensures Takes(g, CleanedBundle(f, p, a), b, k)
  {
    hide CleanedBundle;
    CleanedEntries(f, p, a);
  }

  predicate TokenIs(b: Bundle, a: Agent, k: Key) { b.a2a.Some? && a in b.a2a.value.tokens && b.a2a.value.tokens[a] == k }

  lemma CleanupOf(f: Fleet, peers: seq<LedgerEntry>, a: Agent, p: Agent)
    ensures p in CleanupJobs(f, peers, a) <==> p in LedgerNames(peers) && NeedsCleanup(f, p, a)
    ensures p in CleanupJobs(f, peers, a) ==> CleanupJobs(f, peers, a)[p] == CleanedBundle(f, p, a)
    ensures (forall e :: e in peers ==> e.agent != p) ==> p !in CleanupJobs(f, peers, a)
  {
    hide CleanedBundle;
  }

  lemma CleanedTakes(f: Fleet, g: Fleet, p: Agent, a: Agent, k: Key)
    requires NeedsCleanup(f, p, a) && f.strict == g.strict && Takes(f, Last(f, p), a, k)
    ensures Takes(g, CleanedBundle(f, p, a), a, k) <==> Signs(f, Last(f, p), a) || TokenIs(Last(f, p), a, k)
  {
    hide CleanedBundle;
    CleanedEntries(f, p, a);
  }

  /**
   * A revocation and cleanup that come after another sweep has closed the row.  While the row still awaits
   * revocation they are the completion.  On a closed row the gateway and the registry stay as they are, and
   * a served pair of the agent stays served exactly if the overlap entry the cleanup drops is not what the
   * peer takes the agent by.
   */
  lemma StaleCleanupExactly(f: Fleet, xs: seq<Action>, i: nat, p: Agent)
    requires Inv(f) && CanRevoke(f, i) && f.rows[i].kind.A2aIdentity? && IsRun(f, xs)
    ensures var g := After(f, xs); var a := f.rows[i].agent;
            i < |g.rows| && i < |f.rows| && var h := StaleComplete(g, i, f.rows[i]); var now := g.rows[i].status;
            (now.AwaitingRevoke? || now.Completed?) &&
            (now.AwaitingRevoke? ==> h == Complete(g, i) && Inv(h)) &&
            (now.Completed? ==> h.live == g.live && h.rows == g.rows[i := g.rows[i].(failed := false)]) &&
            (now.Completed? && Served(g, a, p) ==>
              Known(g, p) &&
              (Served(h, a, p) <==>
                p !in LedgerNames(f.rows[i].peers) || !NeedsCleanup(g, p, a) || Signs(g, Last(g, p), a) ||
                forall x: nat :: Offers(g, a, x) && x <= Versions(g, a) ==> TokenIs(Last(g, p), a, IdentityOf(At(g, a, x)))))
  {
    hide Inv, CanRevoke, Served, CleanupJobs, NeedsCleanup, KeyIsLive, Takes;
    RevokeRow(f, i);
    var k := f.rows[i].oldToken;
    InvRow(f, i);
    RowsMoveForward(f, xs, i);
    RunKeeps(f, xs);
    AwaitsOrDeadRun(f, xs, i, k);
    var g := After(f, xs);
    InvRow(g, i);
    var h := StaleComplete(g, i, f.rows[i]);
    if g.rows[i].status.AwaitingRevoke? {
      RevokeSameBundles(g, i);
      SameHistoryJobs(g, g.(live := DeleteKey(g.live, k)), g.rows[i].peers, g.rows[i].agent);
      assert Revoke(g, i) == g.(live := DeleteKey(g.live, k));
      CompleteKeeps(g, i) by { CanRevokeAgain(g, i); }
    } else {
      DeleteNothing(g, k);
      StoreFields(g.(live := DeleteKey(g.live, k)), CleanupJobs(g.(live := DeleteKey(g.live, k)), f.rows[i].peers, f.rows[i].agent));
      if Served(g, f.rows[i].agent, p) { LateCleanupServes(g, i, f.rows[i], p); }
    }
  }

  lemma RevokeRow(f: Fleet, i: nat)
    requires CanRevoke(f, i)
    ensures i < |f.rows| && f.rows[i].status.AwaitingRevoke?
  {
  }

  lemma CanRevokeAgain(f: Fleet, i: nat)
    requires i < |f.rows| && RowShape(f, i) && f.rows[i].kind.A2aIdentity? && f.rows[i].status.AwaitingRevoke?
    ensures CanRevoke(f, i)
  {
  }

  lemma DeleteNothing(f: Fleet, k: Key)
    requires !KeyIsLive(f, k)
    ensures DeleteKey(f.live, k) == f.live
  {
  }

  /**
   * With a later rotation of the agent open before its target's confirmation, the entry dropped is the one
   * that rotation needs: a peer both ledgers list stays served exactly if it takes the agent by signature, or
   * the agent can present nothing but the new key any more.
   */
  lemma StaleCleanupOfOpen(f: Fleet, i: nat, read: Row, j: nat, p: Agent)
    requires Inv(f) && i < |f.rows| && f.rows[i].kind.A2aIdentity? && read.agent == f.rows[i].agent && read.peers == f.rows[i].peers
    requires NewestRow(f.rows, read.agent, A2aIdentity) == Some(j) && (f.rows[j].status.Delivering? || f.rows[j].status.AwaitingTarget?)
    requires Served(f, read.agent, p) && p in LedgerNames(read.peers)
    ensures Known(f, p)
    ensures Served(StaleComplete(f, i, read), read.agent, p) <==>
              Signs(f, Last(f, p), read.agent) ||
              forall x: nat :: Offers(f, read.agent, x) && x <= Versions(f, read.agent) ==> IdentityOf(At(f, read.agent, x)) == f.rows[j].newToken
  {
    hide Inv, Served, StaleComplete;
    LateCleanupServes(f, i, read, p);
    ServedPeer(f, read.agent, p);
    var m, e := NewestFacts(f, read.agent, p);
    assert m == j;
    assert PeerVersionOk(f, j, At(f, p, Versions(f, p)));
  }

  /** The input: the target still runs the later rotation's old key, and the peer applies what the late cleanup stored. */
  lemma StaleCleanupBreaks(f: Fleet, i: nat, read: Row, j: nat, p: Agent)
    requires Inv(f) && i < |f.rows| && f.rows[i].kind.A2aIdentity? && read.agent == f.rows[i].agent && read.peers == f.rows[i].peers
    requires NewestRow(f.rows, read.agent, A2aIdentity) == Some(j) && (f.rows[j].status.Delivering? || f.rows[j].status.AwaitingTarget?)
    requires LedgerPeer(f, read.agent, p) && p in LedgerNames(read.peers) && Known(f, p) && !Signs(f, Last(f, p), read.agent)
    requires OnDisk(f, read.agent).Some? && IdentityOf(OnDisk(f, read.agent).value) == f.rows[j].oldToken
    ensures var h := StaleComplete(f, i, read);
            p in h.devices && var k := SetDevice(h, p, h.devices[p].(a2aAt := Versions(h, p))); !Delivered(k, read.agent, p)
  {
    hide Inv, CleanedBundle, CleanupJobs;
    var a := read.agent;
    var h := StaleComplete(f, i, read);
    var g := f.(live := DeleteKey(f.live, read.oldToken));
    var jobs := CleanupJobs(f, read.peers, a);
    SameHistoryJobs(f, g, read.peers, a);
    InvRow(f, i);
    var m, e := NewestFacts(f, a, p);
    assert PeerVersionOk(f, j, At(f, p, Versions(f, p)));
    CleanupOf(f, read.peers, a, a);
    CleanupOf(f, read.peers, a, p);
    CleanedEntries(f, p, a);
    StoreIsOneMore(f, h, jobs, a);
    StoreIsOneMore(f, h, jobs, p);
    OneMoreAt(f, h, a, f.devices[a].a2aAt);
    assert !Takes(h, Last(h, p), a, f.rows[j].oldToken);
    assert IsOpen(f, j) && f.rows[j].oldToken != f.rows[j].newToken;
  }

  // --------------------------------------------------------- a document read before it changed

  /**
   * A render of a document read before another call stored one.  Whom the render does not name, the receiver
   * takes as the document that was read did: what came in between is lost exactly as far as it differs.
   */
  lemma StaleRenderExactly(f: Fleet, p: Agent, read: A2a, u: Updates, c: Agent, k: Key)
    requires Known(f, p) && c !in u.addTokens && c !in u.addOverlap && c !in u.dropOverlap
    requires u.addTrusted.Some? ==> c !in u.addTrusted.value
    ensures Takes(f, WithDoc(Last(f, p), Render(Some(read), u)), c, k) <==> Takes(f, WithDoc(Last(f, p), read), c, k)
  {
  }

  /**
   * The input: two starts with a common peer, the second delivery rendered from what its scan read before the
   * first.  The first rotation's new key is gone from the peer, although its ledger says it was delivered.
   */
  lemma LostDelivery(f: Fleet, c: Agent, minted: Key, a: Agent, other: Key, p: Agent)
    requires Inv(f) && CanStartIdentity(f, c, minted) && IsReferencing(f, c, p) && c != a
    requires !Takes(f, Last(f, p), c, minted)
    ensures Known(f, p) && NextSuffix(f, A2aIdentity, c).Some?
    ensures var g := StartIdentity(f, c, minted);
            var h := Store(g, map[p := WithDoc(Last(f, p), OverlapDoc(f, p, a, other, CurrentIdentity(f, a)))]);
            Known(g, p) && Known(h, p) && AcceptsBundle(Last(g, p), c, minted) && !Takes(h, Last(h, p), c, minted) && LedgerPeer(h, c, p)
  {
    hide Inv, StartIdentity, CanStartIdentity, IsReferencing, OverlapDoc;
    CanSuffix(f, c, minted);
    var g := StartIdentity(f, c, minted);
    ReferencingDoc(f, c, p);
    var b := WithDoc(Last(f, p), OverlapDoc(f, p, a, other, CurrentIdentity(f, a)));
    StartFacts(f, c, minted);
    StartedPeer(f, c, minted, p);
    StartLeavesTarget(f, c, minted);
    StoreIsOneMore(g, Store(g, map[p := b]), map[p := b], p);
    StoreFields(g, map[p := b]);
    OverlapEntries(f, p, a, other, CurrentIdentity(f, a));
    NotDelivered(f, p, c, a, other, minted);
  }

  lemma ReferencingDoc(f: Fleet, a: Agent, p: Agent)
    requires IsReferencing(f, a, p)
    ensures Known(f, p) && Last(f, p).a2a.Some?
  {
  }

  lemma NotDelivered(f: Fleet, p: Agent, c: Agent, a: Agent, other: Key, k: Key)
    requires Known(f, p) && Last(f, p).a2a.Some? && c != a && !Takes(f, Last(f, p), c, k)
    ensures !Takes(f, WithDoc(Last(f, p), OverlapDoc(f, p, a, other, CurrentIdentity(f, a))), c, k)
  {
  }

  // -------------------------------------------------------------------- a second start

  /** A row start that does not see an open row of its agent: the invariant holds after it exactly if there was none. */
  lemma DoubleStart(f: Fleet, a: Agent, minted: Key)
    requires Inv(f) && Known(f, a) && CurrentIdentity(f, a) != "" && NextSuffix(f, A2aIdentity, a).Some? && Fresh(f, minted)
    ensures Inv(StartIdentity(f, a, minted)) <==> OpenRow(f.rows, a, A2aIdentity).None?
  {
    hide Inv, NextSuffix, OverlapJobs, Store;
    if OpenRow(f.rows, a, A2aIdentity).None? {
      StartIdentityKeeps(f, a, minted);
    } else {
      var g := StartIdentity(f, a, minted);
      var i, j := OpenRow(f.rows, a, A2aIdentity).value, |f.rows|;
      assert g.rows[i] == f.rows[i] && g.rows[j] == IdentityRow(f, a, minted);
      if Inv(g) { RegistryDiscipline(g, i, j); }
    }
  }
}
