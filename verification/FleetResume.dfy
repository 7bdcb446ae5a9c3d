/** Revocation and cleanup may stop anywhere and start again; and what the run hypotheses are for. */
module FleetResume {
  import opened A2aDoc
  import opened Fleet
  import opened FleetInvariant
  import opened FleetSteps
  import opened FleetSafety
  import opened FleetTheorems
  import opened FleetSweep

  // --------------------------------------------------------------------- resumability

  /** Peer p's history after the cleanup reached it, or not. */
  lemma CleanedHistory(f: Fleet, i: nat, reach: set<Agent>, p: Agent)
    requires i < |f.rows| && p in f.history
    ensures var g := CleanupLost(f, i, reach);
            g.rows == f.rows && g.devices == f.devices && g.live == Revoke(f, i).live &&
            g.history.Keys == f.history.Keys &&
            g.history[p] == (if p in reach && p in LedgerNames(f.rows[i].peers) && NeedsCleanup(f, p, f.rows[i].agent)
                             then f.history[p] + [CleanedBundle(f, p, f.rows[i].agent)] else f.history[p])
  {
    RevokeSameBundles(f, i);
    StoreFields(Revoke(f, i), Restrict(CleanupJobs(f, f.rows[i].peers, f.rows[i].agent), reach));
  }

  /** A cleaned peer needs no cleaning, an unreached one exactly the cleaning it needed before. */
  lemma CleanOnce(f: Fleet, i: nat, reach: set<Agent>, p: Agent)
    requires i < |f.rows| && p in f.history
    ensures var g := CleanupLost(f, i, reach); var a := f.rows[i].agent;
            if p in reach && p in LedgerNames(f.rows[i].peers) then !NeedsCleanup(g, p, a)
            else NeedsCleanup(g, p, a) == NeedsCleanup(f, p, a) && (NeedsCleanup(f, p, a) ==> CleanedBundle(g, p, a) == CleanedBundle(f, p, a))
  {
    hide CleanupLost, CleanedBundle;
    CleanedHistory(f, i, reach, p);
    var a := f.rows[i].agent;
    var g := CleanupLost(f, i, reach);
    if NeedsCleanup(f, p, a) {
      CleanedEntries(f, p, a);
      if !(p in reach && p in LedgerNames(f.rows[i].peers)) { SameLastCleaned(f, g, p, a); }
    }
  }

  lemma SameLastCleaned(f: Fleet, g: Fleet, p: Agent, a: Agent)
    requires Known(f, p) && Known(g, p) && Last(f, p) == Last(g, p)
    ensures CleanedBundle(f, p, a) == CleanedBundle(g, p, a)
  {
  }

  lemma RevokeTwice(f: Fleet, g: Fleet, i: nat)
    requires i < |f.rows| && g.rows == f.rows && g.live == Revoke(f, i).live
    ensures Revoke(g, i).live == g.live
  {
    DeleteTwice(f.live, f.rows[i].oldToken);
  }

  lemma DeleteTwice(live: map<Alias, Key>, k: Key)
    ensures DeleteKey(DeleteKey(live, k), k) == DeleteKey(live, k)
  {
  }

  /** Two interrupted cleanups in a row are one that reached both their peers. */
  lemma CleanupsMerge(f: Fleet, i: nat, r1: set<Agent>, r2: set<Agent>)
    requires i < |f.rows|
    ensures CleanupLost(CleanupLost(f, i, r1), i, r2) == CleanupLost(f, i, r1 + r2)
  {
    hide CleanupLost, Revoke, CleanedBundle, NeedsCleanup, Known;
    var g := CleanupLost(f, i, r1);
    LostFields(f, i, r1);
    var h := CleanupLost(g, i, r2);
    var k := CleanupLost(f, i, r1 + r2);
    LostFields(g, i, r2);
    LostFields(f, i, r1 + r2);
    RevokeTwice(f, g, i);
    forall p | p in f.history ensures h.history[p] == k.history[p] {
      CleanedHistory(f, i, r1, p);
      CleanedHistory(f, i, r1 + r2, p);
      CleanedHistory(g, i, r2, p);
      CleanOnce(f, i, r1, p);
    }
    assert h.history == k.history;
  }

  lemma LostFields(f: Fleet, i: nat, reach: set<Agent>)
    requires i < |f.rows|
    ensures var g := CleanupLost(f, i, reach);
            g == f.(live := Revoke(f, i).live, history := g.history) && g.history.Keys == f.history.Keys
  {
    RevokeSameBundles(f, i);
    StoreFields(Revoke(f, i), Restrict(CleanupJobs(f, f.rows[i].peers, f.rows[i].agent), reach));
  }

  /** Completing is an uninterrupted cleanup followed by closing the row. */
  lemma CompleteIsFullCleanup(f: Fleet, i: nat)
    requires i < |f.rows| && f.rows[i].kind.A2aIdentity?
    ensures Complete(f, i) ==
            SetRow(CleanupLost(f, i, LedgerNames(f.rows[i].peers)), i,
                   f.rows[i].(status := Completed, oldToken := "", newToken := "", failed := false))
  {
    RevokeSameBundles(f, i);
    var jobs := CleanupJobs(f, f.rows[i].peers, f.rows[i].agent);
    assert Restrict(jobs, LedgerNames(f.rows[i].peers)) == jobs;
  }

  /**
   * Resumable: however far a sweep got after the gateway delete, with or without its failure noted on
   * the row, the next uninterrupted sweep ends in the very state one uninterrupted sweep would have.
   */
  lemma SweepResumes(f: Fleet, i: nat, reach: set<Agent>)
    requires Inv(f) && CanRevoke(f, i) && f.rows[i].kind.A2aIdentity?
    ensures CanRevoke(CleanupLost(f, i, reach), i) && Complete(CleanupLost(f, i, reach), i) == Complete(f, i)
    ensures Complete(NoteFailure(CleanupLost(f, i, reach), i), i) == Complete(f, i)
  {
    hide Inv, CleanupLost, Revoke, CleanupJobs, CleanedBundle;
    var names := LedgerNames(f.rows[i].peers);
    var g := CleanupLost(f, i, reach);
    LostFields(f, i, reach);
    CleanupsMerge(f, i, reach, names);
    OnlyLedgerCleaned(f, i, reach + names, names);
    CompleteIsFullCleanup(f, i);
    CompleteIsFullCleanup(g, i);
    NotedCompletes(g, i);
  }

  lemma OnlyLedgerCleaned(f: Fleet, i: nat, wide: set<Agent>, names: set<Agent>)
    requires i < |f.rows| && names == LedgerNames(f.rows[i].peers) && names <= wide
    ensures CleanupLost(f, i, wide) == CleanupLost(f, i, names)
  {
    var jobs := CleanupJobs(f, f.rows[i].peers, f.rows[i].agent);
    assert Restrict(jobs, wide) == Restrict(jobs, names);
  }

  lemma NotedCompletes(f: Fleet, i: nat)
    requires i < |f.rows| && f.rows[i].kind.A2aIdentity?
    ensures Complete(NoteFailure(f, i), i) == Complete(f, i)
  {
    hide CleanupJobs;
    var n := NoteFailure(f, i);
    var r := f.rows[i];
    RevokeSameBundles(f, i);
    RevokeSameBundles(n, i);
    SameHistoryJobs(f, n, r.peers, r.agent);
    assert Revoke(n, i).live == Revoke(f, i).live;
    var jobs := CleanupJobs(f, r.peers, r.agent);
    assert Store(Revoke(n, i), jobs).history == Store(Revoke(f, i), jobs).history;
    assert n.rows[i := r] == f.rows;
    var closed := r.(status := Completed, oldToken := "", newToken := "", failed := false);
    assert n.rows[i := closed] == f.rows[i := closed];
  }

  /** Over any number of interruptions each ledger peer's version is bumped at most once by the cleanup. */
  lemma CleanupBumpsOnce(f: Fleet, i: nat, p: Agent)
    requires Inv(f) && CanRevoke(f, i) && f.rows[i].kind.A2aIdentity? && p in f.history
    ensures Versions(Complete(f, i), p) ==
            Versions(f, p) + (if p in LedgerNames(f.rows[i].peers) && NeedsCleanup(f, p, f.rows[i].agent) then 1 else 0)
    ensures p in LedgerNames(f.rows[i].peers) ==> !NeedsCleanup(Complete(f, i), p, f.rows[i].agent)
  {
    hide Inv, CleanupLost, Complete, CleanedBundle;
    CompleteIsFullCleanup(f, i);
    CleanedHistory(f, i, LedgerNames(f.rows[i].peers), p);
    CleanOnce(f, i, LedgerNames(f.rows[i].peers), p);
  }

  // -------------------------------------------------------- why the run hypotheses are there

  /**
   * Enroll probes only the base alias.  After a completed rotation that alias is gone, so a re-enroll
   * of the rotated agent mints, and the moment the target applies it, a peer that has not is lost.
   */
  lemma ReEnrollBreaks(f: Fleet, a: Agent, p: Agent, url: string, minted: Key, reach: set<Agent>)
    requires Inv(f) && LedgerPeer(f, a, p) && CanEnroll(f, a, minted) && EnrollMints(f, a) && a in reach
    requires OnDisk(f, p).Some? && !Takes(f, OnDisk(f, p).value, a, minted)
    ensures var g := Enroll(f, a, url, minted, reach);
            a in g.devices && var h := SetDevice(g, a, g.devices[a].(a2aAt := Versions(g, a))); !Delivered(h, a, p)
  {
    hide Inv, Enroll, Takes;
    var i, e := NewestFacts(f, a, p);
    EnrolledBundles(f, a, url, minted, reach, p);
    var g := Enroll(f, a, url, minted, reach);
    SameTakes(f, SetDevice(g, a, g.devices[a].(a2aAt := Versions(g, a))), OnDisk(f, p).value, a, minted);
  }

  /** What a minting enroll changes for the target and for what a peer's disk holds. */
  lemma EnrolledBundles(f: Fleet, a: Agent, url: string, minted: Key, reach: set<Agent>, p: Agent)
    requires Known(f, a) && EnrollMints(f, a) && a in reach
    ensures var g := Enroll(f, a, url, minted, reach);
            g.devices == f.devices && g.strict == f.strict && Known(g, a) && IdentityOf(Last(g, a)) == minted &&
            Versions(g, p) >= Versions(f, p) && forall x :: 1 <= x <= Versions(f, p) ==> At(g, p, x) == At(f, p, x)
  {
    hide EnrolledDoc, PeerDoc, MeshPeers;
    var m := Mint(f, MeshBase(a), minted);
    var jobs := Restrict(EnrollJobs(f, a, url, minted), reach);
    StoreVersions(m, jobs);
    EnrolledEntries(f, a, minted, url, a);
    assert Last(Enroll(f, a, url, minted, reach), a) == jobs[a];
  }

  /** forceRevoke flips without confirmations: a peer whose disk does not list the new key is lost. */
  lemma ForcedFlipBreaks(f: Fleet, i: nat, p: Agent)
    requires Inv(f) && IsOpen(f, i) && f.rows[i].kind.A2aIdentity? && f.rows[i].status.Delivering? && p != f.rows[i].agent
    requires OnDisk(f, p).Some? && !Takes(f, OnDisk(f, p).value, f.rows[i].agent, f.rows[i].newToken)
    ensures Known(f, f.rows[i].agent) && f.rows[i].agent in f.devices
    ensures var a := f.rows[i].agent; var g := FlipBundle(f, i);
            var h := SetDevice(g, a, g.devices[a].(a2aAt := Versions(g, a))); !Delivered(h, a, p)
  {
    hide Inv, Render, Takes;
    InvRow(f, i);
    var a := f.rows[i].agent;
    InvDevice(f, a);
    FlipIdentity(Last(f, a), f.rows[i].newToken);
    var jobs := map[a := WithDoc(Last(f, a), Render(Last(f, a).a2a, NO_UPDATES.(identityKey := Some(f.rows[i].newToken))))];
    StoreVersions(f, jobs);
    var g := FlipBundle(f, i);
    assert Last(g, a) == jobs[a];
    assert At(g, p, f.devices[p].a2aAt) == At(f, p, f.devices[p].a2aAt);
    SameTakes(f, SetDevice(g, a, g.devices[a].(a2aAt := Versions(g, a))), OnDisk(f, p).value, a, f.rows[i].newToken);
  }

  /**
   * And past its flip a forced row is revoked without the target's confirmation: what the target
   * presents is still live afterwards exactly if it is not the old key.
   */
  lemma ForcedRevokeExactly(f: Fleet, i: nat)
    requires Inv(f) && i < |f.rows| && f.rows[i].kind.A2aIdentity? && f.rows[i].status.AwaitingTarget?
    requires OnDisk(f, f.rows[i].agent).Some? && IdentityOf(OnDisk(f, f.rows[i].agent).value) != ""
    ensures var g := SweepRow(f, i, true, Deleted); var a := f.rows[i].agent;
            OnDisk(g, a) == OnDisk(f, a) &&
            (KeyIsLive(g, IdentityOf(OnDisk(g, a).value)) <==> IdentityOf(OnDisk(f, a).value) != f.rows[i].oldToken)
  {
    hide Inv, Complete;
    var a := f.rows[i].agent;
    var c := Confirm(f, i);
    var k := IdentityOf(OnDisk(f, a).value);
    InvRow(f, i);
    ReachesAllAfterConfirm(f, i);
    assert SweepRow(f, i, true, Deleted) == Complete(c, i);
    CompletedBundles(c, i, a);
    PresentedKeyLive(f, a, f.devices[a].a2aAt);
    Deletes(f.live, f.rows[i].oldToken, k);
  }

  lemma CompletedBundles(f: Fleet, i: nat, d: Agent)
    requires i < |f.rows| && f.rows[i].kind.A2aIdentity?
    ensures var g := Complete(f, i);
            g.devices == f.devices && g.live == DeleteKey(f.live, f.rows[i].oldToken) &&
            Versions(f, d) <= Versions(g, d) && forall x :: 1 <= x <= Versions(f, d) ==> At(g, d, x) == At(f, d, x)
  {
    hide CleanupJobs;
    var jobs := CleanupJobs(f, f.rows[i].peers, f.rows[i].agent);
    RevokeSameBundles(f, i);
    StoreVersions(Revoke(f, i), jobs);
    StoreFields(Revoke(f, i), jobs);
  }

  lemma Deletes(live: map<Alias, Key>, gone: Key, k: Key)
    ensures k in DeleteKey(live, gone).Values <==> k in live.Values && k != gone
  {
    if k in live.Values && k != gone {
      var al :| al in live && live[al] == k;
      assert DeleteKey(live, gone)[al] == k;
    }
  }
}
