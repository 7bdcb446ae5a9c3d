/** advanceRotations as one function of the state and the gateway's answers, and the run it amounts to. */
module FleetSweep {
  import opened A2aDoc
  import opened Fleet
  import opened FleetInvariant
  import opened FleetSteps

  /** How the gateway answers the revocation of one row: no creator key, a call that throws, a refusal, 200 or 404. */
  datatype Reply = Unconfigured | Unreachable | Refused | Deleted

  /** The ledger entries cleanup gets through before it meets a device without a bundle. */
  function Reached(f: Fleet, peers: seq<LedgerEntry>): (r: seq<LedgerEntry>)
    ensures r <= peers && forall e :: e in r ==> Known(f, e.agent)
    ensures |r| < |peers| ==> !Known(f, peers[|r|].agent)
  {
    if peers == [] || !Known(f, peers[0].agent) then [] else [peers[0]] + Reached(f, peers[1..])
  }

  /** revokeMeshKey or revokeModelKey, then cleanup and close; any failure is noted and the row stays. */
  function RevokeStage(f: Fleet, i: nat, reply: Reply): Fleet
    requires i < |f.rows|
  {
    var r := f.rows[i];
    if reply.Unconfigured? || reply.Unreachable? then NoteFailure(f, i)
    else if r.kind.ModelKey? then
      if r.oldAlias in f.live && reply.Refused? then NoteFailure(f, i) else Complete(f, i)
    else if r.oldToken == "" || reply.Refused? then NoteFailure(f, i)
    else if Reached(f, r.peers) != r.peers then NoteFailure(CleanupLost(f, i, LedgerNames(Reached(f, r.peers))), i)
    else Complete(f, i)
  }

  /**
   * One row of the sweep.  The flip updates the stored status only, so a row that flips goes no further;
   * a confirmed row goes on to revocation in the same pass.  A forced sweep asks for no confirmation.
   */
  function SweepRow(f: Fleet, i: nat, forced: bool, reply: Reply): Fleet
    requires i < |f.rows|
  {
    var r := f.rows[i];
    if !r.Open() then f
    else if r.kind.A2aIdentity? && r.status.Delivering? then
      if !forced && !PeersConfirmed(f, i) then f
      else if HasDoc(f, r.agent) then Flip(f, i) else NoteFailure(f, i)
    else if r.status.AwaitingRevoke? then RevokeStage(f, i, reply)
    else if forced || TargetConfirmed(f, i) then RevokeStage(Confirm(f, i), i, reply)
    else f
  }

  lemma PieceRows(f: Fleet, i: nat, reach: set<Agent>)
    requires i < |f.rows|
    ensures CleanupLost(f, i, reach).rows == f.rows
    ensures |Complete(f, i).rows| == |f.rows| && Complete(f, i).rows == f.rows[i := Complete(f, i).rows[i]]
  {
    RevokeSameBundles(f, i);
    StoreRows(Revoke(f, i), Restrict(CleanupJobs(f, f.rows[i].peers, f.rows[i].agent), reach));
    StoreRows(Revoke(f, i), CleanupJobs(f, f.rows[i].peers, f.rows[i].agent));
  }

  lemma StoreRows(f: Fleet, jobs: map<Agent, Bundle>)
    ensures Store(f, jobs).rows == f.rows
  {
  }

  lemma RevokeStageRows(f: Fleet, i: nat, reply: Reply)
    requires i < |f.rows|
    ensures |RevokeStage(f, i, reply).rows| == |f.rows|
    ensures RevokeStage(f, i, reply).rows == f.rows[i := RevokeStage(f, i, reply).rows[i]]
  {
    hide Complete, CleanupLost, Revoke;
    PieceRows(f, i, {});
    PieceRows(f, i, LedgerNames(Reached(f, f.rows[i].peers)));
  }

  lemma SweepRowRows(f: Fleet, i: nat, forced: bool, reply: Reply)
    requires i < |f.rows|
    ensures |SweepRow(f, i, forced, reply).rows| == |f.rows|
    ensures SweepRow(f, i, forced, reply).rows == f.rows[i := SweepRow(f, i, forced, reply).rows[i]]
  {
    hide RevokeStage, FlipBundle;
    RevokeStageRows(f, i, reply);
    RevokeStageRows(Confirm(f, i), i, reply);
    if Known(f, f.rows[i].agent) { FlipRows(f, i); }
  }

  lemma FlipRows(f: Fleet, i: nat)
    requires i < |f.rows| && Known(f, f.rows[i].agent)
    ensures |Flip(f, i).rows| == |f.rows| && Flip(f, i).rows == f.rows[i := Flip(f, i).rows[i]] && Flip(f, i).rows[i].status == AwaitingTarget
  {
  }

  /** The console narrows a sweep to one row; forcing a row narrows it to that one as well. */
  predicate Selected(i: nat, only: Option<nat>, force: Option<nat>) {
    (force.None? || force.value == i) && (only.None? || only.value == i)
  }

  /** Every selected row from id i on, in id order. */
  function SweepFrom(f: Fleet, i: nat, only: Option<nat>, force: Option<nat>, replies: nat -> Reply): Fleet
    requires i <= |f.rows|
    decreases |f.rows| - i
  {
    if i == |f.rows| then f
    else
      SweepRowRows(f, i, force.Some?, replies(i));
      SweepFrom(if Selected(i, only, force) then SweepRow(f, i, force.Some?, replies(i)) else f, i + 1, only, force, replies)
  }

  function Sweep(f: Fleet, only: Option<nat>, force: Option<nat>, replies: nat -> Reply): Fleet {
    SweepFrom(f, 0, only, force, replies)
  }

  // ------------------------------------------------------------ which rows a sweep passes

  /** Where no row is selected the sweep changes nothing. */
  lemma {:induction false} SweepNothing(f: Fleet, k: nat, only: Option<nat>, force: Option<nat>, replies: nat -> Reply)
    requires k <= |f.rows| && forall j :: k <= j < |f.rows| ==> !Selected(j, only, force)
    ensures SweepFrom(f, k, only, force, replies) == f
    decreases |f.rows| - k
  {
    hide SweepRow;
    if k < |f.rows| {
      SweepRowRows(f, k, force.Some?, replies(k));
      SweepNothing(f, k + 1, only, force, replies);
    }
  }

  lemma {:induction false} SweepToOne(f: Fleet, k: nat, i: nat, only: Option<nat>, force: Option<nat>, replies: nat -> Reply)
    requires k <= i < |f.rows| && forall j: nat :: Selected(j, only, force) <==> j == i
    ensures SweepFrom(f, k, only, force, replies) == SweepRow(f, i, force.Some?, replies(i))
    decreases |f.rows| - k
  {
    hide SweepRow, Selected;
    SweepRowRows(f, k, force.Some?, replies(k));
    if k < i {
      SweepToOne(f, k + 1, i, only, force, replies);
    } else {
      SweepNothing(SweepRow(f, i, force.Some?, replies(i)), i + 1, only, force, replies);
    }
  }

  /**
   * A sweep narrowed to a row, or forcing a row, is that one row's pass and leaves every other row alone;
   * only the forced row skips the confirmations.  To name two different rows, a closed one, or one that is not
   * there makes the sweep do nothing at all.
   */
  lemma SweepOfOneRow(f: Fleet, i: nat, j: nat, replies: nat -> Reply)
    ensures i < |f.rows| ==> Sweep(f, Some(i), Some(i), replies) == SweepRow(f, i, true, replies(i))
    ensures i < |f.rows| ==> Sweep(f, None, Some(i), replies) == SweepRow(f, i, true, replies(i))
    ensures i < |f.rows| ==> Sweep(f, Some(i), None, replies) == SweepRow(f, i, false, replies(i))
    ensures i != j ==> Sweep(f, Some(i), Some(j), replies) == f
    ensures i >= |f.rows| || f.rows[i].status == Completed ==>
              Sweep(f, Some(i), None, replies) == f && Sweep(f, None, Some(i), replies) == f && Sweep(f, Some(i), Some(i), replies) == f
  {
    hide SweepRow, SweepFrom;
    if i < |f.rows| {
      SweepToOne(f, 0, i, Some(i), Some(i), replies);
      SweepToOne(f, 0, i, None, Some(i), replies);
      SweepToOne(f, 0, i, Some(i), None, replies);
      ClosedRowStays(f, i, replies(i));
    } else {
      SweepNothing(f, 0, Some(i), None, replies);
      SweepNothing(f, 0, None, Some(i), replies);
      SweepNothing(f, 0, Some(i), Some(i), replies);
    }
    if i != j { SweepNothing(f, 0, Some(i), Some(j), replies); }
  }

  lemma ClosedRowStays(f: Fleet, i: nat, reply: Reply)
    requires i < |f.rows|
    ensures f.rows[i].status == Completed ==> SweepRow(f, i, true, reply) == f && SweepRow(f, i, false, reply) == f
  {
  }

  /** The states a whole sweep goes through, row by row in id order from row k on, each row found as the rows before left it. */
  ghost predicate PassedInOrder(fs: seq<Fleet>, k: nat, replies: nat -> Reply) {
    forall n :: 0 <= n < |fs| - 1 ==> k + n < |fs[n].rows| && fs[n + 1] == SweepRow(fs[n], k + n, false, replies(k + n))
  }

  lemma {:induction false} SweepTrace(f: Fleet, k: nat, replies: nat -> Reply) returns (fs: seq<Fleet>)
    requires k <= |f.rows|
    ensures |fs| == |f.rows| - k + 1 && fs[0] == f && fs[|fs| - 1] == SweepFrom(f, k, None, None, replies) && PassedInOrder(fs, k, replies)
    decreases |f.rows| - k
  {
    hide SweepRow;
    fs := [f];
    if k < |f.rows| {
      SweepRowRows(f, k, false, replies(k));
      var g := SweepRow(f, k, false, replies(k));
      var gs := SweepTrace(g, k + 1, replies);
      fs := [f] + gs;
      forall n | 0 <= n < |fs| - 1 ensures k + n < |fs[n].rows| && fs[n + 1] == SweepRow(fs[n], k + n, false, replies(k + n)) {
        if n > 0 { assert fs[n] == gs[n - 1] && fs[n + 1] == gs[n] && k + n == k + 1 + (n - 1); }
      }
    }
  }

  /** A sweep with neither passes every row once, in id order, none of them forced. */
  lemma SweepOfAllRows(f: Fleet, replies: nat -> Reply) returns (fs: seq<Fleet>)
    ensures |fs| == |f.rows| + 1 && fs[0] == f && fs[|f.rows|] == Sweep(f, None, None, replies)
    ensures forall i :: 0 <= i < |f.rows| ==> |fs[i].rows| == |f.rows| && fs[i + 1] == SweepRow(fs[i], i, false, replies(i))
  {
    hide SweepRow, SweepFrom;
    fs := SweepTrace(f, 0, replies);
    SameRowCount(f, fs, replies);
  }

  lemma {:induction false} SameRowCount(f: Fleet, fs: seq<Fleet>, replies: nat -> Reply)
    requires fs != [] && fs[0] == f && PassedInOrder(fs, 0, replies)
    ensures forall n :: 0 <= n < |fs| ==> |fs[n].rows| == |f.rows|
  {
    hide SweepRow;
    var n := |fs| - 1;
    if n > 0 {
      SameRowCount(f, fs[..n], replies);
      assert fs[n - 1] == fs[..n][n - 1];
      SweepRowRows(fs[n - 1], n - 1, false, replies(n - 1));
    }
  }

  // ------------------------------------------------------------ what one row's pass does

  /** The sweep takes this row to revocation. */
  predicate DueForRevocation(f: Fleet, i: nat, forced: bool)
    requires i < |f.rows|
  {
    var r := f.rows[i];
    r.status.AwaitingRevoke? || ((forced || TargetConfirmed(f, i)) && (r.status.AwaitingTarget? || (r.kind.ModelKey? && r.status.Delivering?)))
  }

  /** The gateway did it, or there was nothing left to do. */
  predicate Obeyed(f: Fleet, i: nat, reply: Reply)
    requires i < |f.rows|
  {
    reply.Deleted? || (reply.Refused? && f.rows[i].kind.ModelKey? && f.rows[i].oldAlias !in f.live)
  }

  lemma StageStatus(f: Fleet, i: nat, reply: Reply)
    requires i < |f.rows| && Reached(f, f.rows[i].peers) == f.rows[i].peers && (f.rows[i].kind.A2aIdentity? ==> f.rows[i].oldToken != "")
    ensures |RevokeStage(f, i, reply).rows| == |f.rows|
    ensures RevokeStage(f, i, reply).rows[i].status == if Obeyed(f, i, reply) then Completed else f.rows[i].status
  {
    hide CleanupJobs, Store, Revoke;
    PieceRows(f, i, {});
    CompleteStatus(f, i);
  }

  lemma CompleteStatus(f: Fleet, i: nat)
    requires i < |f.rows|
    ensures i < |Complete(f, i).rows| && Complete(f, i).rows[i].status == Completed
  {
    hide CleanupJobs, Store;
    RevokeSameBundles(f, i);
    StoreRows(Revoke(f, i), CleanupJobs(f, f.rows[i].peers, f.rows[i].agent));
    StoreRows(Revoke(f, i), CleanupJobs(Revoke(f, i), f.rows[i].peers, f.rows[i].agent));
  }

  /** Exactly when a pass moves a row, and how far. */
  lemma SweepRowStatus(f: Fleet, i: nat, forced: bool, reply: Reply)
    requires Inv(f) && i < |f.rows|
    ensures |SweepRow(f, i, forced, reply).rows| == |f.rows|
    ensures var r := f.rows[i]; var s := SweepRow(f, i, forced, reply).rows[i].status;
            (s.Completed? <==> r.status.Completed? || (DueForRevocation(f, i, forced) && Obeyed(f, i, reply))) &&
            (s.AwaitingRevoke? <==> DueForRevocation(f, i, forced) && !Obeyed(f, i, reply)) &&
            (s.AwaitingTarget? <==> (r.status.Delivering? && r.kind.A2aIdentity? && (forced || PeersConfirmed(f, i))) ||
                                    (r.status.AwaitingTarget? && !DueForRevocation(f, i, forced)))
  {
    hide Inv, RevokeStage, FlipBundle;
    SweepRowRows(f, i, forced, reply);
    InvRow(f, i);
    var r := f.rows[i];
    if r.kind.A2aIdentity? && r.Open() { FlipPossible(f, i); }
    if r.status.AwaitingRevoke? {
      ReachesAll(f, i);
      StageStatus(f, i, reply);
    } else if DueForRevocation(f, i, forced) {
      ReachesAllAfterConfirm(f, i);
      StageStatus(Confirm(f, i), i, reply);
    } else if r.status.Delivering? && r.kind.A2aIdentity? && (forced || PeersConfirmed(f, i)) {
      FlipRows(f, i);
    }
  }

  lemma FlipPossible(f: Fleet, i: nat)
    requires Inv(f) && IsOpen(f, i) && f.rows[i].kind.A2aIdentity?
    ensures Known(f, f.rows[i].agent) && Last(f, f.rows[i].agent).a2a.Some? && f.rows[i].oldToken != ""
  {
    hide Inv;
    InvRow(f, i);
    InvDevice(f, f.rows[i].agent);
    assert TargetOk(f, i);
  }

  lemma {:induction false} ReachedAll(f: Fleet, peers: seq<LedgerEntry>)
    requires forall e :: e in peers ==> Known(f, e.agent)
    ensures Reached(f, peers) == peers
  {
    if peers != [] {
      assert peers[0] in peers;
      ReachedAll(f, peers[1..]);
    }
  }

  lemma ReachesAll(f: Fleet, i: nat)
    requires Inv(f) && i < |f.rows|
    ensures Reached(f, f.rows[i].peers) == f.rows[i].peers
  {
    hide Inv;
    InvRow(f, i);
    forall e | e in f.rows[i].peers ensures Known(f, e.agent) { InvDevice(f, e.agent); }
    ReachedAll(f, f.rows[i].peers);
  }

  lemma ReachesAllAfterConfirm(f: Fleet, i: nat)
    requires Inv(f) && i < |f.rows|
    ensures Reached(Confirm(f, i), f.rows[i].peers) == f.rows[i].peers
  {
    hide Inv;
    InvRow(f, i);
    forall e | e in f.rows[i].peers ensures Known(Confirm(f, i), e.agent) { InvDevice(f, e.agent); }
    ReachedAll(Confirm(f, i), f.rows[i].peers);
  }

  // --------------------------------------------------------------------- sweeps are runs

  lemma RevokeStageIsRun(f: Fleet, i: nat, reply: Reply) returns (xs: seq<Action>)
    requires Inv(f) && CanRevoke(f, i)
    ensures IsRun(f, xs) && After(f, xs) == RevokeStage(f, i, reply)
  {
    hide Inv, Complete, CleanupLost;
    ReachesAll(f, i);
    var r := f.rows[i];
    var done := reply.Deleted? || (reply.Refused? && r.kind.ModelKey? && r.oldAlias !in f.live);
    xs := if done then [AComplete(i)] else [ANoteFailure(i)];
    assert xs[1..] == [];
    assert IsRun(Do(f, xs[0]), xs[1..]);
  }

  lemma SweepRowIsRun(f: Fleet, i: nat, reply: Reply) returns (xs: seq<Action>)
    requires Inv(f) && i < |f.rows|
    ensures IsRun(f, xs) && After(f, xs) == SweepRow(f, i, false, reply)
  {
    hide Inv, RevokeStage, Do, IsRun, After;
    InvRow(f, i);
    var r := f.rows[i];
    NoSteps(f);
    xs := [];
    if r.Open() {
      if r.kind.A2aIdentity? { FlipPossible(f, i); }
      if r.kind.A2aIdentity? && r.status.Delivering? {
        if PeersConfirmed(f, i) {
          xs := [AFlip(i)];
          OneStep(f, AFlip(i));
          DoFlip(f, i);
        }
      } else if r.status.AwaitingRevoke? {
        xs := RevokeStageIsRun(f, i, reply);
      } else if TargetConfirmed(f, i) {
        xs := ConfirmAndRevoke(f, i, reply);
      }
    }
  }

  lemma NoSteps(f: Fleet)
    ensures IsRun(f, []) && After(f, []) == f
  {
  }

  lemma DoFlip(f: Fleet, i: nat)
    requires Enabled(f, AFlip(i))
    ensures Do(f, AFlip(i)) == Flip(f, i)
  {
  }

  lemma ConfirmAndRevoke(f: Fleet, i: nat, reply: Reply) returns (xs: seq<Action>)
    requires Inv(f) && CanConfirm(f, i)
    requires f.rows[i].kind.A2aIdentity? ==> f.rows[i].oldToken != ""
    ensures IsRun(f, xs) && After(f, xs) == RevokeStage(Confirm(f, i), i, reply)
  {
    hide Inv, RevokeStage;
    CanConfirmIsConfirmable(f, i);
    ConfirmKeeps(f, i);
    var ys := RevokeStageIsRun(Confirm(f, i), i, reply);
    OneStep(f, AConfirm(i));
    RunConcat(f, [AConfirm(i)], ys);
    xs := [AConfirm(i)] + ys;
  }

  /** A whole sweep that forces nothing is a run of the fleet's actions, so everything proved of runs holds across sweeps. */
  lemma {:induction false} SweepIsRun(f: Fleet, i: nat, only: Option<nat>, replies: nat -> Reply) returns (xs: seq<Action>)
    requires Inv(f) && i <= |f.rows|
    ensures IsRun(f, xs) && After(f, xs) == SweepFrom(f, i, only, None, replies)
    decreases |f.rows| - i
  {
    hide Inv, SweepRow, IsRun, After;
    if i == |f.rows| {
      NoSteps(f);
      xs := [];
    } else {
      SweepRowRows(f, i, false, replies(i));
      var ys: seq<Action> := [];
      var g := f;
      NoSteps(f);
      if Selected(i, only, None) {
        ys := SweepRowIsRun(f, i, replies(i));
        g := SweepRow(f, i, false, replies(i));
        RunKeeps(f, ys);
      }
      var zs := SweepIsRun(g, i + 1, only, replies);
      RunConcat(f, ys, zs);
      xs := ys + zs;
    }
  }
}
