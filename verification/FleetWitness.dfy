/** Two short runs from the empty fleet: one leaves a ledger peer unserved and loses a send, one serves it. */
module FleetWitness {
  import opened A2aDoc
  import opened Fleet
  import opened FleetInvariant
  import opened FleetSteps
  import opened FleetSafety
  import opened FleetTheorems

  /** A new agent with a hand-minted identity key, and a new device that trusts it and holds that key. */
  function Lone(key: Key): Bundle { Bundle(Some(EMPTY.(identityKey := key)), "") }

  function Trusting(a: Agent, key: Key): Bundle { Bundle(Some(EMPTY.(trusted := [a], tokens := map[a := key])), "") }

  /** The short run to an unserved ledger peer: two new devices, neither of which has applied anything, and a start. */
  function UnservedRun(a: Agent, p: Agent, key: Key, minted: Key): seq<Action> {
    [ACreate(a, Lone(key), true)] + [ACreate(p, Trusting(a, key), true)] + [AStartIdentity(a, minted)]
  }

  lemma UnservedFromBirth(strict: bool, a: Agent, p: Agent, key: Key, minted: Key)
    requires a != p && key != minted && key != "" && minted != ""
    ensures IsRun(Birth(strict), UnservedRun(a, p, key, minted))
    ensures var f := After(Birth(strict), UnservedRun(a, p, key, minted));
            Inv(f) && LedgerPeer(f, a, p) && !Served(f, a, p) && p in f.devices && f.devices[p].a2aAt == 0
  {
    hide IsRun, After, Inv;
    var f0 := Birth(strict);
    var f1 := Do(f0, ACreate(a, Lone(key), true));
    var f2 := Do(f1, ACreate(p, Trusting(a, key), true));
    assert MeshRotation(a, 1) !in f2.live;
    assert NextSuffix(f2, A2aIdentity, a) == Some(1) by { FirstSuffix(f2, A2aIdentity, a); }
    assert Enabled(f2, AStartIdentity(a, minted));
    var f3 := Do(f2, AStartIdentity(a, minted));
    OneStep(f0, ACreate(a, Lone(key), true));
    OneStep(f1, ACreate(p, Trusting(a, key), true));
    OneStep(f2, AStartIdentity(a, minted));
    RunConcat(f0, [ACreate(a, Lone(key), true)], [ACreate(p, Trusting(a, key), true)]);
    RunConcat(f0, [ACreate(a, Lone(key), true)] + [ACreate(p, Trusting(a, key), true)], [AStartIdentity(a, minted)]);
    BirthInv(strict);
    RunKeeps(f0, UnservedRun(a, p, key, minted));
    RunKeeps(f0, [ACreate(a, Lone(key), true)] + [ACreate(p, Trusting(a, key), true)]);
    StartFacts(f2, a, minted);
    assert IsReferencing(f2, a, p);
    assert f3.devices[p].a2aAt == 0;
  }

  lemma FirstSuffix(f: Fleet, kind: Kind, a: Agent)
    requires f.rows == [] && RotationAlias(kind, a, 1) !in f.live
    ensures NextSuffix(f, kind, a) == Some(1)
  {
  }

  /** And to a served one: the same two devices apply their bundles before the start. */
  function ServedRun(a: Agent, p: Agent, key: Key, minted: Key): seq<Action> {
    [ACreate(a, Lone(key), true)] + [ACreate(p, Trusting(a, key), true)] + [AFetch(a)] + [AWriteA2a(a)] + [AFetch(p)] + [AWriteA2a(p)] +
    [AStartIdentity(a, minted)]
  }

  /** The two new devices, with these volumes. */
  function Pair(strict: bool, a: Agent, p: Agent, key: Key, v: Device, w: Device): Fleet {
    Fleet([a, p], {a, p}, map[a := [Lone(key)], p := [Trusting(a, key)]], [], map[], map[HandMesh(a) := key], map[key := HandMesh(a)],
          map[a := v, p := w], strict)
  }

  lemma PairIsBorn(strict: bool, a: Agent, p: Agent, key: Key)
    requires a != p && key != ""
    ensures IsRun(Birth(strict), [ACreate(a, Lone(key), true)] + [ACreate(p, Trusting(a, key), true)])
    ensures var blank := Device(0, 0, 0, 0, 0);
            After(Birth(strict), [ACreate(a, Lone(key), true)] + [ACreate(p, Trusting(a, key), true)]) == Pair(strict, a, p, key, blank, blank)
  {
    hide IsRun, After;
    var f0 := Birth(strict);
    OneStep(f0, ACreate(a, Lone(key), true));
    OneMoreStep(f0, [ACreate(a, Lone(key), true)], ACreate(p, Trusting(a, key), true));
    var f := Do(Do(f0, ACreate(a, Lone(key), true)), ACreate(p, Trusting(a, key), true));
    assert f.order == [a, p] && f.active == {a, p} && f.history == map[a := [Lone(key)], p := [Trusting(a, key)]];
    assert f.devices == map[a := Device(0, 0, 0, 0, 0), p := Device(0, 0, 0, 0, 0)];
  }

  /** A device with nothing in hand fetches the latest bundle and writes its a2a.json. */
  lemma DeviceApplies(f: Fleet, d: Agent)
    requires d in f.devices && Known(f, d) && f.devices[d].fetched == 0
    ensures var n, v := Versions(f, d), f.devices[d]; var g := SetDevice(f, d, v.(fetched := n));
            Enabled(f, AFetch(d)) && Do(f, AFetch(d)) == g &&
            Enabled(g, AWriteA2a(d)) && Do(g, AWriteA2a(d)) == SetDevice(f, d, v.(fetched := n, a2aAt := n))
  {
    var n, v := Versions(f, d), f.devices[d];
    assert f.devices[d := v.(fetched := n)][d := v.(fetched := n, a2aAt := n)] == f.devices[d := v.(fetched := n, a2aAt := n)];
  }

  lemma PairSet(strict: bool, a: Agent, p: Agent, key: Key, v: Device, w: Device, u: Device)
    requires a != p
    ensures var f := Pair(strict, a, p, key, v, w);
            Known(f, a) && Known(f, p) && Versions(f, a) == 1 && Versions(f, p) == 1 &&
            SetDevice(f, a, u) == Pair(strict, a, p, key, u, w) && SetDevice(f, p, u) == Pair(strict, a, p, key, v, u)
  {
    assert map[a := v, p := w][a := u] == map[a := u, p := w];
    assert map[a := v, p := w][p := u] == map[a := v, p := u];
  }

  lemma ServedFromBirth(strict: bool, a: Agent, p: Agent, key: Key, minted: Key)
    requires a != p && key != minted && key != "" && minted != ""
    ensures IsRun(Birth(strict), ServedRun(a, p, key, minted))
    ensures Served(After(Birth(strict), ServedRun(a, p, key, minted)), a, p)
  {
    hide IsRun, After, Inv, Served, StartIdentity, Do, Enabled;
    var f0, blank, applied := Birth(strict), Device(0, 0, 0, 0, 0), Device(1, 0, 0, 0, 1);
    var xs := [ACreate(a, Lone(key), true)] + [ACreate(p, Trusting(a, key), true)];
    PairIsBorn(strict, a, p, key);
    PairSet(strict, a, p, key, blank, blank, applied);
    DeviceApplies(Pair(strict, a, p, key, blank, blank), a);
    OneMoreStep(f0, xs, AFetch(a));
    OneMoreStep(f0, xs + [AFetch(a)], AWriteA2a(a));
    var ys := xs + [AFetch(a)] + [AWriteA2a(a)];
    PairSet(strict, a, p, key, applied, blank, applied);
    DeviceApplies(Pair(strict, a, p, key, applied, blank), p);
    OneMoreStep(f0, ys, AFetch(p));
    OneMoreStep(f0, ys + [AFetch(p)], AWriteA2a(p));
    var zs := ys + [AFetch(p)] + [AWriteA2a(p)];
    BirthInv(strict);
    RunKeeps(f0, zs);
    PairStarts(strict, a, p, key, minted);
    OneMoreStep(f0, zs, AStartIdentity(a, minted));
    StartServes(Pair(strict, a, p, key, applied, applied), a, minted, p);
  }

  lemma PairStarts(strict: bool, a: Agent, p: Agent, key: Key, minted: Key)
    requires a != p && key != minted && key != "" && minted != ""
    ensures var v := Device(1, 0, 0, 0, 1); var f := Pair(strict, a, p, key, v, v);
            CanStartIdentity(f, a, minted) && Enabled(f, AStartIdentity(a, minted)) && Do(f, AStartIdentity(a, minted)) == StartIdentity(f, a, minted) &&
            IsReferencing(f, a, p) && HeldFit(f, a, p) && KeySettled(f, a, p)
  {
    hide StartIdentity;
    var v := Device(1, 0, 0, 0, 1);
    FirstSuffix(Pair(strict, a, p, key, v, v), A2aIdentity, a);
  }

  /** So a run from the empty fleet does lose a send of a rotation. */
  lemma SomeRunFails(strict: bool, a: Agent, p: Agent, key: Key, minted: Key) returns (xs: seq<Action>)
    requires a != p && key != minted && key != "" && minted != ""
    ensures IsRun(Birth(strict), xs) && LedgerPeer(After(Birth(strict), xs), a, p) && !Delivered(After(Birth(strict), xs), a, p)
  {
    hide IsRun, After, Inv;
    UnservedFromBirth(strict, a, p, key, minted);
    var us := UnservedRun(a, p, key, minted);
    var f := After(Birth(strict), us);
    var i, e := NewestFacts(f, a, p);
    LastOffered(f, a);
    var vs := PutOnDisk(f, a, Versions(f, a));
    RunConcat(Birth(strict), us, vs);
    xs := us + vs;
  }
}
