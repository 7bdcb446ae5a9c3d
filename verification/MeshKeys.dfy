/** Signed identity on the registrar's side: which public key counts for a device, and how every bundle follows. */
module MeshKeys {
  import opened A2aDoc
  import opened Fleet
  import opened FleetSteps
  import opened FleetTheorems
  import R = Registrar

  // ------------------------------------------------------------------ the key table

  datatype KeyStatus = Active | Pending

  /** An a2a_public_keys row, with the guard's last report. */
  datatype KeyRow = KeyRow(
    key: string, status: KeyStatus, conflict: Option<string>,
    running: bool, outbound: bool, reportedAt: Option<int>, reportedVersion: Option<nat>)

  type Keys = map<Agent, KeyRow>

  datatype Answer = IsActive | IsPending | IsConflict | Unchanged

  function NewRow(key: string, always: bool): KeyRow {
    KeyRow(key, if always then Pending else Active, None, false, false, None, None)
  }

  /** registerDeviceKey: trust on first use; a different key only raises an alarm. */
  function Registered(keys: Keys, d: Agent, key: string, always: bool): (Keys, Answer) {
    if d !in keys then (keys[d := NewRow(key, always)], if always then IsPending else IsActive)
    else if keys[d].key == key then (keys, Unchanged)
    else if keys[d].conflict == Some(key) then (keys, IsConflict)
    else (keys[d := keys[d].(conflict := Some(key))], IsConflict)
  }

  /** approveDeviceKey: a conflicting key is swapped in, else the own key is activated. */
  function Approved(row: KeyRow): KeyRow {
    row.(key := if row.conflict.Some? then row.conflict.value else row.key, status := Active, conflict := None)
  }

  datatype KeyEvent =
    | Report(d: Agent, key: string, always: bool)
    | GuardReport(d: Agent, running: bool, outbound: bool, at: int, version: Option<nat>)
    | Approve(d: Agent)
    | Reject(d: Agent)
    | Revoke(d: Agent)

  function KeyStep(keys: Keys, e: KeyEvent): Keys {
    match e
    case Report(d, key, always) => Registered(keys, d, key, always).0
    case GuardReport(d, running, outbound, at, version) =>
      if d in keys then keys[d := keys[d].(running := running, outbound := outbound, reportedAt := Some(at), reportedVersion := version)] else keys
    case Approve(d) => if d in keys then keys[d := Approved(keys[d])] else keys
    case Reject(d) => if d in keys && keys[d].conflict.Some? then keys[d := keys[d].(conflict := None)] else keys
    case Revoke(d) => keys - {d}
  }

  function KeyRun(keys: Keys, es: seq<KeyEvent>): Keys {
    if es == [] then keys else KeyStep(KeyRun(keys, es[..|es| - 1]), es[|es| - 1])
  }

  /** The owner's acts on this device's key. */
  predicate OwnerActs(e: KeyEvent, d: Agent) { (e.Approve? || e.Revoke?) && e.d == d }

  /** Once a device has a key, no report of anyone changes it: that takes the owner's approval or revocation. */
  lemma {:induction false} ReportsNeverReplace(keys: Keys, es: seq<KeyEvent>, d: Agent)
    requires d in keys && forall e :: e in es ==> !OwnerActs(e, d)
    ensures d in KeyRun(keys, es) && KeyRun(keys, es)[d].key == keys[d].key && KeyRun(keys, es)[d].status == keys[d].status
  {
    if es != [] {
      var n := |es| - 1;
      assert es == es[..n] + [es[n]] && es[n] in es;
      ReportsNeverReplace(keys, es[..n], d);
    }
  }

  /** Some earlier event reported this very key for this device. */
  predicate WasReported(es: seq<KeyEvent>, d: Agent, key: string) {
    exists i :: 0 <= i < |es| && es[i].Report? && es[i].d == d && es[i].key == key
  }

  /** Every key in the table, active, pending or conflicting, is one its own device reported. */
  lemma {:induction false} OnlyReportedKeys(es: seq<KeyEvent>, d: Agent)
    ensures d in KeyRun(map[], es) ==>
              WasReported(es, d, KeyRun(map[], es)[d].key) &&
              (KeyRun(map[], es)[d].conflict.Some? ==> WasReported(es, d, KeyRun(map[], es)[d].conflict.value))
  {
    if es != [] {
      var n := |es| - 1;
      OnlyReportedKeys(es[..n], d);
      var was := KeyRun(map[], es[..n]);
      forall key | WasReported(es[..n], d, key) ensures WasReported(es, d, key) {
        var i :| 0 <= i < n && es[..n][i].Report? && es[..n][i].d == d && es[..n][i].key == key;
        assert es[i].Report?;
      }
      if es[n].Report? && es[n].d == d { assert WasReported(es, d, es[n].key); }
    }
  }

  // ------------------------------------------------------------------------- resync

  /** The active-key table restricted to the enrolled mesh members. */
  function ActiveKeys(f: Fleet, keys: Keys): map<Agent, string> {
    map d | d in keys && keys[d].status.Active? && Enrolled(f, d) :: keys[d].key
  }

  function Resynced(f: Fleet, strict: bool, keys: Keys): Fleet {
    Store(f, ResyncJobs(f, strict, ActiveKeys(f, keys)))
  }

  lemma ResyncDocKeeps(doc: A2a, d: Agent, strict: bool, keys: map<Agent, string>, identity: map<Agent, Key>)
    ensures var g := ResyncDoc(doc, d, strict, keys, identity);
            g.identityKey == doc.identityKey && g.publicUrl == doc.publicUrl && g.trusted == doc.trusted && g.overlap == doc.overlap &&
            TrustedPeers(g, d) == TrustedPeers(doc, d)
  {
  }

  /** What a resync leaves in an enrolled bundle, whether or not it had to be rotated. */
  lemma ResyncedBundle(f: Fleet, strict: bool, keys: Keys, d: Agent)
    requires Enrolled(f, d)
    ensures var g := Resynced(f, strict, keys);
            Known(g, d) && Last(g, d).a2a == Some(ResyncDoc(Last(f, d).a2a.value, d, strict, ActiveKeys(f, keys), Identities(f))) &&
            Last(g, d).modelKey == Last(f, d).modelKey && CurrentIdentity(g, d) == CurrentIdentity(f, d)
  {
    hide ResyncDoc, ActiveKeys, Identities;
    ResyncDocKeeps(Last(f, d).a2a.value, d, strict, ActiveKeys(f, keys), Identities(f));
  }

  lemma ResyncedSame(f: Fleet, strict: bool, keys: Keys, d: Agent)
    ensures Known(Resynced(f, strict, keys), d) == Known(f, d) && Enrolled(Resynced(f, strict, keys), d) == Enrolled(f, d)
    ensures CurrentIdentity(Resynced(f, strict, keys), d) == CurrentIdentity(f, d)
  {
    hide ResyncDoc, ActiveKeys, Identities;
    if Enrolled(f, d) { ResyncedBundle(f, strict, keys, d); }
  }

  /**
   * After a resync every enrolled bundle lists exactly the active keys of its trusted enrolled peers.
   * Strict drops the token of each of those; dual fills in the stored identity key of each trusted
   * enrolled peer that has none; every other token is what it was.
   */
  lemma ResyncMeaning(f: Fleet, strict: bool, keys: Keys, d: Agent, p: Agent)
    requires Enrolled(f, d)
    ensures var g := Resynced(f, strict, keys);
            Known(g, d) && Last(g, d).a2a.Some? &&
            var was := Last(f, d).a2a.value; var doc := Last(g, d).a2a.value;
            var peer := p in was.trusted && p != d; var empty := !(p in was.tokens && was.tokens[p] != "");
            doc.trusted == was.trusted && doc.overlap == was.overlap && doc.identityKey == was.identityKey &&
            doc.peerKeys == (map c | c in TrustedPeers(was, d) && c in ActiveKeys(f, keys) :: ActiveKeys(f, keys)[c]) &&
            (doc.strict <==> strict && doc.peerKeys != map[]) &&
            TokenOf(doc.tokens, p) ==
              if strict && p in doc.peerKeys then None
              else if !strict && peer && empty && Enrolled(f, p) then Some(CurrentIdentity(f, p))
              else TokenOf(was.tokens, p)
  {
    hide ActiveKeys, Enrolled, Resynced, Identities, CurrentIdentity;
    EnrolledKnown(f, d);
    ResyncedBundle(f, strict, keys, d);
    var was := Last(f, d).a2a.value;
    ResyncDocKeeps(was, d, strict, ActiveKeys(f, keys), Identities(f));
    EnrolledIdentity(f, p);
    RebuiltTokens(was, d, strict, ActiveKeys(f, keys), Identities(f), p);
  }

  function TokenOf(tokens: map<Agent, Key>, p: Agent): Option<Key> {
    if p in tokens then Some(tokens[p]) else None
  }

  /** The rebuilt document, token by token. */
  lemma RebuiltTokens(doc: A2a, d: Agent, strict: bool, keys: map<Agent, string>, identity: map<Agent, Key>, p: Agent)
    ensures var g := ResyncDoc(doc, d, strict, keys, identity);
            g.peerKeys == (map c | c in TrustedPeers(doc, d) && c in keys :: keys[c]) && (g.strict <==> strict && g.peerKeys != map[]) &&
            TokenOf(g.tokens, p) ==
              if strict && p in g.peerKeys then None
              else if !strict && p in doc.trusted && p != d && !(p in doc.tokens && doc.tokens[p] != "") && p in identity && identity[p] != ""
              then Some(identity[p])
              else TokenOf(doc.tokens, p)
  {
  }

  lemma EnrolledKnown(f: Fleet, d: Agent)
    requires Enrolled(f, d)
    ensures d in f.history && Known(f, d) && Last(f, d).a2a.Some?
  {
  }

  lemma EnrolledIdentity(f: Fleet, p: Agent)
    ensures p in Identities(f) <==> Enrolled(f, p)
    ensures Enrolled(f, p) ==> Identities(f)[p] == CurrentIdentity(f, p) != ""
  {
  }

  /**
   * Strict mode forgets the overlap tokens: a keyed peer's raw token is still in the tables exactly if one is
   * left there, although the document is strict and its guard looks at no token.
   */
  lemma StrictStillAccepts(f: Fleet, keys: Keys, d: Agent, p: Agent, k: Key)
    requires Enrolled(f, d) && p in TrustedPeers(Last(f, d).a2a.value, d) && p in ActiveKeys(f, keys)
    ensures var g := Resynced(f, true, keys); var was := Last(f, d).a2a.value;
            Known(g, d) && Last(g, d).a2a.Some? &&
            Last(g, d).a2a.value.strict && (Accepts(Last(g, d).a2a.value, p, k) <==> p in was.overlap && was.overlap[p] == k)
  {
    hide ActiveKeys, Identities;
    ResyncedBundle(f, true, keys, d);
    assert p in Last(Resynced(f, true, keys), d).a2a.value.peerKeys;
  }

  lemma ResyncDocTwice(doc: A2a, d: Agent, strict: bool, keys: map<Agent, string>, identity: map<Agent, Key>)
    ensures ResyncDoc(ResyncDoc(doc, d, strict, keys, identity), d, strict, keys, identity) == ResyncDoc(doc, d, strict, keys, identity)
  {
    var once := ResyncDoc(doc, d, strict, keys, identity);
    var twice := ResyncDoc(once, d, strict, keys, identity);
    ResyncDocKeeps(doc, d, strict, keys, identity);
    assert twice.peerKeys == once.peerKeys;
    assert twice.tokens == once.tokens;
  }

  /** An immediate second resync rotates nothing. */
  lemma SecondResyncRotatesNothing(f: Fleet, strict: bool, keys: Keys)
    ensures var g := Resynced(f, strict, keys); ResyncJobs(g, strict, ActiveKeys(g, keys)) == map[]
  {
    hide ResyncDoc, Resynced, Enrolled, Identities, CurrentIdentity;
    var g := Resynced(f, strict, keys);
    forall d ensures Enrolled(g, d) == Enrolled(f, d) && CurrentIdentity(g, d) == CurrentIdentity(f, d) { ResyncedSame(f, strict, keys, d); }
    assert ActiveKeys(g, keys) == ActiveKeys(f, keys);
    EnrolledInHistory(f);
    EnrolledInHistory(g);
    SameIdentities(f, g);
    forall d | d in g.history && Enrolled(g, d)
      ensures Known(g, d) && Last(g, d).a2a.Some? && ResyncDoc(Last(g, d).a2a.value, d, strict, ActiveKeys(g, keys), Identities(g)) == Last(g, d).a2a.value
    {
      EnrolledKnown(f, d);
      ResyncedBundle(f, strict, keys, d);
      ResyncDocTwice(Last(f, d).a2a.value, d, strict, ActiveKeys(f, keys), Identities(f));
    }
    NoJobs(g, strict, ActiveKeys(g, keys));
  }

  lemma NoJobs(g: Fleet, strict: bool, keys: map<Agent, string>)
    requires forall d :: d in g.history && Enrolled(g, d) ==>
               Known(g, d) && Last(g, d).a2a.Some? && ResyncDoc(Last(g, d).a2a.value, d, strict, keys, Identities(g)) == Last(g, d).a2a.value
    ensures ResyncJobs(g, strict, keys) == map[]
  {
    hide ResyncDoc, Identities;
  }

  lemma EnrolledInHistory(f: Fleet)
    ensures forall d :: Enrolled(f, d) ==> d in f.history && Known(f, d) && Last(f, d).a2a.Some?
  {
  }

  lemma SameIdentities(f: Fleet, g: Fleet)
    requires forall d :: Enrolled(g, d) == Enrolled(f, d) && CurrentIdentity(g, d) == CurrentIdentity(f, d)
    ensures Identities(g) == Identities(f)
  {
    hide CurrentIdentity;
    hide Enrolled;
    EnrolledInHistory(f);
    EnrolledInHistory(g);
  }

  // ------------------------------------------------------------------- strict switch

  /** readiness of one enrolled device: active key, no conflict, a recent report of a running signing guard on the current bundle. */
  predicate Ready(f: Fleet, keys: Keys, d: Agent, now: int, maxAge: int) {
    d in keys && keys[d].status.Active? && keys[d].conflict.None? && keys[d].running && keys[d].outbound &&
    keys[d].reportedAt.Some? && now - keys[d].reportedAt.value <= maxAge && keys[d].reportedVersion == Some(Versions(f, d))
  }

  ghost predicate CanSetStrict(f: Fleet, keys: Keys, on: bool, now: int, maxAge: int) {
    on ==> (exists d :: Enrolled(f, d)) && forall d :: Enrolled(f, d) ==> Ready(f, keys, d, now, maxAge)
  }

  /** Where the switch may be turned on, no bundle keeps a raw token of any trusted mesh member. */
  lemma StrictLeavesNoTokens(f: Fleet, keys: Keys, now: int, maxAge: int, d: Agent, p: Agent)
    requires CanSetStrict(f, keys, true, now, maxAge) && Enrolled(f, d) && Enrolled(f, p)
    ensures var g := Resynced(f, true, keys);
            Known(g, d) && Last(g, d).a2a.Some? &&
            (p in TrustedPeers(Last(g, d).a2a.value, d) ==>
              p !in Last(g, d).a2a.value.tokens && p in Last(g, d).a2a.value.peerKeys && Last(g, d).a2a.value.strict)
  {
    assert Ready(f, keys, p, now, maxAge);
    assert p in ActiveKeys(f, keys);
    ResyncMeaning(f, true, keys, d, p);
  }

  /** A resync of all members is the fleet's action. */
  lemma ResyncIsAction(f: Fleet, keys: Keys)
    requires KeysStay(f, ActiveKeys(f, keys), f.history.Keys)
    ensures Enabled(f, AResync(ActiveKeys(f, keys), f.history.Keys)) && Do(f, AResync(ActiveKeys(f, keys), f.history.Keys)) == Resynced(f, f.strict, keys)
  {
    hide ResyncDoc, KeysStay, Identities, ActiveKeys;
    var jobs := ResyncJobs(f, f.strict, ActiveKeys(f, keys));
    assert Restrict(jobs, f.history.Keys) == jobs;
  }

  /**
   * What the readiness gate is worth to a rotation.  Where the switch may be turned on, the resync that
   * follows leaves every rotated agent its way into every member, if the members that name the agent
   * trust it and it is a member itself; the gate looks at members only.
   */
  lemma ReadinessCovers(f: Fleet, keys: Keys, now: int, maxAge: int)
    requires CanSetStrict(f, keys, true, now, maxAge)
    requires forall d, i :: Enrolled(f, d) && 0 <= i < |f.rows| && f.rows[i].kind.A2aIdentity? && f.rows[i].agent != d &&
                            References(Last(f, d).a2a.value, f.rows[i].agent) ==>
                              Enrolled(f, f.rows[i].agent) && f.rows[i].agent in Last(f, d).a2a.value.trusted
    ensures KeysStay(TurnOn(f), ActiveKeys(f, keys), f.history.Keys)
  {
    var g := TurnOn(f);
    forall d, i | d in g.history && Enrolled(g, d) && 0 <= i < |g.rows| && g.rows[i].kind.A2aIdentity? && g.rows[i].agent != d
      ensures Stays(g, d, ActiveKeys(f, keys), g.rows[i].agent)
    {
      assert Enrolled(f, d) && Last(f, d) == Last(g, d);
      var a := f.rows[i].agent;
      if References(Last(f, d).a2a.value, a) { assert Ready(f, keys, a, now, maxAge); }
    }
  }

  // ------------------------------------------------------------------- the process

  /** One bundle's rebuild: peer_keys from the trusted list, then its tokens peer by peer. */
  method RebuildDoc(doc: A2a, d: Agent, strict: bool, keys: map<Agent, string>, identity: map<Agent, Key>) returns (next: A2a)
    ensures next == ResyncDoc(doc, d, strict, keys, identity)
  {
    var peerKeys := CollectKeys(doc, d, keys);
    var tokens := RebuildTokens(doc, d, strict, peerKeys, identity);
    TokensAre(doc, d, strict, keys, identity, tokens);
    next := doc.(peerKeys := peerKeys, strict := strict && peerKeys != map[], tokens := tokens);
  }

  lemma TokensAre(doc: A2a, d: Agent, strict: bool, keys: map<Agent, string>, identity: map<Agent, Key>, tokens: map<Agent, Key>)
    requires var peerKeys := map p | p in TrustedPeers(doc, d) && p in keys :: keys[p];
             forall p :: Holds(tokens, p, TokenAfter(doc, strict, peerKeys, identity, p, p in TrustedPeers(doc, d)))
    ensures tokens == ResyncDoc(doc, d, strict, keys, identity).tokens
  {
    var goal := ResyncDoc(doc, d, strict, keys, identity).tokens;
    var peerKeys := map p | p in TrustedPeers(doc, d) && p in keys :: keys[p];
    forall p ensures p in tokens <==> p in goal {
      assert Holds(tokens, p, TokenAfter(doc, strict, peerKeys, identity, p, p in TrustedPeers(doc, d)));
    }
    forall p | p in tokens ensures tokens[p] == goal[p] {
      assert Holds(tokens, p, TokenAfter(doc, strict, peerKeys, identity, p, p in TrustedPeers(doc, d)));
    }
  }

  method CollectKeys(doc: A2a, d: Agent, keys: map<Agent, string>) returns (peerKeys: map<Agent, string>)
    ensures peerKeys == map p | p in TrustedPeers(doc, d) && p in keys :: keys[p]
  {
    peerKeys := map[];
    var i := 0;
    while i < |doc.trusted|
      invariant 0 <= i <= |doc.trusted|
      invariant forall p :: (p in peerKeys <==> p in doc.trusted[..i] && p != d && p in keys) && (p in peerKeys ==> peerKeys[p] == keys[p])
    {
      var p := doc.trusted[i];
      if p != d && p in keys { peerKeys := peerKeys[p := keys[p]]; }
      i := i + 1;
    }
  }

  function Met(names: seq<Agent>, d: Agent): set<Agent> { set p | p in names && p != d }

  /** The token a peer ends up with. */
  function TokenAfter(doc: A2a, strict: bool, peerKeys: map<Agent, string>, identity: map<Agent, Key>, p: Agent, trusted: bool): Option<Key> {
    if trusted && strict && p in peerKeys then None
    else if trusted && !strict && !(p in doc.tokens && doc.tokens[p] != "") && p in identity && identity[p] != "" then Some(identity[p])
    else if p in doc.tokens then Some(doc.tokens[p]) else None
  }

  predicate Holds(tokens: map<Agent, Key>, p: Agent, k: Option<Key>) {
    (p in tokens <==> k.Some?) && (p in tokens ==> tokens[p] == k.value)
  }

  method RebuildTokens(doc: A2a, d: Agent, strict: bool, peerKeys: map<Agent, string>, identity: map<Agent, Key>) returns (tokens: map<Agent, Key>)
    ensures forall p :: Holds(tokens, p, TokenAfter(doc, strict, peerKeys, identity, p, p in TrustedPeers(doc, d)))
  {
    tokens := doc.tokens;
    var i := 0;
    while i < |doc.trusted|
      invariant 0 <= i <= |doc.trusted|
      invariant forall p :: Holds(tokens, p, TokenAfter(doc, strict, peerKeys, identity, p, p in Met(doc.trusted[..i], d)))
    {
      var p := doc.trusted[i];
      assert doc.trusted[..i + 1] == doc.trusted[..i] + [p];
      assert Met(doc.trusted[..i + 1], d) == Met(doc.trusted[..i], d) + (if p != d then {p} else {});
      assert Holds(tokens, p, TokenAfter(doc, strict, peerKeys, identity, p, p in Met(doc.trusted[..i], d)));
      if p != d {
        if strict && p in peerKeys {
          tokens := tokens - {p};
        } else if !strict && !(p in tokens && tokens[p] != "") && p in identity && identity[p] != "" {
          tokens := tokens[p := identity[p]];
        }
      }
      i := i + 1;
    }
    assert doc.trusted[..i] == doc.trusted && Met(doc.trusted, d) == TrustedPeers(doc, d);
  }

  /** The part of a resync that these members account for. */
  function JobsFor(f: Fleet, strict: bool, keys: map<Agent, string>, members: seq<Agent>): map<Agent, Bundle> {
    map d | d in members && d in ResyncJobs(f, strict, keys) :: ResyncJobs(f, strict, keys)[d]
  }

  lemma JobsStep(f: Fleet, strict: bool, keys: map<Agent, string>, members: seq<Agent>, i: nat)
    requires i < |members| && Enrolled(f, members[i]) && forall j :: 0 <= j < i ==> members[j] != members[i]
    ensures var d := members[i]; var jobs := JobsFor(f, strict, keys, members[..i]);
            Known(f, d) && Last(f, d).a2a.Some? && d !in jobs &&
            var doc := ResyncDoc(Last(f, d).a2a.value, d, strict, keys, Identities(f));
            JobsFor(f, strict, keys, members[..i + 1]) == if doc != Last(f, d).a2a.value then jobs[d := WithDoc(Last(f, d), doc)] else jobs
  {
    hide ResyncDoc, Identities, ResyncJobs, Enrolled;
    JobOf(f, strict, keys, members[i]);
    assert members[..i + 1] == members[..i] + [members[i]];
  }

  lemma JobOf(f: Fleet, strict: bool, keys: map<Agent, string>, d: Agent)
    requires Enrolled(f, d)
    ensures Known(f, d) && Last(f, d).a2a.Some?
    ensures var doc := ResyncDoc(Last(f, d).a2a.value, d, strict, keys, Identities(f)); var jobs := ResyncJobs(f, strict, keys);
            (d in jobs <==> doc != Last(f, d).a2a.value) && (d in jobs ==> jobs[d] == WithDoc(Last(f, d), doc))
  {
    hide ResyncDoc, Identities;
  }

  lemma AllJobs(f: Fleet, strict: bool, keys: map<Agent, string>, members: seq<Agent>)
    requires forall d :: Enrolled(f, d) ==> d in members
    ensures JobsFor(f, strict, keys, members) == ResyncJobs(f, strict, keys)
  {
    hide ResyncDoc, Identities;
  }

  lemma NoJobsYet(f: Fleet, strict: bool, keys: map<Agent, string>)
    ensures JobsFor(f, strict, keys, []) == map[]
  {
  }

  class MeshAdmin {
    const registrar: R.Registrar
    var keys: Keys

    constructor (registrar: R.Registrar)
      ensures this.registrar == registrar && keys == map[]
    {
      this.registrar, keys := registrar, map[];
    }

    /** enrolledDevices: one scan of the joined tables. */
    method Members() returns (members: seq<Agent>)
      requires registrar.Valid() && registrar.Table()
      ensures forall d :: d in members <==> Enrolled(registrar.State(), d)
      ensures forall i, j :: 0 <= i < j < |members| ==> members[i] != members[j]
    {
      ghost var f := registrar.State();
      members := [];
      var i := 0;
      while i < |registrar.order|
        invariant 0 <= i <= |registrar.order|
        invariant forall d :: d in members <==> d in registrar.order[..i] && Enrolled(f, d)
        invariant forall m, n :: 0 <= m < n < |members| ==> members[m] != members[n]
      {
        var d := registrar.order[i];
        assert registrar.order[..i + 1] == registrar.order[..i] + [d] && d !in registrar.order[..i];
        var doc := registrar.blobs[d].bundle.a2a;
        if d in registrar.active && doc.Some? && doc.value.identityKey != "" { members := members + [d]; }
        i := i + 1;
      }
      assert registrar.order[..i] == registrar.order;
    }

    /** The identity keys the members carry, and the active public keys among them. */
    method MemberKeys(members: seq<Agent>) returns (identity: map<Agent, Key>, active: map<Agent, string>)
      requires registrar.Valid() && forall d :: d in members <==> Enrolled(registrar.State(), d)
      ensures identity == Identities(registrar.State()) && active == ActiveKeys(registrar.State(), keys)
    {
      hide Enrolled;
      ghost var f := registrar.State();
      EnrolledInHistory(f);
      identity, active := map[], map[];
      var i := 0;
      while i < |members|
        invariant 0 <= i <= |members|
        invariant forall d :: (d in identity <==> d in members[..i]) && (d in identity ==> identity[d] == CurrentIdentity(f, d))
        invariant forall d :: (d in active <==> d in members[..i] && d in keys && keys[d].status.Active?) && (d in active ==> active[d] == keys[d].key)
      {
        var d := members[i];
        assert members[..i + 1] == members[..i] + [d] && d in members;
        identity := identity[d := registrar.blobs[d].bundle.a2a.value.identityKey];
        if d in keys && keys[d].status.Active? { active := active[d := keys[d].key]; }
        i := i + 1;
      }
      assert members[..i] == members;
    }

    /** resyncMeshKeys: only a bundle whose document changes is rotated. */
    method ResyncMeshKeys() returns (rotated: nat)
      requires registrar.Valid() && registrar.Table()
      modifies registrar`blobs, registrar`history
      ensures registrar.Valid() && registrar.strict == old(registrar.strict) && registrar.State() == Resynced(old(registrar.State()), registrar.strict, keys)
      ensures rotated == |ResyncJobs(old(registrar.State()), registrar.strict, ActiveKeys(old(registrar.State()), keys))|
    {
      hide Store, ResyncDoc, ResyncJobs, Enrolled, Identities, JobsFor;
      ghost var f := registrar.State();
      var members := Members();
      var identity, active := MemberKeys(members);
      rotated := 0;
      R.StoreNothing(f);
      NoJobsYet(f, registrar.strict, active);
      var i := 0;
      while i < |members|
        invariant 0 <= i <= |members| && registrar.Valid() && registrar.blobs.Keys == f.history.Keys
        invariant registrar.State() == Store(f, JobsFor(f, registrar.strict, active, members[..i]))
        invariant rotated == |JobsFor(f, registrar.strict, active, members[..i])|
      {
        JobsStep(f, registrar.strict, active, members, i);
        var changed := ResyncOne(members[i], active, identity, f, JobsFor(f, registrar.strict, active, members[..i]));
        if changed { rotated := rotated + 1; }
        i := i + 1;
      }
      assert members[..i] == members;
      AllJobs(f, registrar.strict, active, members);
    }

    method ResyncOne(d: Agent, active: map<Agent, string>, identity: map<Agent, Key>, ghost f: Fleet, ghost jobs: map<Agent, Bundle>) returns (changed: bool)
      requires registrar.Valid() && registrar.State() == Store(f, jobs) && Known(f, d) && Last(f, d).a2a.Some? && d !in jobs
      modifies registrar`blobs, registrar`history
      ensures registrar.Valid() && registrar.blobs.Keys == old(registrar.blobs.Keys)
      ensures var doc := ResyncDoc(Last(f, d).a2a.value, d, registrar.strict, active, identity);
              changed == (doc != Last(f, d).a2a.value) &&
              registrar.State() == Store(f, if changed then jobs[d := WithDoc(Last(f, d), doc)] else jobs)
    {
      hide Store, ResyncDoc;
      R.UntouchedLast(f, jobs, d);
      var doc := registrar.blobs[d].bundle.a2a.value;
      var next := RebuildDoc(doc, d, registrar.strict, active, identity);
      changed := next != doc;
      if changed {
        R.StoreJoin(f, jobs, d, WithDoc(Last(f, d), next));
        var _ := registrar.RotateBundle(d, WithDoc(registrar.blobs[d].bundle, next));
      }
    }

    /** registerDeviceKey: only a key that becomes active at once is spread to the mesh. */
    method RegisterDeviceKey(d: Agent, key: string, always: bool) returns (answer: Answer)
      requires registrar.Valid() && registrar.Table()
      modifies this`keys, registrar`blobs, registrar`history
      ensures registrar.Valid() && (keys, answer) == Registered(old(keys), d, key, always)
      ensures registrar.State() == if answer.IsActive? then Resynced(old(registrar.State()), registrar.strict, keys) else old(registrar.State())
    {
      hide Resynced;
      if d !in keys {
        keys := keys[d := NewRow(key, always)];
        if always { return IsPending; }
        var _ := ResyncMeshKeys();
        return IsActive;
      }
      if keys[d].key == key { return Unchanged; }
      if keys[d].conflict == Some(key) { return IsConflict; }
      keys := keys[d := keys[d].(conflict := Some(key))];
      answer := IsConflict;
    }

    /** approveDeviceKey. */
    method ApproveDeviceKey(d: Agent) returns (ok: bool)
      requires registrar.Valid() && registrar.Table()
      modifies this`keys, registrar`blobs, registrar`history
      ensures registrar.Valid() && ok == (d in old(keys)) && keys == KeyStep(old(keys), Approve(d))
      ensures registrar.State() == if ok then Resynced(old(registrar.State()), registrar.strict, keys) else old(registrar.State())
    {
      hide Resynced;
      if d !in keys { return false; }
      var row := keys[d];
      var swap := row.conflict.Some?;
      keys := keys[d := row.(key := if swap then row.conflict.value else row.key, status := Active, conflict := None)];
      var _ := ResyncMeshKeys();
      ok := true;
    }

    /** rejectConflict: the active key stays and nothing is rotated. */
    method RejectConflict(d: Agent) returns (ok: bool)
      modifies this`keys
      ensures ok == (d in old(keys) && old(keys)[d].conflict.Some?) && keys == KeyStep(old(keys), Reject(d))
    {
      if d !in keys || keys[d].conflict.None? { return false; }
      keys := keys[d := keys[d].(conflict := None)];
      ok := true;
    }

    /** revokeDeviceKey. */
    method RevokeDeviceKey(d: Agent) returns (ok: bool)
      requires registrar.Valid() && registrar.Table()
      modifies this`keys, registrar`blobs, registrar`history
      ensures registrar.Valid() && ok == (d in old(keys)) && keys == KeyStep(old(keys), Revoke(d))
      ensures registrar.State() == if ok then Resynced(old(registrar.State()), registrar.strict, keys) else old(registrar.State())
    {
      hide Resynced;
      if d !in keys { return false; }
      keys := keys - {d};
      var _ := ResyncMeshKeys();
      ok := true;
    }

    /** setStrict: on only when there are enrolled devices and every one of them is ready; off always. */
    method SetStrict(on: bool, now: int, maxAge: int) returns (ok: bool)
      requires registrar.Valid() && registrar.Table()
      modifies registrar`strict, registrar`blobs, registrar`history
      ensures registrar.Valid() && ok == old(CanSetStrict(registrar.State(), keys, on, now, maxAge))
      ensures registrar.strict == if ok then on else old(registrar.strict)
      ensures registrar.State() == if ok then Resynced(old(registrar.State()).(strict := on), on, keys) else old(registrar.State())
    {
      hide Resynced, CanSetStrict;
      if on {
        var allowed := MayTurnOn(now, maxAge);
        if !allowed { return false; }
      }
      assert old(CanSetStrict(registrar.State(), keys, on, now, maxAge)) by { OffAlways(registrar.State(), keys, now, maxAge); }
      registrar.strict := on;
      var _ := ResyncMeshKeys();
      ok := true;
    }

    lemma OffAlways(f: Fleet, keys: Keys, now: int, maxAge: int)
      ensures CanSetStrict(f, keys, false, now, maxAge)
    {
    }

    /** The readiness gate. */
    method MayTurnOn(now: int, maxAge: int) returns (ok: bool)
      requires registrar.Valid() && registrar.Table()
      ensures ok == CanSetStrict(registrar.State(), keys, true, now, maxAge)
    {
      hide Enrolled, Ready;
      ghost var f := registrar.State();
      EnrolledInHistory(f);
      var members := Members();
      if members == [] { return false; }
      assert members[0] in members;
      var i := 0;
      while i < |members|
        invariant 0 <= i <= |members| && forall j :: 0 <= j < i ==> Ready(f, keys, members[j], now, maxAge)
      {
        assert members[i] in members;
        var ready := IsReady(members[i], now, maxAge);
        if !ready { return false; }
        i := i + 1;
      }
      forall d | Enrolled(f, d) ensures Ready(f, keys, d, now, maxAge) {
        var j :| 0 <= j < |members| && members[j] == d;
      }
      ok := true;
    }

    method IsReady(d: Agent, now: int, maxAge: int) returns (ok: bool)
      requires registrar.Valid() && d in registrar.blobs
      ensures ok == Ready(registrar.State(), keys, d, now, maxAge)
    {
      if d !in keys { return false; }
      var k := keys[d];
      var recent := k.reportedAt.Some? && now - k.reportedAt.value <= maxAge;
      var signedSender := recent && k.running && k.outbound;
      ok := k.status.Active? && k.conflict.None? && signedSender && k.reportedVersion == Some(registrar.blobs[d].version);
    }
  }
}
