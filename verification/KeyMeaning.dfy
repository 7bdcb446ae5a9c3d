/** Key administration and the resync, said row by row and entry by entry. */
module KeyMeaning {
  import opened A2aDoc
  import opened Fleet
  import opened FleetMeaning
  import opened MeshKeys

  // ---------------------------------------------------------------------- key table

  /** A device's own row after an event that concerns it: whether there is one, and each column of it. */
  lemma KeyEventMeaning(keys: Keys, e: KeyEvent)
    ensures var next := KeyStep(keys, e); var had := e.d in keys;
            (forall x :: x != e.d ==> ((x in next <==> x in keys) && (x in keys ==> next[x] == keys[x]))) &&
            (e.d in next <==> e.Report? || (had && !e.Revoke?)) &&
            (e.d in next ==> var r := next[e.d];
              r.key == (if !had then e.key else if e.Approve? && keys[e.d].conflict.Some? then keys[e.d].conflict.value else keys[e.d].key) &&
              (r.status == Active <==> if !had then !e.always else e.Approve? || keys[e.d].status == Active) &&
              (r.conflict == if !had || e.Approve? || e.Reject? then None
                             else if e.Report? && e.key != keys[e.d].key then Some(e.key) else keys[e.d].conflict) &&
              (r.running <==> if e.GuardReport? then e.running else had && keys[e.d].running) &&
              (r.outbound <==> if e.GuardReport? then e.outbound else had && keys[e.d].outbound) &&
              (r.reportedAt == if e.GuardReport? then Some(e.at) else if had then keys[e.d].reportedAt else None) &&
              (r.reportedVersion == if e.GuardReport? then e.version else if had then keys[e.d].reportedVersion else None))
  {
  }

  /** What registration answers: by whether the key is new, known, or in conflict with the known one. */
  lemma RegisterAnswer(keys: Keys, d: Agent, key: string, always: bool)
    ensures var answer := Registered(keys, d, key, always).1;
            (answer == IsActive <==> d !in keys && !always) && (answer == IsPending <==> d !in keys && always) &&
            (answer == Unchanged <==> d in keys && keys[d].key == key) && (answer == IsConflict <==> d in keys && keys[d].key != key)
    ensures Registered(keys, d, key, always).0 == KeyStep(keys, Report(d, key, always))
  {
  }

  /** To reject a conflict undoes the report that raised it; to approve it puts the reported key in, active. */
  lemma ConflictSettled(keys: Keys, d: Agent, key: string, always: bool)
    requires d in keys && keys[d].key != key && keys[d].conflict == None
    ensures KeyRun(keys, [Report(d, key, always), Reject(d)]) == keys
    ensures KeyRun(keys, [Report(d, key, always), Approve(d)]) == keys[d := keys[d].(key := key, status := Active)]
  {
    var report := Report(d, key, always);
    TwoEvents(keys, report, Reject(d));
    TwoEvents(keys, report, Approve(d));
  }

  lemma TwoEvents(keys: Keys, a: KeyEvent, b: KeyEvent)
    ensures KeyRun(keys, [a, b]) == KeyStep(KeyStep(keys, a), b)
  {
    hide KeyStep;
    assert [a, b][..1] == [a] && [a][..0] == [];
    assert KeyRun(keys, [a]) == KeyStep(KeyRun(keys, []), a);
  }

  // --------------------------------------------------------------------- strict gate

  /** An active device whose stored bundle carries an identity key. */
  ghost predicate Member(f: Fleet, d: Agent) { d in f.active && HasBundle(f, d) && OwnKey(f, d) != "" }

  lemma MemberIsEnrolled(f: Fleet, d: Agent)
    ensures Member(f, d) <==> Enrolled(f, d)
  {
  }

  /** The switch goes on exactly if there is a member and every member's guard is where it should be; it always goes off. */
  lemma StrictGate(f: Fleet, keys: Keys, on: bool, now: int, maxAge: int)
    ensures CanSetStrict(f, keys, on, now, maxAge) <==>
            on ==> (exists d :: Member(f, d)) &&
                   forall d :: Member(f, d) ==>
                     d in keys && keys[d].status == Active && keys[d].conflict == None && keys[d].running && keys[d].outbound &&
                     keys[d].reportedAt != None && now - maxAge <= keys[d].reportedAt.value &&
                     keys[d].reportedVersion == Some(|f.history[d]|)
  {
    hide Enrolled, Member;
    forall d ensures Member(f, d) <==> Enrolled(f, d) { MemberIsEnrolled(f, d); }
    forall d | Member(f, d) ensures d in f.history && Versions(f, d) == |f.history[d]| { MemberHasBundle(f, d); }
  }

  lemma MemberHasBundle(f: Fleet, d: Agent)
    requires Member(f, d)
    ensures HasBundle(f, d) && Stored(f, d).a2a.Some?
  {
  }

  // -------------------------------------------------------------------------- resync

  /** c is a trusted member with an active public key. */
  ghost predicate Keyed(f: Fleet, keys: Keys, d: Agent, was: A2a, c: Agent) {
    c in was.trusted && c != d && Member(f, c) && c in keys && keys[c].status == Active
  }

  /** One agent's token after a resync. */
  ghost predicate TokenIs(f: Fleet, keys: Keys, strict: bool, d: Agent, was: A2a, doc: A2a, c: Agent) {
    if strict && Keyed(f, keys, d, was, c) then c !in doc.tokens
    else if !strict && c in was.trusted && c != d && Member(f, c) && (c !in was.tokens || was.tokens[c] == "") then Has(doc.tokens, c, OwnKey(f, c))
    else SameEntry(doc.tokens, was.tokens, c)
  }

  /** The document after a resync. */
  ghost predicate Rebuilt(f: Fleet, keys: Keys, strict: bool, d: Agent, was: A2a, doc: A2a) {
    doc.identityKey == was.identityKey && doc.publicUrl == was.publicUrl && doc.trusted == was.trusted && doc.overlap == was.overlap &&
    (forall c :: c in doc.peerKeys <==> Keyed(f, keys, d, was, c)) && (forall c :: c in doc.peerKeys ==> doc.peerKeys[c] == keys[c].key) &&
    (doc.strict <==> strict && exists c :: Keyed(f, keys, d, was, c)) &&
    forall c :: TokenIs(f, keys, strict, d, was, doc, c)
  }

  lemma RebuiltIs(f: Fleet, keys: Keys, strict: bool, d: Agent)
    requires Enrolled(f, d)
    ensures HasBundle(f, d) && Stored(f, d).a2a.Some?
    ensures var was := DocOf(Stored(f, d));
            Rebuilt(f, keys, strict, d, was, ResyncDoc(was, d, strict, ActiveKeys(f, keys), Identities(f)))
  {
    hide ResyncDoc, Enrolled, CurrentIdentity, Member, OwnKey;
    forall c ensures Member(f, c) <==> Enrolled(f, c) { MemberIsEnrolled(f, c); }
    MemberHasBundle(f, d);
    EnrolledInHistory(f);
    var was := DocOf(Stored(f, d));
    ResyncDocKeeps(was, d, strict, ActiveKeys(f, keys), Identities(f));
    forall c
      ensures c in ResyncDoc(was, d, strict, ActiveKeys(f, keys), Identities(f)).peerKeys <==> Keyed(f, keys, d, was, c)
      ensures c in Identities(f) <==> Member(f, c)
      ensures Member(f, c) ==> Identities(f)[c] == OwnKey(f, c) != ""
    {
      RebuiltTokens(was, d, strict, ActiveKeys(f, keys), Identities(f), c);
      EnrolledIdentity(f, c);
      OwnKeyIs(f, c);
    }
    var doc := ResyncDoc(was, d, strict, ActiveKeys(f, keys), Identities(f));
    RebuiltTokens(was, d, strict, ActiveKeys(f, keys), Identities(f), d);
    assert doc.peerKeys != map[] <==> exists c :: c in doc.peerKeys;
    forall c ensures TokenIs(f, keys, strict, d, was, doc, c) {
      RebuiltTokens(was, d, strict, ActiveKeys(f, keys), Identities(f), c);
    }
  }

  /** One device in a resync: a member's document is rebuilt, as a new version exactly if that changes it. */
  ghost predicate ResyncedAt(f: Fleet, g: Fleet, keys: Keys, strict: bool, d: Agent) {
    if !Member(f, d) then Untouched(f, g, d)
    else
      HasBundle(g, d) && Stored(g, d).a2a.Some? && Stored(g, d).modelKey == Stored(f, d).modelKey &&
      Rebuilt(f, keys, strict, d, DocOf(Stored(f, d)), DocOf(Stored(g, d))) &&
      if Stored(g, d) == Stored(f, d) then Untouched(f, g, d) else OneVersion(f, g, d)
  }

  lemma ResyncStores(f: Fleet, keys: Keys, strict: bool, d: Agent)
    ensures ResyncedAt(f, Resynced(f, strict, keys), keys, strict, d)
  {
    hide ResyncDoc, Enrolled, Identities, ActiveKeys, Rebuilt, Member;
    MemberIsEnrolled(f, d);
    EnrolledInHistory(f);
    if Enrolled(f, d) {
      RebuiltIs(f, keys, strict, d);
      JobOf(f, strict, ActiveKeys(f, keys), d);
    }
  }

  /** A resync rebuilds every member's document and touches nothing else, not even a version that would not change. */
  lemma ResyncEverywhere(f: Fleet, keys: Keys, strict: bool)
    ensures var g := Resynced(f, strict, keys);
            RestSame(f, g) && g.rows == f.rows && g.live == f.live && forall d :: ResyncedAt(f, g, keys, strict, d)
  {
    hide ResyncedAt, ResyncJobs;
    forall d ensures ResyncedAt(f, Resynced(f, strict, keys), keys, strict, d) { ResyncStores(f, keys, strict, d); }
  }
}
