/** The registrar's view of one device's config/a2a.json, and the renders that change it. */
module A2aDoc {

  datatype Option<+T> = None | Some(value: T)

  type Agent = string

  /** A credential plaintext; the empty string stands for "absent", as bundleIdentityKey reports it. */
  type Key = string

  /**
   * An absent peer_tokens, peer_tokens_overlap or peer_keys object reads as the empty map, an absent
   * strict flag as false: every reader in the registrar and in the guard treats the two alike.
   */
  datatype A2a = A2a(
    identityKey: Key,
    publicUrl: string,
    trusted: seq<Agent>,
    tokens: map<Agent, Key>,
    overlap: map<Agent, Key>,
    peerKeys: map<Agent, string>,
    strict: bool)

  const EMPTY := A2a("", "", [], map[], map[], map[], false)

  /** A receiver carrying `doc` takes `key` as the bearer of `agent`: canonical entry or overlap entry. */
  predicate Accepts(doc: A2a, agent: Agent, key: Key) {
    (agent in doc.tokens && doc.tokens[agent] == key) ||
    (agent in doc.overlap && doc.overlap[agent] == key)
  }

  /** Every bundle that mentions the agent, as a token holder or as a trusting peer. */
  predicate References(doc: A2a, agent: Agent) {
    agent in doc.tokens || agent in doc.trusted
  }

  // ------------------------------------------------------------------ mergeNames

  /** First occurrences only, in order. */
  function Dedup(names: seq<Agent>): (r: seq<Agent>)
    ensures forall x :: x in r <==> x in names
    ensures forall i, j :: 0 <= i < j < |r| ==> r[i] != r[j]
  {
    if names == [] then []
    else
      var init, last := names[..|names| - 1], names[|names| - 1];
      assert names == init + [last];
      if last in init then Dedup(init) else Dedup(init) + [last]
  }

  /** Names already deduplicated stay where they are; new ones go to the end. */
  lemma {:induction false} DedupKeepsOrder(names: seq<Agent>, add: seq<Agent>)
    requires forall i, j :: 0 <= i < j < |names| ==> names[i] != names[j]
    ensures names <= Dedup(names + add)
  {
    if add == [] {
      assert names + add == names;
      if names != [] {
        var init := names[..|names| - 1];
        DedupKeepsOrder(init, []);
        assert init + [] == init;
        DedupOfDistinct(init);
        DedupOfDistinct(names);
      }
    } else {
      var init := add[..|add| - 1];
      DedupKeepsOrder(names, init);
      assert (names + add)[..|names + add| - 1] == names + init;
    }
  }

  lemma {:induction false} DedupOfDistinct(names: seq<Agent>)
    requires forall i, j :: 0 <= i < j < |names| ==> names[i] != names[j]
    ensures Dedup(names) == names
  {
    if names != [] {
      DedupOfDistinct(names[..|names| - 1]);
      assert names == names[..|names| - 1] + [names[|names| - 1]];
    }
  }

  // ---------------------------------------------------------------- renderA2aJson

  datatype Updates = Updates(
    identityKey: Option<Key>,
    publicUrl: Option<string>,
    addTrusted: Option<seq<Agent>>,
    addTokens: map<Agent, Key>,
    addOverlap: map<Agent, Key>,
    dropOverlap: seq<Agent>)

  const NO_UPDATES := Updates(None, None, None, map[], map[], [])

  function Without(m: map<Agent, Key>, names: seq<Agent>): map<Agent, Key> {
    map a | a in m && a !in names :: m[a]
  }

  /** The next document: set keys override, the overlap additions land before the drops. */
  function Render(current: Option<A2a>, u: Updates): A2a {
    var doc := if current.Some? then current.value else EMPTY;
    doc.(identityKey := if u.identityKey.Some? then u.identityKey.value else doc.identityKey,
         publicUrl := if u.publicUrl.Some? then u.publicUrl.value else doc.publicUrl,
         trusted := if u.addTrusted.Some? then Dedup(doc.trusted + u.addTrusted.value) else doc.trusted,
         tokens := doc.tokens + u.addTokens,
         overlap := Without(doc.overlap + u.addOverlap, u.dropOverlap))
  }

  /** renderA2aJson: the object is copied and its keys are overwritten in place. */
  method RenderA2aJson(current: Option<A2a>, u: Updates) returns (doc: A2a)
    ensures doc == Render(current, u)
  {
    doc := if current.Some? then current.value else EMPTY;
    if u.identityKey.Some? { doc := doc.(identityKey := u.identityKey.value); }
    if u.publicUrl.Some? { doc := doc.(publicUrl := u.publicUrl.value); }
    if u.addTrusted.Some? {
      var merged := MergeNames(doc.trusted, u.addTrusted.value);
      doc := doc.(trusted := merged);
    }
    doc := doc.(tokens := doc.tokens + u.addTokens);
    var overlap := DeleteNames(doc.overlap + u.addOverlap, u.dropOverlap);
    doc := doc.(overlap := overlap);
  }

  method DeleteNames(m: map<Agent, Key>, names: seq<Agent>) returns (r: map<Agent, Key>)
    ensures r == Without(m, names)
  {
    r := m;
    var i := 0;
    while i < |names|
      invariant 0 <= i <= |names|
      invariant forall a :: a in r <==> a in m && a !in names[..i]
      invariant forall a :: a in r ==> r[a] == m[a]
    {
      r := map a | a in r && a != names[i] :: r[a];
      i := i + 1;
    }
  }

  /** mergeNames: the filter keeps an entry exactly when it is its own first occurrence. */
  method MergeNames(existing: seq<Agent>, add: seq<Agent>) returns (merged: seq<Agent>)
    ensures merged == Dedup(existing + add)
  {
    var all := existing + add;
    merged := [];
    var i := 0;
    while i < |all|
      invariant 0 <= i <= |all|
      invariant merged == Dedup(all[..i])
    {
      assert all[..i + 1][..i] == all[..i];
      if all[i] !in all[..i] { merged := merged + [all[i]]; }
      i := i + 1;
    }
    assert all[..i] == all;
  }
}
