/** The guard's pruned nonce cache, and exactly when forgetting is harmless. */
module NonceCache {

  /** One verify call as the cache sees it: `reaches` says whether every earlier check passed. */
  datatype Probe = Probe(kid: string, nonce: string, ts: int, now: real, reaches: bool)

  type Seen = map<(string, string), real>

  /** Expired pairs go first, at every call. */
  function Pruned(seen: Seen, now: real): Seen {
    map k | k in seen && seen[k] >= now :: seen[k]
  }

  function CheckAndAdd(seen: Seen, kid: string, nonce: string, now: real, ttl: real): (Seen, bool) {
    var live := Pruned(seen, now);
    if (kid, nonce) in live then (live, false) else (live[(kid, nonce) := now + ttl], true)
  }

  function Probed(seen: Seen, p: Probe, ttl: real): Seen {
    if p.reaches then CheckAndAdd(seen, p.kid, p.nonce, p.now, ttl).0 else seen
  }

  /** The cache after a history of calls. */
  function Cache(ps: seq<Probe>, ttl: real): Seen {
    if ps == [] then map[] else Probed(Cache(ps[..|ps| - 1], ttl), ps[|ps| - 1], ttl)
  }

  predicate Accepted(ps: seq<Probe>, ttl: real, i: nat)
    requires i < |ps|
  {
    ps[i].reaches && CheckAndAdd(Cache(ps[..i], ttl), ps[i].kid, ps[i].nonce, ps[i].now, ttl).1
  }

  /** The time window every call that reaches the cache has passed. */
  predicate InWindow(p: Probe, skew: int) {
    p.reaches ==> -(skew as real) <= p.now - p.ts as real <= skew as real
  }

  predicate AllInWindow(ps: seq<Probe>, skew: int) { forall i :: 0 <= i < |ps| ==> InWindow(ps[i], skew) }

  /** The clock never steps back by more than `back` seconds. */
  predicate ClockOk(ps: seq<Probe>, back: real) {
    forall i, j :: 0 <= i < j < |ps| ==> ps[j].now >= ps[i].now - back
  }

  predicate SameHeader(p: Probe, q: Probe) { p.kid == q.kid && p.nonce == q.nonce && p.ts == q.ts }

  predicate NoReplay(ps: seq<Probe>, ttl: real) {
    forall i, j :: 0 <= i < j < |ps| && Accepted(ps, ttl, i) && Accepted(ps, ttl, j) ==> !SameHeader(ps[i], ps[j])
  }

  // ------------------------------------------------------------------ remembering

  /** Some call since then came so late that the pair may be gone. */
  predicate Late(ps: seq<Probe>, i: nat, j: nat, ttl: real)
    requires i < |ps| && j <= |ps|
  {
    exists k :: i < k < j && ps[k].now > ps[i].now + ttl
  }

  /** An accepted pair is remembered until some call comes later than its time to live. */
  lemma {:induction false} Remembered(ps: seq<Probe>, i: nat, j: nat, ttl: real)
    requires i < j <= |ps| && Accepted(ps, ttl, i)
    ensures var seen := Cache(ps[..j], ttl); var key := (ps[i].kid, ps[i].nonce);
            (key in seen && seen[key] >= ps[i].now + ttl) || Late(ps, i, j, ttl)
  {
    assert ps[..j][..j - 1] == ps[..j - 1];
    if j > i + 1 {
      Remembered(ps, i, j - 1, ttl);
      var key := (ps[i].kid, ps[i].nonce);
      if Late(ps, i, j - 1, ttl) {
        var k :| i < k < j - 1 && ps[k].now > ps[i].now + ttl;
        assert Late(ps, i, j, ttl);
      } else if ps[j - 1].now > ps[i].now + ttl {
        assert Late(ps, i, j, ttl);
      }
    }
  }

  lemma NeverTwice(ps: seq<Probe>, i: nat, j: nat, skew: int, ttl: real, back: real)
    requires i < j < |ps| && AllInWindow(ps, skew) && ClockOk(ps, back) && 0.0 <= back <= ttl - 2.0 * skew as real
    requires Accepted(ps, ttl, i) && Accepted(ps, ttl, j)
    ensures !SameHeader(ps[i], ps[j])
  {
    if SameHeader(ps[i], ps[j]) {
      Remembered(ps, i, j, ttl);
      NotLate(ps, i, j, skew, ttl, back);
    }
  }

  /** While the header is still in its window, no call can have come that late. */
  lemma NotLate(ps: seq<Probe>, i: nat, j: nat, skew: int, ttl: real, back: real)
    requires i < j < |ps| && AllInWindow(ps, skew) && ClockOk(ps, back) && 0.0 <= back <= ttl - 2.0 * skew as real
    requires ps[i].reaches && ps[j].reaches && ps[i].ts == ps[j].ts
    ensures ps[j].now <= ps[i].now + ttl && !Late(ps, i, j, ttl)
  {
    assert InWindow(ps[i], skew) && InWindow(ps[j], skew);
    forall k | i < k < j ensures ps[k].now <= ps[i].now + ttl { assert ps[j].now >= ps[k].now - back; }
  }

  /** Every history, however the nonces in it are chosen. */
  ghost predicate Safe(skew: int, ttl: real, back: real) {
    forall ps :: AllInWindow(ps, skew) && ClockOk(ps, back) ==> NoReplay(ps, ttl)
  }

  /** A clock stepping further back than the margin lets a header in twice. */
  lemma ReplayHistory(skew: int, ttl: real, back: real) returns (ps: seq<Probe>)
    requires skew >= 1 && back >= 0.0 && back > ttl - 2.0 * skew as real
    ensures AllInWindow(ps, skew) && ClockOk(ps, back) && !NoReplay(ps, ttl)
  {
    var late := 2.0 * skew as real + back;
    var first := Probe("a", "n", skew, 0.0, true);
    var other := Probe("b", "m", late.Floor, late, true);
    var again := Probe("a", "n", skew, 2.0 * skew as real, true);
    ps := [first, other, again];
    assert ps[..2][..1] == [first] && ps[..1][..0] == [] && ps[..0] == [] && ps[..2] == [first, other];
    assert Cache([], ttl) == map[];
    assert Cache([first], ttl) == map[("a", "n") := 0.0 + ttl];
    assert ("a", "n") !in Pruned(Cache([first], ttl), late);
    assert ("a", "n") !in Cache(ps[..2], ttl);
    assert Accepted(ps, ttl, 0) && Accepted(ps, ttl, 2) && SameHeader(ps[0], ps[2]);
  }

  /**
   * The exact margin.  No signed header is ever accepted twice, over any history, if and only if the clock
   * never steps back by more than the time to live exceeds twice the window: here 60 seconds.
   */
  lemma SafeExactly(skew: int, ttl: real, back: real)
    requires skew >= 1 && back >= 0.0
    ensures Safe(skew, ttl, back) <==> back <= ttl - 2.0 * skew as real
  {
    if back <= ttl - 2.0 * skew as real {
      forall ps | AllInWindow(ps, skew) && ClockOk(ps, back) ensures NoReplay(ps, ttl) {
        forall i, j | 0 <= i < j < |ps| && Accepted(ps, ttl, i) && Accepted(ps, ttl, j) ensures !SameHeader(ps[i], ps[j]) {
          NeverTwice(ps, i, j, skew, ttl, back);
        }
      }
    } else {
      var ps := ReplayHistory(skew, ttl, back);
    }
  }

  // --------------------------------------------------------- as good as unbounded

  /** What a cache that never forgets would say: the pair was never offered before. */
  predicate FirstOffer(ps: seq<Probe>, j: nat)
    requires j < |ps|
  {
    ps[j].reaches && forall i :: 0 <= i < j && ps[i].reaches ==> !(ps[i].kid == ps[j].kid && ps[i].nonce == ps[j].nonce)
  }

  /** Signers draw a nonce for one header only. */
  predicate NoncesSignedOnce(ps: seq<Probe>) {
    forall i, j :: 0 <= i < |ps| && 0 <= j < |ps| && ps[i].reaches && ps[j].reaches && ps[i].kid == ps[j].kid && ps[i].nonce == ps[j].nonce
      ==> ps[i].ts == ps[j].ts
  }

  /** Whatever is in the cache was put there by an accepted call. */
  lemma {:induction false} CachedWasAccepted(ps: seq<Probe>, j: nat, ttl: real, key: (string, string)) returns (i: nat)
    requires j <= |ps| && key in Cache(ps[..j], ttl)
    ensures i < j && Accepted(ps, ttl, i) && (ps[i].kid, ps[i].nonce) == key
  {
    assert ps[..j][..j - 1] == ps[..j - 1];
    if key in Cache(ps[..j - 1], ttl) && !(Accepted(ps, ttl, j - 1) && (ps[j - 1].kid, ps[j - 1].nonce) == key) {
      i := CachedWasAccepted(ps, j - 1, ttl, key);
    } else {
      i := j - 1;
    }
  }

  /** With fresh nonces the pruned cache decides every call exactly as one that never forgets. */
  lemma ActsUnbounded(ps: seq<Probe>, j: nat, skew: int, ttl: real, back: real)
    requires j < |ps| && AllInWindow(ps, skew) && ClockOk(ps, back) && 0.0 <= back <= ttl - 2.0 * skew as real && NoncesSignedOnce(ps)
    ensures Accepted(ps, ttl, j) <==> FirstOffer(ps, j)
  {
    var key := (ps[j].kid, ps[j].nonce);
    if Accepted(ps, ttl, j) {
      forall i | 0 <= i < j && ps[i].reaches && (ps[i].kid, ps[i].nonce) == key ensures false {
        var k := i;
        if !Accepted(ps, ttl, i) { k := CachedWasAccepted(ps, i, ttl, key); }
        NeverTwice(ps, k, j, skew, ttl, back);
      }
    } else if FirstOffer(ps, j) {
      var k := CachedWasAccepted(ps, j, ttl, key);
    }
  }

  class Cached {
    const ttl: real
    var seen: map<(string, string), real>

    constructor (ttl: real)
      ensures this.ttl == ttl && seen == map[]
    {
      this.ttl, seen := ttl, map[];
    }

    method CheckAndAddNonce(kid: string, nonce: string, now: real) returns (ok: bool)
      modifies this
      ensures (seen, ok) == CheckAndAdd(old(seen), kid, nonce, now, ttl)
    {
      seen := map k | k in seen && !(seen[k] < now) :: seen[k];
      assert seen == Pruned(old(seen), now);
      if (kid, nonce) in seen { return false; }
      seen := seen[(kid, nonce) := now + ttl];
      ok := true;
    }
  }
}
