/** Headers, signatures and the order of checks; Ed25519 and SHA-256 are ideal functions. */
module GuardVerify {
  import opened A2aDoc
  import opened Text
  import opened Json
  import opened GuardContent
  import opened NonceCache

  // ------------------------------------------------------------------------ integers

  function Digit(n: nat): char
    requires n < 10
  {
    '0' + n as char
  }

  function NatText(n: nat): string {
    if n < 10 then [Digit(n)] else NatText(n / 10) + [Digit(n % 10)]
  }

  /** str of an integer. */
  function IntText(n: int): string { if n < 0 then ['-'] + NatText(-n) else NatText(n) }

  function NatOf(s: string): Option<nat> {
    if s == "" || !('0' <= s[|s| - 1] <= '9') then None
    else
      var d: nat := s[|s| - 1] as int - '0' as int;
      if |s| == 1 then Some(d)
      else
        var rest := NatOf(s[..|s| - 1]);
        if rest.None? then None else Some(10 * rest.value + d)
  }

  /** int of a plain decimal with an optional sign. */
  function IntOf(s: string): Option<int> {
    if s != "" && (s[0] == '-' || s[0] == '+') then
      var n := NatOf(s[1..]);
      if n.None? then None else if s[0] == '-' then Some(0 - n.value) else Some(n.value)
    else
      var n := NatOf(s);
      if n.None? then None else Some(n.value)
  }

  lemma {:induction false} NatRoundTrip(n: nat)
    ensures NatOf(NatText(n)) == Some(n) && NatText(n) != "" && forall i :: 0 <= i < |NatText(n)| ==> '0' <= NatText(n)[i] <= '9'
  {
    if n >= 10 {
      NatRoundTrip(n / 10);
      var t := NatText(n);
      assert t[..|t| - 1] == NatText(n / 10) && t[|t| - 1] == Digit(n % 10);
    }
  }

  lemma IntRoundTrip(n: int)
    ensures IntOf(IntText(n)) == Some(n) && IntText(n) != "" && forall i :: 0 <= i < |IntText(n)| ==> IntText(n)[i] == '-' || '0' <= IntText(n)[i] <= '9'
  {
    hide NatOf, NatText;
    if n < 0 {
      NatRoundTrip(-n);
      assert IntText(n)[1..] == NatText(-n);
    } else {
      NatRoundTrip(n);
    }
  }

  // -------------------------------------------------------------------------- header

  datatype Header = Header(kid: string, aud: string, ts: string, nonce: string, sig: string)

  function Items(h: Header): seq<string> {
    ["v1", "kid=" + h.kid, "aud=" + h.aud, "ts=" + h.ts, "nonce=" + h.nonce, "sig=" + h.sig]
  }

  function HeaderText(h: Header): string { Join(Items(h), ';') }

  function KeyPart(item: string): string { if item == "" || item[0] == '=' then "" else [item[0]] + KeyPart(item[1..]) }

  function ValuePart(item: string): string
    requires '=' in item
  {
    if item[0] == '=' then item[1..] else ValuePart(item[1..])
  }

  /** dict(...) over the items that have an equals sign: the last one with a key wins. */
  function Fields(items: seq<string>): map<string, string> {
    if items == [] then map[]
    else
      var n := |items| - 1;
      var prev := Fields(items[..n]);
      if '=' in items[n] then prev[KeyPart(items[n]) := ValuePart(items[n])] else prev
  }

  function FieldOf(m: map<string, string>, k: string): string { if k in m then m[k] else "" }

  /** parse_header. */
  function ParseHeader(value: string): Option<Header> {
    var m := Fields(SplitOn(value, ';')[1..]);
    var h := Header(FieldOf(m, "kid"), FieldOf(m, "aud"), FieldOf(m, "ts"), FieldOf(m, "nonce"), FieldOf(m, "sig"));
    if !("v1;" <= value) || h.kid == "" || h.aud == "" || h.ts == "" || h.nonce == "" || h.sig == "" then None else Some(h)
  }

  /** What a header can carry: something, and no semicolon. */
  predicate Carried(s: string) { s != "" && ';' !in s }

  predicate HeaderOk(h: Header) { Carried(h.kid) && Carried(h.aud) && Carried(h.ts) && Carried(h.nonce) && Carried(h.sig) }

  lemma KeyValue(key: string, value: string)
    requires '=' !in key
    ensures '=' in key + ['='] + value && KeyPart(key + ['='] + value) == key && ValuePart(key + ['='] + value) == value
  {
    var item := key + ['='] + value;
    assert item[|key|] == '=';
    if key == "" {
      assert item[1..] == value;
    } else {
      KeyValue(key[1..], value);
      assert item[1..] == key[1..] + ['='] + value;
      assert key == [key[0]] + key[1..];
    }
  }

  lemma FiveFields(h: Header)
    ensures Fields(Items(h)[1..]) == map["kid" := h.kid, "aud" := h.aud, "ts" := h.ts, "nonce" := h.nonce, "sig" := h.sig]
  {
    hide Fields;
    var items := Items(h)[1..];
    assert items == [] + ["kid=" + h.kid] + ["aud=" + h.aud] + ["ts=" + h.ts] + ["nonce=" + h.nonce] + ["sig=" + h.sig];
    FieldAdded([], "kid", h.kid, "kid=" + h.kid);
    FieldAdded([] + ["kid=" + h.kid], "aud", h.aud, "aud=" + h.aud);
    FieldAdded([] + ["kid=" + h.kid] + ["aud=" + h.aud], "ts", h.ts, "ts=" + h.ts);
    FieldAdded([] + ["kid=" + h.kid] + ["aud=" + h.aud] + ["ts=" + h.ts], "nonce", h.nonce, "nonce=" + h.nonce);
    FieldAdded([] + ["kid=" + h.kid] + ["aud=" + h.aud] + ["ts=" + h.ts] + ["nonce=" + h.nonce], "sig", h.sig, "sig=" + h.sig);
    NoFields();
  }

  lemma NoFields()
    ensures Fields([]) == map[]
  {
  }

  lemma FieldAdded(items: seq<string>, key: string, value: string, item: string)
    requires '=' !in key && item == key + "=" + value
    ensures Fields(items + [item]) == Fields(items)[key := value]
  {
    ItemOf(key, value, item);
    assert (items + [item])[..|items|] == items;
  }

  lemma ItemOf(key: string, value: string, item: string)
    requires '=' !in key && item == key + "=" + value
    ensures '=' in item && KeyPart(item) == key && ValuePart(item) == value
  {
    assert item == key + ['='] + value;
    KeyValue(key, value);
  }

  /** Parsed values come out of the pieces between semicolons. */
  lemma {:induction false} FieldsAreFree(items: seq<string>)
    requires forall i :: 0 <= i < |items| ==> ';' !in items[i]
    ensures forall k :: k in Fields(items) ==> ';' !in Fields(items)[k]
  {
    if items != [] {
      var n := |items| - 1;
      FieldsAreFree(items[..n]);
      if '=' in items[n] { ValueIsFree(items[n]); }
    }
  }

  lemma {:induction false} ValueIsFree(item: string)
    requires '=' in item && ';' !in item
    ensures ';' !in ValuePart(item)
  {
    if item[0] != '=' { ValueIsFree(item[1..]); }
  }

  /** A header reads back as it was written exactly when every field is non-empty and free of semicolons. */
  lemma HeaderRoundTrip(h: Header)
    ensures ParseHeader(HeaderText(h)) == Some(h) <==> HeaderOk(h)
  {
    hide Fields, SplitOn, Join;
    var value := HeaderText(h);
    if HeaderOk(h) {
      var items := Items(h);
      forall i | 0 <= i < |items| ensures ';' !in items[i] {}
      SplitJoin(items, ';');
      FiveFields(h);
      StartsRight(h);
    } else if ParseHeader(value) == Some(h) {
      var pieces := SplitOn(value, ';');
      PiecesAreFree(value, ';');
      FieldsAreFree(pieces[1..]);
    }
  }

  lemma StartsRight(h: Header)
    ensures "v1;" <= HeaderText(h)
  {
    var rest := Join(Items(h)[1..], ';');
    assert HeaderText(h) == "v1" + ([';'] + rest);
  }

  // ----------------------------------------------------------------- sign and verify

  /** A key stands for its pair; `decodes` is whether a signature's text is base64, `valid` whether what it encodes verifies. */
  datatype Crypto = Crypto(
    hash: string -> string, sign: (Key, string) -> string, decodes: string -> bool, valid: (Key, string, string) -> bool)

  const SCHEME := "a2a-guard/v1"

  /** signing_input: the content is digested first, the method is classified after it. */
  function SigningInput(c: Crypto, kid: string, aud: string, ts: int, nonce: string, rpc: Dict): Outcome<string> {
    match CanonicalContent(rpc)
    case Refused(code) => Refused(code)
    case Crashed => Crashed
    case Ok(content) =>
      var cls := MethodClass(Get(rpc, "method"));
      if cls.None? then Refused(403)
      else Ok(Join([SCHEME, kid, aud, IntText(ts), nonce, cls.value, c.hash(ContentBytes(content))], '\n'))
  }

  function Sign(c: Crypto, key: Key, kid: string, aud: string, rpc: Dict, now: real, nonce: string): Outcome<string> {
    var input := SigningInput(c, kid, aud, now.Floor, nonce, rpc);
    match input
    case Refused(code) => Refused(code)
    case Crashed => Crashed
    case Ok(text) => Ok(HeaderText(Header(kid, aud, IntText(now.Floor), nonce, c.sign(key, text))))
  }

  datatype Claim = Claim(kid: string, nonce: string, ts: int)

  /** Every check before the nonce cache, in order. */
  function Checked(c: Crypto, value: string, rpc: Dict, registry: map<string, Key>, me: string, skew: int, now: real): Outcome<Claim> {
    var h := ParseHeader(value);
    if h.None? then Refused(401)
    else if h.value.aud != me then Refused(401)
    else
      var ts := IntOf(h.value.ts);
      if ts.None? then Refused(401)
      else if !(-(skew as real) <= now - ts.value as real <= skew as real) then Refused(401)
      else if h.value.kid !in registry then Refused(401)
      else if !c.decodes(h.value.sig) then Refused(401)
      else
        match SigningInput(c, h.value.kid, h.value.aud, ts.value, h.value.nonce, rpc)
        case Refused(code) => Refused(code)
        case Crashed => Crashed
        case Ok(text) =>
          if c.valid(registry[h.value.kid], h.value.sig, text) then Ok(Claim(h.value.kid, h.value.nonce, ts.value)) else Refused(401)
  }

  function Verify(c: Crypto, value: string, rpc: Dict, registry: map<string, Key>, me: string, skew: int, now: real, seen: Seen, ttl: real)
    : (Seen, Outcome<string>)
  {
    match Checked(c, value, rpc, registry, me, skew, now)
    case Refused(code) => (seen, Refused(code))
    case Crashed => (seen, Crashed)
    case Ok(claim) =>
      var (next, added) := CheckAndAdd(seen, claim.kid, claim.nonce, now, ttl);
      (next, if added then Ok(claim.kid) else Refused(401))
  }

  // --------------------------------------------------------------------- round trip

  /** Signatures verify, and their texts fit into a header. */
  ghost predicate SignaturesWork(c: Crypto) {
    forall key, text :: c.valid(key, c.sign(key, text), text) && c.decodes(c.sign(key, text)) && Carried(c.sign(key, text))
  }

  lemma SameInput(c: Crypto, kid: string, aud: string, ts: int, nonce: string, rpc: Dict, arrived: Dict)
    requires CanonicalContent(arrived) == CanonicalContent(rpc) && MethodClass(Get(arrived, "method")) == MethodClass(Get(rpc, "method"))
    ensures SigningInput(c, kid, aud, ts, nonce, arrived) == SigningInput(c, kid, aud, ts, nonce, rpc)
  {
    hide CanonicalContent;
  }

  /**
   * Sign, let the gateway rewrite, verify: the sender's name comes back exactly when the clock is still in
   * the window and the pair is not in the cache.
   */
  lemma SignThenVerify(c: Crypto, key: Key, kid: string, me: string, rpc: Dict, ws: seq<Rewrite>, t0: real, nonce: string,
                       registry: map<string, Key>, skew: int, now: real, seen: Seen, ttl: real)
    requires SignaturesWork(c) && CanonicalContent(rpc).Ok? && MethodClass(Get(rpc, "method")).Some? && AllowedAll(rpc, ws)
    requires Carried(kid) && Carried(me) && Carried(nonce) && kid in registry && registry[kid] == key
    ensures var header := Sign(c, key, kid, me, rpc, t0, nonce);
            header.Ok? &&
            (Verify(c, header.value, RewrittenAll(rpc, ws), registry, me, skew, now, seen, ttl).1 == Ok(kid) <==>
              -(skew as real) <= now - t0.Floor as real <= skew as real && (kid, nonce) !in Pruned(seen, now))
  {
    hide CanonicalContent, ParseHeader, HeaderText, IntOf, IntText, Join, RewrittenAll, SigningInput, SignaturesWork;
    ContentSurvives(rpc, ws);
    var ts := t0.Floor;
    InputAccepted(c, kid, me, ts, nonce, rpc);
    var text := SigningInput(c, kid, me, ts, nonce, rpc).value;
    SameInput(c, kid, me, ts, nonce, rpc, RewrittenAll(rpc, ws));
    IntRoundTrip(ts);
    SignatureWorks(c, key, text);
    HeaderRoundTrip(Header(kid, me, IntText(ts), nonce, c.sign(key, text)));
  }

  lemma SignatureWorks(c: Crypto, key: Key, text: string)
    requires SignaturesWork(c)
    ensures c.valid(key, c.sign(key, text), text) && c.decodes(c.sign(key, text)) && Carried(c.sign(key, text))
  {
  }

  lemma InputAccepted(c: Crypto, kid: string, aud: string, ts: int, nonce: string, rpc: Dict)
    ensures SigningInput(c, kid, aud, ts, nonce, rpc).Ok? <==> CanonicalContent(rpc).Ok? && MethodClass(Get(rpc, "method")).Some?
  {
    hide CanonicalContent, Join;
  }

  // ------------------------------------------------------------------------- binding

  /** One call of sign. */
  datatype Signed = Signed(key: Key, kid: string, aud: string, ts: int, nonce: string, rpc: Dict)

  /** SHA-256 never collides and prints no newline; nobody forges a signature. */
  ghost predicate Ideal(c: Crypto, signed: set<Signed>) {
    (forall a, b :: c.hash(a) == c.hash(b) ==> a == b) && (forall a :: '\n' !in c.hash(a)) &&
    (forall key, sig, text :: c.valid(key, sig, text) ==>
      exists s :: s in signed && s.key == key && SigningInput(c, s.kid, s.aud, s.ts, s.nonce, s.rpc) == Ok(text))
  }

  predicate OneLine(s: string) { '\n' !in s }

  predicate Lines(s: Signed) { OneLine(s.kid) && OneLine(s.aud) && OneLine(s.nonce) && WellFormed(Obj(s.rpc)) }

  /** The seven signed lines tell everything apart. */
  lemma InputInjective(c: Crypto, s: Signed, t: Signed, signed: set<Signed>)
    requires Ideal(c, signed) && Lines(s) && Lines(t)
    requires var a := SigningInput(c, s.kid, s.aud, s.ts, s.nonce, s.rpc); a.Ok? && a == SigningInput(c, t.kid, t.aud, t.ts, t.nonce, t.rpc)
    ensures s.kid == t.kid && s.aud == t.aud && s.ts == t.ts && s.nonce == t.nonce
    ensures CanonicalContent(s.rpc) == CanonicalContent(t.rpc) && CanonicalContent(s.rpc).Ok?
    ensures MethodClass(Get(s.rpc, "method")) == MethodClass(Get(t.rpc, "method"))
  {
    hide CanonicalContent, Join, IntText, IntOf, ContentBytes, MethodClass;
    var cs, ct := CanonicalContent(s.rpc), CanonicalContent(t.rpc);
    assert cs.Ok? && ct.Ok?;
    var ms, mt := MethodClass(Get(s.rpc, "method")), MethodClass(Get(t.rpc, "method"));
    var ls := [SCHEME, s.kid, s.aud, IntText(s.ts), s.nonce, ms.value, c.hash(ContentBytes(cs.value))];
    var lt := [SCHEME, t.kid, t.aud, IntText(t.ts), t.nonce, mt.value, c.hash(ContentBytes(ct.value))];
    LinesAreOne(c, s, ls, ms, signed);
    LinesAreOne(c, t, lt, mt, signed);
    JoinInjective(ls, lt, '\n');
    assert ls[1] == lt[1] && ls[2] == lt[2] && ls[3] == lt[3] && ls[4] == lt[4] && ls[5] == lt[5] && ls[6] == lt[6];
    IntRoundTrip(s.ts);
    IntRoundTrip(t.ts);
    AcceptedIsWellFormed(s.rpc);
    AcceptedIsWellFormed(t.rpc);
    ContentInjective(cs.value, ct.value);
  }

  lemma LinesAreOne(c: Crypto, s: Signed, ls: seq<string>, cls: Option<string>, signed: set<Signed>)
    requires Ideal(c, signed) && Lines(s) && cls.Some? && cls == MethodClass(Get(s.rpc, "method"))
    requires CanonicalContent(s.rpc).Ok? && ls == [SCHEME, s.kid, s.aud, IntText(s.ts), s.nonce, cls.value, c.hash(ContentBytes(CanonicalContent(s.rpc).value))]
    ensures forall i :: 0 <= i < |ls| ==> '\n' !in ls[i]
  {
    hide CanonicalContent, IntText;
    IntRoundTrip(s.ts);
    assert '\n' !in IntText(s.ts);
    assert '\n' !in SCHEME;
    ClassIsOneLine(Get(s.rpc, "method"));
  }

  lemma ClassIsOneLine(m: Json)
    ensures MethodClass(m).Some? ==> '\n' !in MethodClass(m).value
  {
  }

  /** An accepted message is one its sender signed for this receiver: same ids, role class, tenant, texts and method class. */
  lemma AcceptedWasSigned(c: Crypto, value: string, rpc: Dict, registry: map<string, Key>, me: string, skew: int, now: real, signed: set<Signed>)
      returns (s: Signed)
    requires Ideal(c, signed) && (forall x :: x in signed ==> Lines(x)) && OneLine(value) && OneLine(me) && WellFormed(Obj(rpc))
    requires Checked(c, value, rpc, registry, me, skew, now).Ok?
    ensures var claim := Checked(c, value, rpc, registry, me, skew, now).value;
            s in signed && s.kid == claim.kid && s.nonce == claim.nonce && s.ts == claim.ts && s.aud == me &&
            claim.kid in registry && s.key == registry[claim.kid] &&
            CanonicalContent(s.rpc) == CanonicalContent(rpc) && MethodClass(Get(s.rpc, "method")) == MethodClass(Get(rpc, "method"))
  {
    hide CanonicalContent, SigningInput, ParseHeader, IntOf, MethodClass;
    var h := ParseHeader(value).value;
    var ts := IntOf(h.ts).value;
    var text := SigningInput(c, h.kid, h.aud, ts, h.nonce, rpc).value;
    assert c.valid(registry[h.kid], h.sig, text);
    s :| s in signed && s.key == registry[h.kid] && SigningInput(c, s.kid, s.aud, s.ts, s.nonce, s.rpc) == Ok(text);
    HeaderIsOneLine(value);
    InputInjective(c, s, Signed(s.key, h.kid, h.aud, ts, h.nonce, rpc), signed);
  }

  lemma HeaderIsOneLine(value: string)
    requires OneLine(value) && ParseHeader(value).Some?
    ensures var h := ParseHeader(value).value; OneLine(h.kid) && OneLine(h.nonce) && OneLine(h.aud)
  {
    hide Fields, SplitOn;
    PiecesAreOneLine(value);
    FieldsAreOneLine(SplitOn(value, ';')[1..]);
  }

  lemma {:induction false} PiecesAreOneLine(s: string)
    requires OneLine(s)
    ensures forall i :: 0 <= i < |SplitOn(s, ';')| ==> OneLine(SplitOn(s, ';')[i])
  {
    if s != "" { PiecesAreOneLine(s[1..]); }
  }

  lemma {:induction false} FieldsAreOneLine(items: seq<string>)
    requires forall i :: 0 <= i < |items| ==> OneLine(items[i])
    ensures forall k :: k in Fields(items) ==> OneLine(Fields(items)[k])
  {
    if items != [] {
      var n := |items| - 1;
      FieldsAreOneLine(items[..n]);
      if '=' in items[n] { ValueIsOneLine(items[n]); }
    }
  }

  lemma {:induction false} ValueIsOneLine(item: string)
    requires '=' in item && OneLine(item)
    ensures OneLine(ValuePart(item))
  {
    if item[0] != '=' { ValueIsOneLine(item[1..]); }
  }

  // ------------------------------------------------------------------------- no replay

  /** One verify call; the registry and the receiver's name may change between calls. */
  datatype Call = Call(value: string, rpc: Dict, registry: map<string, Key>, me: string, now: real)

  function ProbeOf(c: Crypto, skew: int, call: Call): Probe {
    var r := Checked(c, call.value, call.rpc, call.registry, call.me, skew, call.now);
    if r.Ok? then Probe(r.value.kid, r.value.nonce, r.value.ts, call.now, true) else Probe("", "", 0, call.now, false)
  }

  function Probes(c: Crypto, skew: int, calls: seq<Call>): (r: seq<Probe>)
    ensures |r| == |calls|
  {
    seq(|calls|, i requires 0 <= i < |calls| => ProbeOf(c, skew, calls[i]))
  }

  function SeenAfter(c: Crypto, skew: int, ttl: real, calls: seq<Call>): Seen {
    if calls == [] then map[]
    else
      var n := |calls| - 1;
      var call := calls[n];
      Verify(c, call.value, call.rpc, call.registry, call.me, skew, call.now, SeenAfter(c, skew, ttl, calls[..n]), ttl).0
  }

  function AnswerTo(c: Crypto, skew: int, ttl: real, calls: seq<Call>, i: nat): Outcome<string>
    requires i < |calls|
  {
    var call := calls[i];
    Verify(c, call.value, call.rpc, call.registry, call.me, skew, call.now, SeenAfter(c, skew, ttl, calls[..i]), ttl).1
  }

  lemma {:induction false} SeenIsCache(c: Crypto, skew: int, ttl: real, calls: seq<Call>)
    ensures SeenAfter(c, skew, ttl, calls) == Cache(Probes(c, skew, calls), ttl)
  {
    hide Checked, CheckAndAdd;
    if calls != [] {
      var n := |calls| - 1;
      SeenIsCache(c, skew, ttl, calls[..n]);
      assert Probes(c, skew, calls)[..n] == Probes(c, skew, calls[..n]);
    }
  }

  lemma AnswerIsAccepted(c: Crypto, skew: int, ttl: real, calls: seq<Call>, i: nat)
    requires i < |calls|
    ensures AnswerTo(c, skew, ttl, calls, i).Ok? <==> Accepted(Probes(c, skew, calls), ttl, i)
  {
    hide Checked, CheckAndAdd;
    SeenIsCache(c, skew, ttl, calls[..i]);
    assert Probes(c, skew, calls)[..i] == Probes(c, skew, calls[..i]);
  }

  lemma ProbeInWindow(c: Crypto, skew: int, call: Call)
    ensures InWindow(ProbeOf(c, skew, call), skew)
    ensures ProbeOf(c, skew, call).now == call.now
  {
    hide SigningInput, ParseHeader, IntOf;
  }

  /** The guard's time to live. */
  function GuardTtl(skew: int): real { 2.0 * skew as real + 60.0 }

  /** What the guard has checked of a call it answers with a name. */
  function ClaimOf(c: Crypto, skew: int, call: Call): Outcome<Claim> {
    Checked(c, call.value, call.rpc, call.registry, call.me, skew, call.now)
  }

  lemma AcceptedClaim(c: Crypto, skew: int, ttl: real, calls: seq<Call>, i: nat)
    requires i < |calls| && AnswerTo(c, skew, ttl, calls, i).Ok?
    ensures ClaimOf(c, skew, calls[i]).Ok? && Accepted(Probes(c, skew, calls), ttl, i)
    ensures var p := Probes(c, skew, calls)[i]; ClaimOf(c, skew, calls[i]).value == Claim(p.kid, p.nonce, p.ts) && p.reaches
  {
    AnswerIsAccepted(c, skew, ttl, calls, i);
    hide Checked, CheckAndAdd, Accepted;
    AcceptedReaches(Probes(c, skew, calls), ttl, i);
  }

  /**
   * No claim (sender, nonce, time) is ever accepted twice, however the header is written and whatever
   * arrives in between, while the clock steps back by at most a minute.
   */
  lemma NoClaimTwice(c: Crypto, skew: int, calls: seq<Call>, i: nat, j: nat)
    requires skew >= 0 && i < j < |calls|
    requires forall k, l :: 0 <= k < l < |calls| ==> calls[l].now >= calls[k].now - 60.0
    requires AnswerTo(c, skew, GuardTtl(skew), calls, i).Ok? && AnswerTo(c, skew, GuardTtl(skew), calls, j).Ok?
    ensures ClaimOf(c, skew, calls[i]).Ok? && ClaimOf(c, skew, calls[j]).Ok?
    ensures ClaimOf(c, skew, calls[i]).value != ClaimOf(c, skew, calls[j]).value
  {
    hide AnswerTo, Accepted, ProbeOf, InWindow, ClaimOf;
    var ps := Probes(c, skew, calls);
    AcceptedClaim(c, skew, GuardTtl(skew), calls, i);
    AcceptedClaim(c, skew, GuardTtl(skew), calls, j);
    forall k | 0 <= k < |ps| ensures InWindow(ps[k], skew) && ps[k].now == calls[k].now { ProbeInWindow(c, skew, calls[k]); }
    NeverTwice(ps, i, j, skew, GuardTtl(skew), 60.0);
  }

  /** In particular no header text is. */
  lemma NoHeaderTwice(c: Crypto, skew: int, calls: seq<Call>, i: nat, j: nat)
    requires skew >= 0 && i < j < |calls|
    requires forall k, l :: 0 <= k < l < |calls| ==> calls[l].now >= calls[k].now - 60.0
    requires AnswerTo(c, skew, GuardTtl(skew), calls, i).Ok? && AnswerTo(c, skew, GuardTtl(skew), calls, j).Ok?
    ensures calls[i].value != calls[j].value
  {
    hide AnswerTo, SigningInput, ParseHeader, IntOf;
    NoClaimTwice(c, skew, calls, i, j);
  }

  /** Two accepted messages go back to two different acts of signing, each of them of that very content. */
  lemma EachSigningOnce(c: Crypto, skew: int, calls: seq<Call>, i: nat, j: nat, signed: set<Signed>) returns (s: Signed, t: Signed)
    requires skew >= 0 && i < j < |calls|
    requires forall k, l :: 0 <= k < l < |calls| ==> calls[l].now >= calls[k].now - 60.0
    requires AnswerTo(c, skew, GuardTtl(skew), calls, i).Ok? && AnswerTo(c, skew, GuardTtl(skew), calls, j).Ok?
    requires Ideal(c, signed) && (forall x :: x in signed ==> Lines(x))
    requires forall k :: 0 <= k < |calls| ==> OneLine(calls[k].value) && OneLine(calls[k].me) && WellFormed(Obj(calls[k].rpc))
    ensures s in signed && t in signed && s != t
    ensures CanonicalContent(s.rpc) == CanonicalContent(calls[i].rpc) && CanonicalContent(t.rpc) == CanonicalContent(calls[j].rpc)
    ensures s.aud == calls[i].me && t.aud == calls[j].me
  {
    hide AnswerTo, Ideal, Lines, Checked, CanonicalContent, MethodClass;
    NoClaimTwice(c, skew, calls, i, j);
    s := AcceptedWasSigned(c, calls[i].value, calls[i].rpc, calls[i].registry, calls[i].me, skew, calls[i].now, signed);
    t := AcceptedWasSigned(c, calls[j].value, calls[j].rpc, calls[j].registry, calls[j].me, skew, calls[j].now, signed);
  }

  lemma AcceptedReaches(ps: seq<Probe>, ttl: real, i: nat)
    requires i < |ps| && Accepted(ps, ttl, i)
    ensures ps[i].reaches
  {
  }

  // --------------------------------------------------------------------- the process

  class Guard {
    const crypto: Crypto
    const me: string
    const skew: int
    const nonces: Cached
    /** Reloaded from the registrar's bundle. */
    var registry: map<string, Key>

    constructor (crypto: Crypto, me: string, skew: int)
      ensures this.crypto == crypto && this.me == me && this.skew == skew && registry == map[]
      ensures fresh(nonces) && nonces.ttl == GuardTtl(skew) && nonces.seen == map[]
    {
      this.crypto, this.me, this.skew, registry := crypto, me, skew, map[];
      nonces := new Cached(GuardTtl(skew));
    }

    /** verify: the nonce is only used up once everything else has passed. */
    method VerifyCall(value: string, rpc: Dict, now: real) returns (r: Outcome<string>)
      modifies nonces
      ensures (nonces.seen, r) == Verify(crypto, value, rpc, registry, me, skew, now, old(nonces.seen), nonces.ttl)
    {
      hide SigningInput, ParseHeader, IntOf;
      var h := ParseHeader(value);
      if h.None? || h.value.aud != me { return Refused(401); }
      var ts := IntOf(h.value.ts);
      if ts.None? { return Refused(401); }
      if now - ts.value as real > skew as real || ts.value as real - now > skew as real { return Refused(401); }
      if h.value.kid !in registry { return Refused(401); }
      if !crypto.decodes(h.value.sig) { return Refused(401); }
      var input := SigningInput(crypto, h.value.kid, h.value.aud, ts.value, h.value.nonce, rpc);
      match input {
        case Refused(code) => return Refused(code);
        case Crashed => return Crashed;
        case Ok(text) =>
          if !crypto.valid(registry[h.value.kid], h.value.sig, text) { return Refused(401); }
      }
      var added := nonces.CheckAndAddNonce(h.value.kid, h.value.nonce, now);
      r := if added then Ok(h.value.kid) else Refused(401);
    }
  }
}
