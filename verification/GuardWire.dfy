/** What a signature binds, said of the requests as they travel: spellings, ids, texts, and nothing the guard computes. */
module GuardWire {
  import opened A2aDoc
  import opened Text
  import opened Json
  import opened GuardContent
  import opened NonceCache
  import opened GuardVerify

  // ------------------------------------------------------------------ a request's fields

  /** The object under a key, or an empty one. */
  function Inner(d: Dict, k: string): Dict { if k in d && d[k].Obj? then d[k].members else map[] }

  function MessageOf(rpc: Dict): Dict { Inner(Inner(rpc, "params"), "message") }

  function PartsOf(rpc: Dict): seq<Json> {
    if "parts" in MessageOf(rpc) && MessageOf(rpc)["parts"].Arr? then MessageOf(rpc)["parts"].items else []
  }

  predicate SaysSend(rpc: Dict) {
    "method" in rpc && (rpc["method"] == Str("SendMessage") || rpc["method"] == Str("message/send"))
  }

  predicate SaysStream(rpc: Dict) {
    "method" in rpc && (rpc["method"] == Str("SendStreamingMessage") || rpc["method"] == Str("message/stream"))
  }

  predicate FromUser(rpc: Dict) {
    "role" in MessageOf(rpc) && (MessageOf(rpc)["role"] == Str("ROLE_USER") || MessageOf(rpc)["role"] == Str("user"))
  }

  predicate FromAgent(rpc: Dict) {
    "role" in MessageOf(rpc) && (MessageOf(rpc)["role"] == Str("ROLE_AGENT") || MessageOf(rpc)["role"] == Str("agent"))
  }

  /** Null, an empty object, an empty list or an empty string. */
  predicate NoValue(v: Json) { v in {Null, Obj(map[]), Arr([]), Str("")} }

  predicate Untrue(v: Json) { NoValue(v) || v in {Bool(false), Num("0"), Num("0.0"), Num("-0.0")} }

  /** A key that is absent, or whose value is one of the blanks. */
  predicate BlankAt(d: Dict, k: string) { k in d ==> Untrue(d[k]) }

  /** The same value in both, or no value in either. */
  predicate SameAt(d: Dict, e: Dict, k: string) {
    (BlankAt(d, k) && BlankAt(e, k)) || (k in d && k in e && d[k] == e[k])
  }

  // ------------------------------------------------------------------- what is accepted

  predicate GoodPartOf(part: Json) {
    part.Obj? && "text" in part.members && part.members["text"].Str? &&
    ("kind" in part.members ==> part.members["kind"] == Str("text")) &&
    ("mediaType" in part.members ==> NoValue(part.members["mediaType"]) || part.members["mediaType"] in {Str("text/plain"), Str("text/markdown")}) &&
    forall k :: k in part.members && k !in {"text", "kind", "mediaType"} ==> NoValue(part.members[k])
  }

  /** Every layer carries only its own fields; the parts are plain texts. */
  ghost predicate Acceptable(rpc: Dict) {
    "jsonrpc" in rpc && rpc["jsonrpc"] == Str("2.0") &&
    (forall k :: k in rpc && k !in {"jsonrpc", "id", "method", "params"} ==> NoValue(rpc[k])) &&
    "params" in rpc && rpc["params"].Obj? &&
    var params := rpc["params"].members;
    (forall k :: k in params && k !in {"message", "tenant"} ==> NoValue(params[k])) &&
    "message" in params && params["message"].Obj? &&
    var message := params["message"].members;
    (forall k :: k in message && k !in {"messageId", "contextId", "taskId", "role", "parts", "kind"} ==> NoValue(message[k])) &&
    ("kind" in message ==> message["kind"] == Str("message")) &&
    (FromUser(rpc) || FromAgent(rpc)) && !BlankAt(message, "messageId") &&
    "parts" in message && message["parts"].Arr? && message["parts"].items != [] &&
    forall i :: 0 <= i < |message["parts"].items| ==> GoodPartOf(message["parts"].items[i])
  }

  lemma PartForms(part: Json)
    ensures GoodPart(part) <==> GoodPartOf(part)
  {
    if part.Obj? {
      assert forall v :: Empty(v) <==> NoValue(v);
    }
  }

  lemma LayersAre(rpc: Dict)
    ensures Params(rpc) == Inner(rpc, "params") && Message(rpc) == MessageOf(rpc) && Parts(rpc) == PartsOf(rpc)
  {
  }

  lemma MessageForms(rpc: Dict)
    requires "params" in rpc && rpc["params"].Obj? && "message" in rpc["params"].members && rpc["params"].members["message"].Obj?
    ensures var message := MessageOf(rpc);
            GoodMessage(Message(rpc)) <==>
              (forall k :: k in message && k !in {"messageId", "contextId", "taskId", "role", "parts", "kind"} ==> NoValue(message[k])) &&
              ("kind" in message ==> message["kind"] == Str("message")) &&
              (FromUser(rpc) || FromAgent(rpc)) && !BlankAt(message, "messageId") &&
              "parts" in message && message["parts"].Arr? && message["parts"].items != []
  {
    assert forall v :: Empty(v) <==> NoValue(v);
    assert forall v :: Falsy(v) <==> Untrue(v);
  }

  /** Exactly which requests have a signed content. */
  lemma AcceptableExactly(rpc: Dict)
    ensures CanonicalContent(rpc).Ok? <==> Acceptable(rpc)
  {
    hide CanonicalContent, GoodMessage, GoodPart, GoodPartOf, BlankAt, FromUser, FromAgent;
    AcceptedExactly(rpc);
    assert forall v :: Empty(v) <==> NoValue(v);
    forall part ensures GoodPart(part) <==> GoodPartOf(part) { PartForms(part); }
    if "params" in rpc && rpc["params"].Obj? && "message" in rpc["params"].members && rpc["params"].members["message"].Obj? {
      MessageForms(rpc);
    }
  }

  // ------------------------------------------------------------------- what is signed

  /** Two requests with the same kind of method, the same kind of sender, the same ids, tenant and texts. */
  ghost predicate SameWire(a: Dict, b: Dict) {
    ((SaysSend(a) && SaysSend(b)) || (SaysStream(a) && SaysStream(b))) &&
    ((FromUser(a) && FromUser(b)) || (FromAgent(a) && FromAgent(b))) &&
    SameAt(MessageOf(a), MessageOf(b), "messageId") && SameAt(MessageOf(a), MessageOf(b), "contextId") &&
    SameAt(MessageOf(a), MessageOf(b), "taskId") && SameAt(Inner(a, "params"), Inner(b, "params"), "tenant") &&
    |PartsOf(a)| == |PartsOf(b)| && forall i :: 0 <= i < |PartsOf(a)| ==> SameText(PartsOf(a)[i], PartsOf(b)[i])
  }

  predicate SameText(p: Json, q: Json) {
    p.Obj? && q.Obj? && "text" in p.members && "text" in q.members && p.members["text"] == q.members["text"]
  }

  lemma MethodForms(rpc: Dict)
    ensures MethodClass(Get(rpc, "method")).Some? <==> SaysSend(rpc) || SaysStream(rpc)
    ensures MethodClass(Get(rpc, "method")) == Some("send") <==> SaysSend(rpc)
    ensures MethodClass(Get(rpc, "method")) == Some("stream") <==> SaysStream(rpc)
  {
  }

  lemma RoleForms(rpc: Dict)
    ensures RoleClass(Get(Message(rpc), "role")) == Some("user") <==> FromUser(rpc)
    ensures RoleClass(Get(Message(rpc), "role")) == Some("agent") <==> FromAgent(rpc)
    ensures RoleClass(Get(Message(rpc), "role")).Some? <==> FromUser(rpc) || FromAgent(rpc)
  {
    LayersAre(rpc);
  }

  lemma SameField(d: Dict, e: Dict, k: string)
    ensures OrEmpty(Get(d, k)) == OrEmpty(Get(e, k)) <==> SameAt(d, e, k)
  {
    assert forall v :: Falsy(v) <==> Untrue(v);
  }

  lemma SameTextsForms(a: Dict, b: Dict)
    requires Acceptable(a) && Acceptable(b)
    ensures Texts(PartsOf(a)) == Texts(PartsOf(b)) <==>
            |PartsOf(a)| == |PartsOf(b)| && forall i :: 0 <= i < |PartsOf(a)| ==> SameText(PartsOf(a)[i], PartsOf(b)[i])
  {
    var p, q := PartsOf(a), PartsOf(b);
    assert forall i :: 0 <= i < |p| ==> GoodPartOf(p[i]);
    assert forall i :: 0 <= i < |q| ==> GoodPartOf(q[i]);
    if Texts(p) == Texts(q) {
      assert |p| == |Texts(p)| == |q|;
      forall i | 0 <= i < |p| ensures SameText(p[i], q[i]) { assert Texts(p)[i] == Texts(q)[i]; }
    }
    if |p| == |q| && forall i :: 0 <= i < |p| ==> SameText(p[i], q[i]) {
      forall i | 0 <= i < |p| ensures Texts(p)[i] == Texts(q)[i] { assert SameText(p[i], q[i]); }
    }
  }

  lemma OwnId(rpc: Dict)
    requires CanonicalContent(rpc).Ok?
    ensures Get(Message(rpc), "messageId") == OrEmpty(Get(Message(rpc), "messageId"))
  {
    hide CanonicalContent, OnlyKeys, GoodParts;
    AcceptedExactly(rpc);
  }

  /** Among acceptable requests the signed content and the method class are equal exactly if the requests say the same. */
  lemma SignedIsWire(a: Dict, b: Dict)
    requires Acceptable(a) && Acceptable(b) && (SaysSend(b) || SaysStream(b))
    ensures CanonicalContent(a) == CanonicalContent(b) && MethodClass(Get(a, "method")) == MethodClass(Get(b, "method")) <==> SameWire(a, b)
  {
    hide CanonicalContent, Acceptable, OrEmpty, SameAt, Texts, RoleClass, MethodClass, SaysSend, SaysStream, FromUser, FromAgent, SameText;
    AcceptableExactly(a);
    AcceptableExactly(b);
    AcceptedExactly(a);
    AcceptedExactly(b);
    LayersAre(a);
    LayersAre(b);
    MethodForms(a);
    MethodForms(b);
    RoleForms(a);
    RoleForms(b);
    OwnId(a);
    OwnId(b);
    SameField(MessageOf(a), MessageOf(b), "messageId");
    SameField(MessageOf(a), MessageOf(b), "contextId");
    SameField(MessageOf(a), MessageOf(b), "taskId");
    SameField(Inner(a, "params"), Inner(b, "params"), "tenant");
    SameTextsForms(a, b);
  }

  // ------------------------------------------------------------------------ theorems

  /**
   * Under ideal signatures, a request is answered with a name only if it is acceptable, says send or stream,
   * and its sender signed, for this receiver and this time and nonce, a request that says the same: a stream
   * for a stream, a send for a send, the same kind of sender, the same ids, tenant and texts.
   */
  lemma AcceptedOnTheWire(c: Crypto, value: string, rpc: Dict, registry: map<string, Key>, me: string, skew: int, now: real,
                          seen: Seen, ttl: real, signed: set<Signed>) returns (s: Signed)
    requires Ideal(c, signed) && (forall x :: x in signed ==> Lines(x)) && OneLine(value) && OneLine(me) && WellFormed(Obj(rpc))
    requires Verify(c, value, rpc, registry, me, skew, now, seen, ttl).1.Ok?
    ensures var kid := Verify(c, value, rpc, registry, me, skew, now, seen, ttl).1.value;
            s in signed && s.kid == kid && kid in registry && s.key == registry[kid] && s.aud == me &&
            s.ts as real - skew as real <= now <= s.ts as real + skew as real && (kid, s.nonce) !in Pruned(seen, now)
    ensures Acceptable(rpc) && Acceptable(s.rpc) && SameWire(s.rpc, rpc)
  {
    hide CanonicalContent, ParseHeader, IntOf, MethodClass, Acceptable, SameWire, Join, Ideal, Lines, Checked;
    s := AcceptedWasSigned(c, value, rpc, registry, me, skew, now, signed);
    CheckedInput(c, value, rpc, registry, me, skew, now);
    CheckedTime(c, value, rpc, registry, me, skew, now);
    AcceptableExactly(rpc);
    AcceptableExactly(s.rpc);
    MethodForms(rpc);
    SignedIsWire(s.rpc, rpc);
  }

  lemma CheckedInput(c: Crypto, value: string, rpc: Dict, registry: map<string, Key>, me: string, skew: int, now: real)
    requires Checked(c, value, rpc, registry, me, skew, now).Ok?
    ensures CanonicalContent(rpc).Ok? && MethodClass(Get(rpc, "method")).Some?
  {
    hide CanonicalContent, ParseHeader, IntOf, MethodClass, Join;
  }

  lemma CheckedTime(c: Crypto, value: string, rpc: Dict, registry: map<string, Key>, me: string, skew: int, now: real)
    requires Checked(c, value, rpc, registry, me, skew, now).Ok?
    ensures var ts := Checked(c, value, rpc, registry, me, skew, now).value.ts; ts as real - skew as real <= now <= ts as real + skew as real
  {
    hide CanonicalContent, ParseHeader, IntOf, MethodClass, Join;
  }

  /**
   * And a signed request is answered with its sender's name in whatever form it arrives that is acceptable
   * and says the same, exactly while the clock is in the window and the nonce is unused.
   */
  lemma SignedIsAccepted(c: Crypto, key: Key, kid: string, me: string, rpc: Dict, arrived: Dict, t0: real, nonce: string,
                         registry: map<string, Key>, skew: int, now: real, seen: Seen, ttl: real)
    requires SignaturesWork(c) && Acceptable(rpc) && Acceptable(arrived) && SameWire(rpc, arrived)
    requires Carried(kid) && Carried(me) && Carried(nonce) && kid in registry && registry[kid] == key
    ensures var header := Sign(c, key, kid, me, rpc, t0, nonce);
            header.Ok? &&
            (Verify(c, header.value, arrived, registry, me, skew, now, seen, ttl).1 == Ok(kid) <==>
              -(skew as real) <= now - t0.Floor as real <= skew as real && (kid, nonce) !in Pruned(seen, now))
  {
    hide CanonicalContent, ParseHeader, HeaderText, IntOf, IntText, Join, SigningInput, SignaturesWork, MethodClass, Acceptable, SameAt, SameText, SaysSend, SaysStream, FromUser, FromAgent;
    SignedIsWire(rpc, arrived);
    AcceptableExactly(rpc);
    MethodForms(rpc);
    var ts := t0.Floor;
    InputAccepted(c, kid, me, ts, nonce, rpc);
    var text := SigningInput(c, kid, me, ts, nonce, rpc).value;
    SameInput(c, kid, me, ts, nonce, rpc, arrived);
    IntRoundTrip(ts);
    SignatureWorks(c, key, text);
    HeaderRoundTrip(Header(kid, me, IntText(ts), nonce, c.sign(key, text)));
  }
}
