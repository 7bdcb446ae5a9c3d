/** The signed content of a message: what is accepted, what survives the gateway, and what a signature pins down. */
module GuardContent {
  import opened A2aDoc
  import opened Text
  import opened Json

  type Dict = map<string, Json>

  /** Refusals carry their HTTP status; an unhashable role or media type is a TypeError of the original. */
  datatype Outcome<+T> = Ok(value: T) | Refused(code: nat) | Crashed

  datatype Content = Content(contextId: Json, messageId: Json, taskId: Json, tenant: Json, role: string, texts: seq<string>)

  // ----------------------------------------------------------------- dictionaries

  /** dict.get: a missing key reads as null. */
  function Get(m: Dict, k: string): Json { if k in m then m[k] else Null }

  /** value in (None, {}, [], ""). */
  predicate Empty(v: Json) { v == Null || v == Obj(map[]) || v == Arr([]) || v == Str("") }

  /** Python's truth value. */
  predicate Falsy(v: Json) { Empty(v) || v == Bool(false) || v == Num("0") || v == Num("0.0") || v == Num("-0.0") }

  function OrEmpty(v: Json): Json { if Falsy(v) then Str("") else v }

  predicate Hashable(v: Json) { !v.Arr? && !v.Obj? }

  const RPC_KEYS: set<string> := {"jsonrpc", "id", "method", "params"}
  const PARAMS_KEYS: set<string> := {"message", "configuration", "tenant"}
  const MESSAGE_KEYS: set<string> := {"messageId", "contextId", "taskId", "role", "parts", "kind"}
  const PART_KEYS: set<string> := {"text", "kind", "mediaType"}

  /** Nothing but the allowed keys carries a value. */
  predicate OnlyKeys(m: Dict, keys: set<string>) { forall k :: k in m && k !in keys ==> Empty(m[k]) }

  function MethodClass(m: Json): Option<string> {
    if m == Str("SendMessage") || m == Str("message/send") then Some("send")
    else if m == Str("SendStreamingMessage") || m == Str("message/stream") then Some("stream")
    else None
  }

  function RoleClass(r: Json): Option<string> {
    if r == Str("ROLE_USER") || r == Str("user") then Some("user")
    else if r == Str("ROLE_AGENT") || r == Str("agent") then Some("agent")
    else None
  }

  predicate PlainText(v: Json) { v == Str("text/plain") || v == Str("text/markdown") }

  // ------------------------------------------------------------- canonical_content

  /** message.get("kind", default) != default: absent or exactly the tag. */
  predicate KindOk(m: Dict, tag: string) { "kind" !in m || m["kind"] == Str(tag) }

  /** One part of the loop: None lets the loop go on. */
  function PartError(part: Json): Option<Outcome<Content>> {
    if !part.Obj? || !Get(part.members, "text").Str? then Some(Refused(400))
    else if !KindOk(part.members, "text") then Some(Refused(400))
    else
      var media := Get(part.members, "mediaType");
      if Empty(media) then None
      else if !Hashable(media) then Some(Crashed)
      else if !PlainText(media) then Some(Refused(400))
      else None
  }

  /** The first part that stops the loop. */
  function FirstError(parts: seq<Json>): Option<Outcome<Content>> {
    if parts == [] then None
    else if PartError(parts[0]).Some? then PartError(parts[0])
    else FirstError(parts[1..])
  }

  lemma {:induction false} NoError(parts: seq<Json>)
    ensures FirstError(parts).None? <==> forall i :: 0 <= i < |parts| ==> PartError(parts[i]).None?
    ensures FirstError(parts).Some? ==> !FirstError(parts).value.Ok?
  {
    if parts != [] && PartError(parts[0]).None? {
      NoError(parts[1..]);
      assert forall i :: 1 <= i < |parts| ==> parts[i] == parts[1..][i - 1];
    }
  }

  function TextOf(part: Json): string {
    if part.Obj? && Get(part.members, "text").Str? then Get(part.members, "text").s else ""
  }

  function Texts(parts: seq<Json>): seq<string> { seq(|parts|, i requires 0 <= i < |parts| => TextOf(parts[i])) }

  predicate NoExtraInParts(parts: seq<Json>) {
    forall i :: 0 <= i < |parts| ==> parts[i].Obj? && OnlyKeys(parts[i].members, PART_KEYS)
  }

  function CanonicalContent(rpc: Dict): Outcome<Content> {
    if Get(rpc, "jsonrpc") != Str("2.0") then Refused(400)
    else
      var params := Get(rpc, "params");
      if !params.Obj? || !Get(params.members, "message").Obj? then Refused(400)
      else
        var message := Get(params.members, "message").members;
        if !KindOk(message, "message") then Refused(400)
        else if !Get(message, "parts").Arr? || Get(message, "parts").items == [] then Refused(400)
        else
          var parts := Get(message, "parts").items;
          if FirstError(parts).Some? then FirstError(parts).value
          else if !(OnlyKeys(rpc, RPC_KEYS) && OnlyKeys(params.members, PARAMS_KEYS) && OnlyKeys(message, MESSAGE_KEYS) &&
                    Empty(Get(params.members, "configuration")) && NoExtraInParts(parts)) then Refused(400)
          else if !Hashable(Get(message, "role")) then Crashed
          else if RoleClass(Get(message, "role")).None? then Refused(400)
          else if Falsy(Get(message, "messageId")) then Refused(400)
          else Ok(Content(OrEmpty(Get(message, "contextId")), Get(message, "messageId"), OrEmpty(Get(message, "taskId")),
                          OrEmpty(Get(params.members, "tenant")), RoleClass(Get(message, "role")).value, Texts(parts)))
  }

  /** canonical_content: the list of texts is filled part by part, extras are collected on the way. */
  method BuildContent(rpc: Dict) returns (r: Outcome<Content>)
    ensures r == CanonicalContent(rpc)
  {
    hide OnlyKeys, KindOk, FirstError, Texts, NoExtraInParts;
    if Get(rpc, "jsonrpc") != Str("2.0") { return Refused(400); }
    var extra := !OnlyKeys(rpc, RPC_KEYS);
    var params := Get(rpc, "params");
    if !params.Obj? || !Get(params.members, "message").Obj? { return Refused(400); }
    var message := Get(params.members, "message").members;
    extra := extra || !OnlyKeys(params.members, PARAMS_KEYS) || !OnlyKeys(message, MESSAGE_KEYS) || !Empty(Get(params.members, "configuration"));
    if !KindOk(message, "message") { return Refused(400); }
    if !Get(message, "parts").Arr? || Get(message, "parts").items == [] { return Refused(400); }
    var parts := Get(message, "parts").items;
    var texts, stop, partExtra := FillTexts(parts);
    if stop.Some? { return stop.value; }
    extra := extra || partExtra;
    if extra { return Refused(400); }
    var role := Get(message, "role");
    if !Hashable(role) { return Crashed; }
    if RoleClass(role).None? { return Refused(400); }
    var messageId := OrEmpty(Get(message, "messageId"));
    if messageId == Str("") { return Refused(400); }
    r := Ok(Content(OrEmpty(Get(message, "contextId")), messageId, OrEmpty(Get(message, "taskId")),
                    OrEmpty(Get(params.members, "tenant")), RoleClass(role).value, texts));
  }

  method FillTexts(parts: seq<Json>) returns (texts: seq<string>, stop: Option<Outcome<Content>>, extra: bool)
    ensures stop == FirstError(parts)
    ensures stop.None? ==> texts == Texts(parts) && extra == !NoExtraInParts(parts)
  {
    hide OnlyKeys, Empty;
    texts, stop, extra := [], None, false;
    var i := 0;
    while i < |parts|
      invariant 0 <= i <= |parts| && stop.None? && texts == Texts(parts)[..i] && FirstError(parts) == FirstError(parts[i..])
      invariant extra == !NoExtraInParts(parts[..i]) && forall k :: 0 <= k < i ==> parts[k].Obj?
    {
      var part := parts[i];
      stop := PartError(part);
      if stop.Some? { return; }
      if !OnlyKeys(part.members, PART_KEYS) { extra := true; }
      texts := texts + [Get(part.members, "text").s];
      i := i + 1;
    }
    assert parts[..i] == parts && Texts(parts)[..i] == Texts(parts);
  }

  // --------------------------------------------------------------- gateway rewrites

  function Params(rpc: Dict): Dict { if Get(rpc, "params").Obj? then Get(rpc, "params").members else map[] }
  function Message(rpc: Dict): Dict { if Get(Params(rpc), "message").Obj? then Get(Params(rpc), "message").members else map[] }
  function Parts(rpc: Dict): seq<Json> { if Get(Message(rpc), "parts").Arr? then Get(Message(rpc), "parts").items else [] }

  function WithParams(rpc: Dict, params: Dict): Dict { rpc["params" := Obj(params)] }
  function WithMessage(rpc: Dict, message: Dict): Dict { WithParams(rpc, Params(rpc)["message" := Obj(message)]) }
  function WithParts(rpc: Dict, parts: seq<Json>): Dict { WithMessage(rpc, Message(rpc)["parts" := Arr(parts)]) }

  /** What the gateway may do to a message in transit; the order of keys is not part of a dictionary. */
  datatype Rewrite =
    | NewId(id: Json)
    | Configure(v: Json)
    | Respell(spelling: Json)
    | RespellRole(role: Json)
    | TagMessage(on: bool)
    | TagPart(i: nat, on: bool)
    | Media(i: nat, media: Option<Json>)

  predicate IsTextPart(rpc: Dict, i: nat) { i < |Parts(rpc)| && Parts(rpc)[i].Obj? }

  /** Same class for spellings, an empty configuration, the valid kind tags, and plain-text labels only. */
  predicate Allowed(rpc: Dict, w: Rewrite) {
    match w
    case NewId(_) => true
    case Configure(v) => Empty(v)
    case Respell(m) => MethodClass(m) == MethodClass(Get(rpc, "method"))
    case RespellRole(r) => Hashable(r) && RoleClass(r) == RoleClass(Get(Message(rpc), "role"))
    case TagMessage(_) => true
    case TagPart(i, _) => IsTextPart(rpc, i)
    case Media(i, v) => IsTextPart(rpc, i) && (v.Some? ==> Empty(v.value) || PlainText(v.value))
  }

  function Tagged(m: Dict, on: bool, tag: string): Dict { if on then m["kind" := Str(tag)] else m - {"kind"} }

  function Labelled(m: Dict, v: Option<Json>): Dict { if v.Some? then m["mediaType" := v.value] else m - {"mediaType"} }

  function Rewritten(rpc: Dict, w: Rewrite): Dict
    requires Allowed(rpc, w)
  {
    match w
    case NewId(id) => rpc["id" := id]
    case Configure(v) => WithParams(rpc, Params(rpc)["configuration" := v])
    case Respell(m) => rpc["method" := m]
    case RespellRole(r) => WithMessage(rpc, Message(rpc)["role" := r])
    case TagMessage(on) => WithMessage(rpc, Tagged(Message(rpc), on, "message"))
    case TagPart(i, on) => WithParts(rpc, Parts(rpc)[i := Obj(Tagged(Parts(rpc)[i].members, on, "text"))])
    case Media(i, v) => WithParts(rpc, Parts(rpc)[i := Obj(Labelled(Parts(rpc)[i].members, v))])
  }

  /** What an accepted message looks like, layer by layer. */
  predicate GoodMessage(message: Dict) {
    KindOk(message, "message") && OnlyKeys(message, MESSAGE_KEYS) && Get(message, "parts").Arr? && Get(message, "parts").items != [] &&
    RoleClass(Get(message, "role")).Some? && !Falsy(Get(message, "messageId"))
  }

  predicate GoodPart(part: Json) { PartError(part).None? && part.Obj? && OnlyKeys(part.members, PART_KEYS) }

  predicate GoodParts(parts: seq<Json>) { forall i :: 0 <= i < |parts| ==> GoodPart(parts[i]) }

  predicate GoodParams(params: Dict) {
    OnlyKeys(params, PARAMS_KEYS) && Empty(Get(params, "configuration")) && Get(params, "message").Obj?
  }

  predicate GoodRpc(rpc: Dict) { Get(rpc, "jsonrpc") == Str("2.0") && OnlyKeys(rpc, RPC_KEYS) && Get(rpc, "params").Obj? }

  /** Exactly which messages have a signed content, and what it is. */
  lemma AcceptedExactly(rpc: Dict)
    ensures CanonicalContent(rpc).Ok? <==> GoodRpc(rpc) && GoodParams(Params(rpc)) && GoodMessage(Message(rpc)) && GoodParts(Parts(rpc))
    ensures CanonicalContent(rpc).Ok? ==>
              CanonicalContent(rpc).value == Content(OrEmpty(Get(Message(rpc), "contextId")), Get(Message(rpc), "messageId"),
                OrEmpty(Get(Message(rpc), "taskId")), OrEmpty(Get(Params(rpc), "tenant")), RoleClass(Get(Message(rpc), "role")).value, Texts(Parts(rpc)))
  {
    hide OnlyKeys, Falsy, Empty, PartError, KindOk;
    NoError(Parts(rpc));
    RoleIsString(Get(Message(rpc), "role"));
  }

  lemma RoleIsString(r: Json)
    ensures RoleClass(r).Some? ==> Hashable(r)
  {
  }

  // ------------------------------------------------------------- rewrites keep content

  lemma SetKeepsOnly(m: Dict, keys: set<string>, k: string, v: Json)
    requires OnlyKeys(m, keys) && (k in keys || Empty(v))
    ensures OnlyKeys(m[k := v], keys)
  {
  }

  lemma LayersOf(rpc: Dict, message: Dict)
    ensures Params(WithMessage(rpc, message)) == Params(rpc)["message" := Obj(message)] && Message(WithMessage(rpc, message)) == message
  {
  }

  /** Changing the message alone: the layers above stay good. */
  lemma MessageChanged(rpc: Dict, message: Dict)
    requires GoodRpc(rpc) && GoodParams(Params(rpc))
    ensures var r := WithMessage(rpc, message);
            GoodRpc(r) && GoodParams(Params(r)) && Message(r) == message &&
            Get(Params(r), "tenant") == Get(Params(rpc), "tenant") && Get(r, "method") == Get(rpc, "method")
  {
    hide Empty;
    LayersOf(rpc, message);
    SetKeepsOnly(rpc, RPC_KEYS, "params", Obj(Params(rpc)["message" := Obj(message)]));
    SetKeepsOnly(Params(rpc), PARAMS_KEYS, "message", Obj(message));
  }

  lemma TaggedPart(part: Json, on: bool)
    requires GoodPart(part)
    ensures GoodPart(Obj(Tagged(part.members, on, "text"))) && TextOf(Obj(Tagged(part.members, on, "text"))) == TextOf(part)
  {
  }

  lemma LabelledPart(part: Json, v: Option<Json>)
    requires GoodPart(part) && (v.Some? ==> Empty(v.value) || PlainText(v.value))
    ensures GoodPart(Obj(Labelled(part.members, v))) && TextOf(Obj(Labelled(part.members, v))) == TextOf(part)
  {
  }

  lemma OnePartChanged(rpc: Dict, i: nat, part: Json)
    requires CanonicalContent(rpc).Ok? && i < |Parts(rpc)| && GoodPart(part) && TextOf(part) == TextOf(Parts(rpc)[i])
    ensures var r := WithParts(rpc, Parts(rpc)[i := part]);
            CanonicalContent(r) == CanonicalContent(rpc) && Get(r, "method") == Get(rpc, "method")
  {
    hide CanonicalContent, GoodPart, KindOk, Falsy;
    AcceptedExactly(rpc);
    var parts := Parts(rpc)[i := part];
    var message := Message(rpc)["parts" := Arr(parts)];
    MessageChanged(rpc, message);
    SetKeepsOnly(Message(rpc), MESSAGE_KEYS, "parts", Arr(parts));
    assert Texts(parts) == Texts(Parts(rpc));
    assert KindOk(message, "message") by { KindElsewhere(Message(rpc), "parts", Arr(parts)); }
    AcceptedExactly(WithParts(rpc, parts));
  }

  lemma KindElsewhere(m: Dict, k: string, v: Json)
    requires k != "kind"
    ensures KindOk(m[k := v], "message") == KindOk(m, "message")
  {
  }

  /** Changing the message where the signed content does not look. */
  lemma MessageFieldChanged(rpc: Dict, message: Dict)
    requires CanonicalContent(rpc).Ok? && GoodMessage(message) && Get(message, "parts") == Get(Message(rpc), "parts")
    requires RoleClass(Get(message, "role")) == RoleClass(Get(Message(rpc), "role"))
    requires forall k :: k == "messageId" || k == "contextId" || k == "taskId" ==> Get(message, k) == Get(Message(rpc), k)
    ensures CanonicalContent(WithMessage(rpc, message)) == CanonicalContent(rpc) && Get(WithMessage(rpc, message), "method") == Get(rpc, "method")
  {
    hide CanonicalContent, GoodMessage, Falsy, Texts;
    AcceptedExactly(rpc);
    MessageChanged(rpc, message);
    AcceptedExactly(WithMessage(rpc, message));
  }

  lemma TopFieldChanged(rpc: Dict, k: string, v: Json)
    requires CanonicalContent(rpc).Ok? && (k == "id" || k == "method")
    ensures CanonicalContent(rpc[k := v]) == CanonicalContent(rpc)
  {
    hide CanonicalContent, Falsy, Texts, GoodMessage, GoodParams, GoodParts, Empty;
    AcceptedExactly(rpc);
    SetKeepsOnly(rpc, RPC_KEYS, k, v);
    AcceptedExactly(rpc[k := v]);
  }

  lemma ConfigurationChanged(rpc: Dict, v: Json)
    requires CanonicalContent(rpc).Ok? && Empty(v)
    ensures CanonicalContent(Rewritten(rpc, Configure(v))) == CanonicalContent(rpc) && Get(Rewritten(rpc, Configure(v)), "method") == Get(rpc, "method")
  {
    hide CanonicalContent, Falsy, Texts, GoodMessage, GoodParts, Empty;
    AcceptedExactly(rpc);
    var params := Params(rpc)["configuration" := v];
    SetKeepsOnly(rpc, RPC_KEYS, "params", Obj(params));
    SetKeepsOnly(Params(rpc), PARAMS_KEYS, "configuration", v);
    AcceptedExactly(WithParams(rpc, params));
  }

  /** One allowed rewrite leaves the signed content and the method class as they were. */
  lemma RewriteKeeps(rpc: Dict, w: Rewrite)
    requires CanonicalContent(rpc).Ok? && Allowed(rpc, w)
    ensures CanonicalContent(Rewritten(rpc, w)) == CanonicalContent(rpc)
    ensures MethodClass(Get(Rewritten(rpc, w), "method")) == MethodClass(Get(rpc, "method"))
  {
    hide CanonicalContent, Falsy;
    AcceptedExactly(rpc);
    match w
    case NewId(id) => TopFieldChanged(rpc, "id", id);
    case Configure(v) => ConfigurationChanged(rpc, v);
    case Respell(m) => TopFieldChanged(rpc, "method", m);
    case RespellRole(r) =>
      SetKeepsOnly(Message(rpc), MESSAGE_KEYS, "role", r);
      MessageFieldChanged(rpc, Message(rpc)["role" := r]);
    case TagMessage(on) =>
      assert OnlyKeys(Tagged(Message(rpc), on, "message"), MESSAGE_KEYS);
      MessageFieldChanged(rpc, Tagged(Message(rpc), on, "message"));
    case TagPart(i, on) =>
      TaggedPart(Parts(rpc)[i], on);
      OnePartChanged(rpc, i, Obj(Tagged(Parts(rpc)[i].members, on, "text")));
    case Media(i, v) =>
      LabelledPart(Parts(rpc)[i], v);
      OnePartChanged(rpc, i, Obj(Labelled(Parts(rpc)[i].members, v)));
  }

  /** A sequence of rewrites, each allowed where it happens. */
  predicate AllowedAll(rpc: Dict, ws: seq<Rewrite>)
    decreases |ws|
  {
    ws == [] || (Allowed(rpc, ws[0]) && AllowedAll(Rewritten(rpc, ws[0]), ws[1..]))
  }

  function RewrittenAll(rpc: Dict, ws: seq<Rewrite>): Dict
    requires AllowedAll(rpc, ws)
    decreases |ws|
  {
    if ws == [] then rpc else RewrittenAll(Rewritten(rpc, ws[0]), ws[1..])
  }

  /** Whatever the gateway does within its bounds, the signed content arrives unchanged. */
  lemma {:induction false} ContentSurvives(rpc: Dict, ws: seq<Rewrite>)
    requires CanonicalContent(rpc).Ok? && AllowedAll(rpc, ws)
    ensures CanonicalContent(RewrittenAll(rpc, ws)) == CanonicalContent(rpc)
    ensures MethodClass(Get(RewrittenAll(rpc, ws), "method")) == MethodClass(Get(rpc, "method"))
    decreases |ws|
  {
    hide CanonicalContent, Rewritten, Allowed;
    if ws != [] {
      RewriteKeeps(rpc, ws[0]);
      ContentSurvives(Rewritten(rpc, ws[0]), ws[1..]);
    }
  }

  // --------------------------------------------------------------- what gets hashed

  function TextItems(texts: seq<string>): seq<Json> { seq(|texts|, i requires 0 <= i < |texts| => Str(texts[i])) }

  function ContentJson(c: Content): Json {
    Obj(map["contextId" := c.contextId, "messageId" := c.messageId, "role" := Str(c.role), "taskId" := c.taskId,
            "tenant" := c.tenant, "text" := Arr(TextItems(c.texts))])
  }

  function ContentBytes(c: Content): string { Dumps(ContentJson(c)) }

  predicate ContentOk(c: Content) { WellFormed(c.contextId) && WellFormed(c.messageId) && WellFormed(c.taskId) && WellFormed(c.tenant) }

  /** Equal canonical bytes mean equal ids, tenant, role class and texts. */
  lemma ContentInjective(c: Content, d: Content)
    requires ContentOk(c) && ContentOk(d) && ContentBytes(c) == ContentBytes(d)
    ensures c == d
  {
    hide Dumps;
    var a, b := ContentJson(c), ContentJson(d);
    ContentJsonOk(c);
    ContentJsonOk(d);
    DumpsInjective(a, b);
    var m, n := a.members, b.members;
    assert m == n;
    assert c.contextId == m["contextId"] == d.contextId && c.messageId == m["messageId"] == d.messageId;
    assert c.taskId == m["taskId"] == d.taskId && c.tenant == m["tenant"] == d.tenant && Str(c.role) == m["role"] == Str(d.role);
    assert Arr(TextItems(c.texts)) == m["text"] == Arr(TextItems(d.texts));
    SameTexts(c.texts, d.texts);
  }

  lemma ContentJsonOk(c: Content)
    requires ContentOk(c)
    ensures WellFormed(ContentJson(c))
  {
    var texts := Arr(TextItems(c.texts));
    assert forall i :: 0 <= i < |texts.items| ==> WellFormed(texts.items[i]);
    assert WellFormed(texts);
    var m := ContentJson(c).members;
    forall k | k in m ensures WellFormed(m[k]) {
      assert k == "contextId" || k == "messageId" || k == "role" || k == "taskId" || k == "tenant" || k == "text";
    }
  }

  /** A parsed request has a signed content that renders back unambiguously. */
  lemma AcceptedIsWellFormed(rpc: Dict)
    requires WellFormed(Obj(rpc)) && CanonicalContent(rpc).Ok?
    ensures ContentOk(CanonicalContent(rpc).value)
  {
    hide CanonicalContent, GoodMessage, GoodParts, Falsy;
    AcceptedExactly(rpc);
    assert WellFormed(Get(rpc, "params")) && WellFormed(Obj(Params(rpc)));
    assert WellFormed(Get(Params(rpc), "message")) && WellFormed(Obj(Message(rpc)));
  }

  lemma SameTexts(s: seq<string>, t: seq<string>)
    requires TextItems(s) == TextItems(t)
    ensures s == t
  {
    assert |s| == |TextItems(s)| == |t|;
    forall i | 0 <= i < |s| ensures s[i] == t[i] { assert TextItems(s)[i] == Str(s[i]) && TextItems(t)[i] == Str(t[i]); }
  }
}
