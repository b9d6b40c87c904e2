/** The page-bridge wire format (page_bridge/protocol.ts) and the page's end of it (`dispatchPageRequest`). */
module Envelopes {
  import opened Prelude

  const NS: string := "pwa-debug"

  datatype Request = Request(id: string, tool: string, payload: Option<Json>)

  datatype Response = Response(payload: Option<Json>, error: Option<Json>)

  /** Setting a property, unless the value is `undefined`. */
  function Put(fields: map<string, Json>, name: string, v: Option<Json>): map<string, Json> {
    if v.Some? then fields[name := v.value] else fields
  }

  function Base(dir: string, id: string): map<string, Json> {
    map["ns" := JStr(NS), "dir" := JStr(dir), "requestId" := JStr(id)]
  }

  function EncodeRequest(r: Request): Json {
    JObj(Put(Base("cs->page", r.id)["tool" := JStr(r.tool)], "payload", r.payload))
  }

  /** An error as it is sent: its message and nothing else. */
  function ErrorObject(message: Option<Json>): Json { JObj(Put(map[], "message", message)) }

  function ResponseEnvelope(id: string, r: Response): Json {
    JObj(Put(Put(Base("page->cs", id), "payload", r.payload), "error", r.error))
  }

  method EncodeResponse(id: string, payload: Option<Json>, error: Option<Option<Json>>) returns (data: Json)
    ensures data
      == ResponseEnvelope(id, Response(payload, if error.Some? then Some(ErrorObject(error.value)) else None))
  {
    var fields := Base("page->cs", id);
    if payload.Some? {
      fields := fields["payload" := payload.value];
    }
    if error.Some? {
      fields := fields["error" := ErrorObject(error.value)];
    }
    data := JObj(fields);
  }

  function EncodeEvent(event: Json): Json {
    JObj(map["ns" := JStr(NS), "dir" := JStr("page-event"), "event" := event])
  }

  predicate HasStr(fields: map<string, Json>, name: string) { name in fields && fields[name].JStr? }

  predicate Is(fields: map<string, Json>, name: string, s: string) { name in fields && fields[name] == JStr(s) }

  /** `fromWindow` is `event.source === window`. */
  predicate IsInboundCsToPage(fromWindow: bool, data: Json) {
    fromWindow && data.JObj? && Is(data.fields, "ns", NS) && Is(data.fields, "dir", "cs->page")
    && HasStr(data.fields, "requestId") && HasStr(data.fields, "tool")
  }

  predicate IsInboundPageToCs(fromWindow: bool, data: Json) {
    fromWindow && data.JObj? && Is(data.fields, "ns", NS) && Is(data.fields, "dir", "page->cs")
    && HasStr(data.fields, "requestId")
  }

  predicate IsInboundPageEvent(fromWindow: bool, data: Json) {
    fromWindow && data.JObj? && Is(data.fields, "ns", NS) && Is(data.fields, "dir", "page-event")
    && "event" in data.fields
  }

  function ReadRequest(data: Json): Request
    requires IsInboundCsToPage(true, data)
  {
    Request(data.fields["requestId"].s, data.fields["tool"].s, Field(data.fields, "payload"))
  }

  function IdOf(data: Json): string
    requires IsInboundPageToCs(true, data)
  {
    data.fields["requestId"].s
  }

  function ReadResponse(data: Json): Response
    requires IsInboundPageToCs(true, data)
  {
    Response(Field(data.fields, "payload"), Field(data.fields, "error"))
  }

  /** The page reads back the request that was sent, and the content script takes it for nothing else. */
  lemma RequestRoundTrip(r: Request)
    ensures IsInboundCsToPage(true, EncodeRequest(r)) && ReadRequest(EncodeRequest(r)) == r
    ensures !IsInboundPageToCs(true, EncodeRequest(r)) && !IsInboundPageEvent(true, EncodeRequest(r))
  {
    assert JStr("cs->page") != JStr("page->cs") by {
      assert "cs->page"[0] != "page->cs"[0];
    }
    assert JStr("cs->page") != JStr("page-event") by {
      assert "cs->page"[0] != "page-event"[0];
    }
  }

  lemma ResponseRoundTrip(id: string, r: Response)
    ensures
      var data := ResponseEnvelope(id, r);
      && IsInboundPageToCs(true, data) && IdOf(data) == id && ReadResponse(data) == r
      && !IsInboundCsToPage(true, data) && !IsInboundPageEvent(true, data)
  {
    assert JStr("cs->page") != JStr("page->cs") by {
      assert "cs->page"[0] != "page->cs"[0];
    }
    assert JStr("page->cs") != JStr("page-event") by {
      assert |"page->cs"| != |"page-event"|;
    }
  }

  lemma EventRoundTrip(event: Json)
    ensures
      var data := EncodeEvent(event);
      && IsInboundPageEvent(true, data) && data.fields["event"] == event
      && !IsInboundCsToPage(true, data) && !IsInboundPageToCs(true, data)
  {
    assert |"cs->page"| != |"page-event"| && |"page->cs"| != |"page-event"|;
  }

  /** Whatever arrives, at most one of the three guards takes it, and none takes what another window sent. */
  lemma GuardsExclusive(fromWindow: bool, data: Json)
    ensures !(IsInboundCsToPage(fromWindow, data) && IsInboundPageToCs(fromWindow, data))
    ensures !(IsInboundCsToPage(fromWindow, data) && IsInboundPageEvent(fromWindow, data))
    ensures !(IsInboundPageToCs(fromWindow, data) && IsInboundPageEvent(fromWindow, data))
    ensures !fromWindow ==> !IsInboundCsToPage(fromWindow, data)
    ensures !fromWindow ==> !IsInboundPageToCs(fromWindow, data) && !IsInboundPageEvent(fromWindow, data)
  {}

  /** Every field of the encoded request, and possibly more. */
  predicate Carries(data: Json, r: Request) {
    && data.JObj?
    && forall k :: k in EncodeRequest(r).fields ==> k in data.fields && data.fields[k] == EncodeRequest(r).fields[k]
  }

  lemma CarriersAreRequests(data: Json, r: Request)
    requires Carries(data, r)
    ensures IsInboundCsToPage(true, data)
  {
    var f := EncodeRequest(r).fields;
    assert "ns" in f && "dir" in f && "requestId" in f && "tool" in f;
  }

  /** A message is taken for a request exactly when it carries some encoded request. */
  lemma RequestGuardIff(fromWindow: bool, data: Json)
    ensures IsInboundCsToPage(fromWindow, data) <==> fromWindow && exists r :: Carries(data, r)
  {
    if IsInboundCsToPage(fromWindow, data) {
      assert Carries(data, ReadRequest(data));
    }
    if r :| Carries(data, r) {
      CarriersAreRequests(data, r);
    }
  }

  /** Taken for a response: a message from the window itself with the namespace, the direction and a text for an id. */
  lemma ResponseGuardIff(fromWindow: bool, data: Json)
    ensures IsInboundPageToCs(fromWindow, data)
       <==> && fromWindow && data.JObj?
            && exists id :: Field(data.fields, "ns") == Some(JStr("pwa-debug"))
                            && Field(data.fields, "dir") == Some(JStr("page->cs"))
                            && Field(data.fields, "requestId") == Some(JStr(id))
  {
    if IsInboundPageToCs(fromWindow, data) {
      assert Field(data.fields, "requestId") == Some(JStr(IdOf(data)));
    }
  }

  // ---------------------------------------------------------------- the page's end

  /** How a handler can end; what it threw may have no `message`, or not even be an object to ask for one. */
  datatype Outcome = Resolved(payload: Option<Json>) | Rejected(message: Option<Json>) | RejectedWithNothing

  function UnknownTool(tool: string): Response {
    Response(None, Some(ErrorObject(Some(JStr("unknown tool: " + tool)))))
  }

  /** The response a request for `tool` deserves; None when answering itself throws. */
  function Answer(known: set<string>, tool: string, o: Outcome): Option<Response> {
    if tool !in known then Some(UnknownTool(tool))
    else
      match o
      case Resolved(payload) => Some(Response(payload, None))
      case Rejected(message) => Some(Response(None, Some(ErrorObject(message))))
      case RejectedWithNothing => None
  }

  /** `dispatchPageRequest`: `known` are the names the handler table answers to. */
  method DispatchPageRequest(known: set<string>, data: Json, o: Outcome) returns (reply: Option<Json>)
    requires IsInboundCsToPage(true, data)
    ensures
      var r := ReadRequest(data);
      reply == match Answer(known, r.tool, o) case None => None case Some(a) => Some(ResponseEnvelope(r.id, a))
  {
    var id, tool := data.fields["requestId"].s, data.fields["tool"].s;
    if tool !in known {
      var e := EncodeResponse(id, None, Some(Some(JStr("unknown tool: " + tool))));
      return Some(e);
    }
    match o
    case Resolved(payload) =>
      var e := EncodeResponse(id, payload, None);
      return Some(e);
    case Rejected(message) =>
      var e := EncodeResponse(id, None, Some(message));
      return Some(e);
    case RejectedWithNothing =>
      return None;
  }
}
