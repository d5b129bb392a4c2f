/** Building one ResponseComplete audit event from a proxied exchange. */
module AuditEvents {
  import opened Bytes
  import opened HeaderMaps
  import opened CommaLists
  import opened BackendIdentity
  import opened ProxyHeaders

  const REAL_IP: bytes := "X-Real-IP"
  const AUDIT_ID: bytes := "Audit-ID"
  const USER_AGENT: bytes := "User-Agent"
  const ANNOTATION_PREFIX: bytes := "audit-pass-through.configbutler.io/"
  const REQUEST_TRUNCATED: bytes := ANNOTATION_PREFIX + "request-truncated"
  const CAPTURED_KEY: bytes := "{\"capturedBytes\":"
  const SIZE_KEY: bytes := "\"originalSizeBytes\":"
  const TRUNCATED_PAIR: bytes := "\"truncated\":true}"
  const RESPONSE_TRUNCATED: bytes := ANNOTATION_PREFIX + "response-truncated"

  datatype RequestInfo = RequestInfo(
    isResourceRequest: bool, verb: bytes, apiGroup: bytes, apiVersion: bytes,
    resource: bytes, subresource: bytes, namespace: bytes, name: bytes)

  datatype ObjectMeta = ObjectMeta(name: bytes, namespace: bytes, uid: bytes, resourceVersion: bytes)

  datatype ObjectReference = ObjectReference(
    apiGroup: bytes, apiVersion: bytes, resource: bytes, subresource: bytes,
    name: bytes, namespace: bytes, uid: bytes, resourceVersion: bytes)

  /** A Kubernetes Status document, as far as the builder looks at it. */
  datatype Status = Status(apiVersion: bytes, code: int)

  /** encoding/json, not part of this model: validity, the metadata of a document, and the Status it may be. */
  datatype Json = Json(valid: bytes -> bool, metaOf: bytes -> Option<ObjectMeta>, statusOf: bytes -> Option<Status>)

  datatype Request = Request(headers: HeaderMap, remoteAddr: bytes, uri: bytes)

  /** The bytes kept of a body, its full length, and whether it was longer than the limit. */
  datatype Captured = Captured(bytes: bytes, size: nat, truncated: bool)

  /** What the spool keeps of `body` under a limit of `max` bytes; a limit of zero or less keeps nothing. */
  function Capture(body: bytes, max: int): Captured {
    Captured(if max <= 0 then [] else body[..Min(|body|, max)], |body|, |body| > max)
  }

  datatype Input = Input(
    request: Option<Request>, info: Option<RequestInfo>, user: UserInfo,
    requestBody: Captured, responseBody: Captured, statusCode: int, freshAuditID: bytes)

  datatype Event = Event(
    auditID: bytes, uri: bytes, verb: bytes, user: UserInfo, userAgent: bytes, sourceIPs: seq<bytes>,
    status: Status, objectRef: Option<ObjectReference>,
    requestObject: Option<bytes>, responseObject: Option<bytes>, annotations: set<bytes>)

  datatype Result<+T> = Ok(value: T) | Err(message: string)

  // ----- Source addresses

  /** The list without repeats, each value where it first occurs. */
  function Dedup(s: seq<bytes>): seq<bytes> {
    if s == [] then []
    else
      var before := Dedup(s[..|s| - 1]);
      if s[|s| - 1] in before then before else before + [s[|s| - 1]]
  }

  function SourceIPs(h: HeaderMap, peerHost: bytes): seq<bytes> {
    Dedup(ForwardedTokens(h) + Clean([Get(h, REAL_IP)]) + Clean([peerHost]))
  }

  method AppendIP(seen: set<bytes>, ips: seq<bytes>, value: bytes, ghost parts: seq<bytes>)
    returns (seen': set<bytes>, ips': seq<bytes>)
    requires ips == Dedup(Clean(parts)) && (forall ip :: ip in seen <==> ip in ips)
    ensures ips' == Dedup(Clean(parts + [value])) && (forall ip :: ip in seen' <==> ip in ips')
  {
    assert (parts + [value])[..|parts|] == parts;
    var trimmed := Trim(value);
    if trimmed == "" || trimmed in seen {
      return seen, ips;
    }
    return seen + {trimmed}, ips + [trimmed];
  }

  method CollectSourceIPs(request: Request, hostOf: bytes -> Option<bytes>) returns (ips: seq<bytes>)
    ensures ips == SourceIPs(request.headers, PeerHost(request.remoteAddr, hostOf))
  {
    hide Trim, Split;
    var seen: set<bytes> := {};
    ips := [];
    var parts := Split(Get(request.headers, FORWARDED_FOR), ',');
    for i := 0 to |parts|
      invariant ips == Dedup(Clean(parts[..i])) && forall ip :: ip in seen <==> ip in ips
    {
      assert parts[..i + 1] == parts[..i] + [parts[i]];
      seen, ips := AppendIP(seen, ips, parts[i], parts[..i]);
    }
    assert parts[..|parts|] == parts;
    ghost var realIP := [Get(request.headers, REAL_IP)];
    seen, ips := AppendIP(seen, ips, Get(request.headers, REAL_IP), parts);
    match hostOf(request.remoteAddr) {
      case Some(host) => seen, ips := AppendIP(seen, ips, host, parts + realIP);
      case None => seen, ips := AppendIP(seen, ips, request.remoteAddr, parts + realIP);
    }
    ghost var host := [PeerHost(request.remoteAddr, hostOf)];
    CleanConcat(parts, realIP);
    CleanConcat(parts + realIP, host);
  }

  // ----- Bodies

  function Digits(n: nat): bytes {
    (if n < 10 then "" else Digits(n / 10)) + [(48 + n % 10) as char]
  }

  /** The JSON document that stands in for a truncated body; encoding/json writes the keys in this order. */
  function Placeholder(originalSize: nat, captured: nat): bytes {
    CAPTURED_KEY + Digits(captured) + "," + SIZE_KEY + Digits(originalSize) + "," + TRUNCATED_PAIR
  }

  /** The audit object for a captured body, and whether it is a truncation placeholder. */
  function BuildUnknown(json: Json, body: Captured): (Option<bytes>, bool) {
    if IsBlank(body.bytes) then (None, false)
    else if body.truncated then (Some(Placeholder(body.size, |body.bytes|)), true)
    else if !json.valid(body.bytes) then (None, false)
    else (Some(body.bytes), false)
  }

  // ----- The event

  function FirstNonEmpty(values: seq<bytes>): (r: bytes)
    ensures IsBlank(r) <==> forall i :: 0 <= i < |values| ==> IsBlank(values[i])
    ensures IsBlank(r) ==> r == ""
    ensures !IsBlank(r) ==> exists i :: 0 <= i < |values| && r == values[i] && forall j :: 0 <= j < i ==> IsBlank(values[j])
  {
    if values == [] then assert IsBlank(""); ""
    else if Trim(values[0]) != "" then values[0]
    else
      var r := FirstNonEmpty(values[1..]);
      assert forall i :: 1 <= i < |values| ==> values[i] == values[1..][i - 1];
      r
  }

  function DecodeObjectMeta(json: Json, body: bytes): ObjectMeta {
    if IsBlank(body) then ObjectMeta("", "", "", "")
    else match json.metaOf(body) case Some(meta) => meta case None => ObjectMeta("", "", "", "")
  }

  function BuildObjectReference(info: RequestInfo, requestMeta: ObjectMeta, responseMeta: ObjectMeta): ObjectReference {
    ObjectReference(
      info.apiGroup, info.apiVersion, info.resource, info.subresource,
      FirstNonEmpty([info.name, requestMeta.name, responseMeta.name]),
      FirstNonEmpty([info.namespace, requestMeta.namespace, responseMeta.namespace]),
      FirstNonEmpty([responseMeta.uid, requestMeta.uid]),
      FirstNonEmpty([responseMeta.resourceVersion, requestMeta.resourceVersion]))
  }

  function BuildResponseStatus(json: Json, code: int, body: bytes): Status {
    match if IsBlank(body) then None else json.statusOf(body)
    case Some(status) =>
      Status(if status.apiVersion == "" then "v1" else status.apiVersion, if status.code == 0 then code else status.code)
    case None => Status("", code)
  }

  function AuditID(h: HeaderMap, freshAuditID: bytes): bytes {
    if IsBlank(Get(h, AUDIT_ID)) then freshAuditID else Trim(Get(h, AUDIT_ID))
  }

  function Annotated(annotations: set<bytes>, truncated: bool, name: bytes): set<bytes> {
    if truncated then annotations + {name} else annotations
  }

  function BuiltEvent(json: Json, hostOf: bytes -> Option<bytes>, input: Input): Event
    requires input.request.Some? && input.info.Some?
  {
    var request, info := input.request.value, input.info.value;
    var (requestObject, requestTruncated) := BuildUnknown(json, input.requestBody);
    var (responseObject, responseTruncated) := BuildUnknown(json, input.responseBody);
    Event(
      AuditID(request.headers, input.freshAuditID), request.uri, info.verb, input.user, Get(request.headers, USER_AGENT),
      SourceIPs(request.headers, PeerHost(request.remoteAddr, hostOf)),
      BuildResponseStatus(json, input.statusCode, input.responseBody.bytes),
      if info.isResourceRequest then
        Some(BuildObjectReference(info, DecodeObjectMeta(json, input.requestBody.bytes), DecodeObjectMeta(json, input.responseBody.bytes)))
      else None,
      requestObject, responseObject,
      Annotated(Annotated({}, requestTruncated, REQUEST_TRUNCATED), responseTruncated, RESPONSE_TRUNCATED))
  }

  /** Build fails only for a missing request or request info. */
  method Build(json: Json, hostOf: bytes -> Option<bytes>, input: Input) returns (r: Result<Event>)
    ensures r.Ok? <==> input.request.Some? && input.info.Some?
    ensures r.Ok? ==> r.value == BuiltEvent(json, hostOf, input)
  {
    if input.request.None? {
      return Err("request is required");
    }
    if input.info.None? {
      return Err("request info is required");
    }
    var request, info := input.request.value, input.info.value;
    var requestMeta := DecodeObjectMeta(json, input.requestBody.bytes);
    var responseMeta := DecodeObjectMeta(json, input.responseBody.bytes);
    var sourceIPs := CollectSourceIPs(request, hostOf);
    var event := Event(
      AuditID(request.headers, input.freshAuditID), request.uri, info.verb, input.user, Get(request.headers, USER_AGENT),
      sourceIPs, BuildResponseStatus(json, input.statusCode, input.responseBody.bytes), None, None, None, {});
    if info.isResourceRequest {
      event := event.(objectRef := Some(BuildObjectReference(info, requestMeta, responseMeta)));
    }
    var (requestObject, requestTruncated) := BuildUnknown(json, input.requestBody);
    if requestObject.Some? {
      event := event.(requestObject := requestObject);
    }
    var (responseObject, responseTruncated) := BuildUnknown(json, input.responseBody);
    if responseObject.Some? {
      event := event.(responseObject := responseObject);
    }
    if requestTruncated {
      event := event.(annotations := event.annotations + {REQUEST_TRUNCATED});
    }
    if responseTruncated {
      event := event.(annotations := event.annotations + {RESPONSE_TRUNCATED});
    }
    return Ok(event);
  }
}
