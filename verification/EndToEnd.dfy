/** One audited exchange seen from outside: what the event says against what the backend and the client saw. */
module EndToEnd {
  import opened Bytes
  import opened AuditEvents
  import opened AuditedExchange
  import opened BodySpool
  import AuditLifecycle
  import BackendIdentity
  import CommaLists
  import EventFidelity
  import HeaderKeyCodec
  import HeaderMaps
  import ImpersonationRoundTrip
  import ProxyHeaders
  import RequestFates
  import RequestIdentity
  import UpstreamHeaders

  /** The reply's own code, unless the captured body is a Status: then its version, or "v1", and its code if it has one. */
  predicate TellsStatus(json: Json, status: Status, code: int, captured: bytes) {
    if CommaLists.IsBlank(captured) || json.statusOf(captured).None? then status == Status("", code)
    else
      var document := json.statusOf(captured).value;
      && (document.apiVersion != "" ==> status.apiVersion == document.apiVersion)
      && (document.apiVersion == "" ==> status.apiVersion == "v1")
      && (document.code != 0 ==> status.code == document.code)
      && (document.code == 0 ==> status.code == code)
  }

  /** There is a reference exactly for a request for a resource, and path and captured bodies say to what. */
  ghost predicate TellsObject(json: Json, ref: Option<ObjectReference>, info: RequestInfo, request: bytes, response: bytes) {
    && (ref.Some? <==> info.isResourceRequest)
    && (ref.Some? ==> EventFidelity.RefersTo(json, ref.value, info, request, response))
  }

  /** The client's audit ID, or else a fresh one, and its user agent. */
  predicate TellsClient(event: Event, h: HeaderMaps.HeaderMap, freshAuditID: bytes) {
    var given := CommaLists.Trim(HeaderMaps.Get(h, "Audit-ID"));
    && (given != "" ==> event.auditID == given)
    && (given == "" ==> event.auditID == freshAuditID)
    && event.userAgent == HeaderMaps.Get(h, "User-Agent")
  }

  ghost predicate TellsAddresses(ips: seq<bytes>, config: ExchangeConfig, request: Request) {
    exists peer ::
      EventFidelity.IsPeer(peer, request.remoteAddr, config.hostOf) && EventFidelity.AddressesAre(ips, request.headers, peer)
  }

  /** What an event tells of an exchange: who did what to which object, both bodies, the outcome, and from where. */
  ghost predicate Tells(event: Event, json: Json, config: ExchangeConfig, arrival: Arrival, info: RequestInfo,
                        user: BackendIdentity.UserInfo, reply: Reply, freshAuditID: bytes)
  {
    var request, response, max := Content(arrival.script), Content(reply.script), config.maxCaptureBytes;
    && event.user == user && event.verb == info.verb && event.uri == arrival.request.uri
    && TellsClient(event, arrival.request.headers, freshAuditID)
    && TellsObject(json, event.objectRef, info, Capture(request, max).bytes, Capture(response, max).bytes)
    && EventFidelity.Shows(json, event.requestObject, "audit-pass-through.configbutler.io/" + "request-truncated" in event.annotations,
                           request, max)
    && EventFidelity.Shows(json, event.responseObject, "audit-pass-through.configbutler.io/" + "response-truncated" in event.annotations,
                           response, max)
    && TellsStatus(json, event.status, reply.status, Capture(response, max).bytes)
    && TellsAddresses(event.sourceIPs, config, arrival.request)
  }

  /** The event built from a relayed exchange tells of it. */
  lemma EventTells(json: Json, config: ExchangeConfig, arrival: Arrival, info: RequestInfo, user: BackendIdentity.UserInfo,
                   exchange: Exchange)
    requires exchange.ExchangeRelayed?
    ensures var event := BuiltEvent(json, config.hostOf, InputOf(config, arrival, info, user, exchange));
            Tells(event, json, config, arrival, info, user, exchange.reply, exchange.auditID)
  {
    hide Content, Capture, EventFidelity.Shows, ProxyHeaders.PeerHost, TellsStatus, TellsAddresses, SourceIPs, CommaLists.Trim,
         HeaderMaps.Get, EventFidelity.RefersTo, BuiltEvent;
    var input := InputOf(config, arrival, info, user, exchange);
    EventFidelity.EventBodiesAreFaithful(json, config.hostOf, input, Content(arrival.script), Content(exchange.reply.script),
                                         config.maxCaptureBytes);
    EventFidelity.ReferenceIsExact(json, config.hostOf, input);
    EventFidelity.ClientIsNamed(json, config.hostOf, input);
    FieldsTell(json, config, input);
  }

  lemma FieldsTell(json: Json, config: ExchangeConfig, input: Input)
    requires input.request.Some? && input.info.Some?
    ensures var event, request := BuiltEvent(json, config.hostOf, input), input.request.value;
            && event.user == input.user && event.verb == input.info.value.verb && event.uri == request.uri
            && TellsStatus(json, event.status, input.statusCode, input.responseBody.bytes)
            && TellsAddresses(event.sourceIPs, config, request)
  {
    hide SourceIPs, ProxyHeaders.PeerHost, BuildUnknown, BuildObjectReference, AuditID, DecodeObjectMeta, TellsStatus, BuildResponseStatus,
         EventFidelity.IsPeer, EventFidelity.AddressesAre, HeaderMaps.Get;
    var request := input.request.value;
    StatusTells(json, input.statusCode, input.responseBody.bytes);
    var peer := ProxyHeaders.PeerHost(request.remoteAddr, config.hostOf);
    EventFidelity.PeerHostIsPeer(request.remoteAddr, config.hostOf);
    EventFidelity.AddressesInOrder(request.headers, peer);
  }

  lemma StatusTells(json: Json, code: int, body: bytes)
    ensures TellsStatus(json, BuildResponseStatus(json, code, body), code, body)
  {
    hide CommaLists.IsBlank;
  }

  /** The headers the backend is sent are made from the request, its peer and its verified user, name by name. */
  ghost predicate BackendSent(config: ExchangeConfig, arrival: Arrival, user: BackendIdentity.UserInfo, sent: Sent) {
    exists peer ::
      && EventFidelity.IsPeer(peer, arrival.request.remoteAddr, config.hostOf)
      && UpstreamHeaders.IsWhatBackendGets(sent.headers, config.mode, arrival.request.headers, peer, user)
  }

  lemma UpstreamIsSent(config: ExchangeConfig, arrival: Arrival, user: BackendIdentity.UserInfo, sent: Sent)
    requires ProxyHeaders.IsUpstream(sent.headers, config.mode, arrival.request.headers, arrival.PeerHost(config), user)
    ensures BackendSent(config, arrival, user, sent)
  {
    hide ProxyHeaders.IsUpstream, ProxyHeaders.PeerHost, UpstreamHeaders.IsWhatBackendGets, EventFidelity.IsPeer;
    var peer := arrival.PeerHost(config);
    EventFidelity.PeerHostIsPeer(arrival.request.remoteAddr, config.hostOf);
    UpstreamHeaders.UpstreamIsWhatBackendGets(sent.headers, config.mode, arrival.request.headers, peer, user);
  }

  /** The addresses an event reports are those of the list sent upstream exactly under the condition on the inbound request. */
  lemma EventMatchesExchange(json: Json, config: ExchangeConfig, arrival: Arrival, info: RequestInfo,
                             user: BackendIdentity.UserInfo, exchange: Exchange)
    requires exchange.ExchangeRelayed? && CanMake(config, arrival, user, exchange)
    ensures var event := BuiltEvent(json, config.hostOf, InputOf(config, arrival, info, user, exchange));
            && Tells(event, json, config, arrival, info, user, exchange.reply, exchange.auditID)
            && BackendSent(config, arrival, user, exchange.sent)
            && (event.sourceIPs == EventAddresses(exchange.sent)
                <==> AddressesAgree(config, arrival))
  {
    hide Tells, BackendSent, BuiltEvent, ProxyHeaders.IsUpstream, Carries, SourceIPs, ProxyHeaders.PeerHost, Content;
    EventTells(json, config, arrival, info, user, exchange);
    UpstreamAddresses(config, arrival, user, exchange.sent);
    UpstreamIsSent(config, arrival, user, exchange.sent);
    BuiltSourceIPs(json, config, arrival, info, user, exchange);
  }

  /** The addresses of the whole forwarding list the backend was sent, each once. */
  function EventAddresses(sent: Sent): seq<bytes> {
    Dedup(ProxyHeaders.AllForwardedTokens(sent.headers))
  }

  ghost predicate AddressesAgree(config: ExchangeConfig, arrival: Arrival) {
    ',' !in arrival.PeerHost(config) && EventFidelity.AddressesPassedOn(arrival.request.headers, arrival.PeerHost(config))
  }

  lemma BuiltSourceIPs(json: Json, config: ExchangeConfig, arrival: Arrival, info: RequestInfo, user: BackendIdentity.UserInfo,
                       exchange: Exchange)
    requires exchange.ExchangeRelayed?
    ensures BuiltEvent(json, config.hostOf, InputOf(config, arrival, info, user, exchange)).sourceIPs
            == SourceIPs(arrival.request.headers, arrival.PeerHost(config))
  {
    hide SourceIPs, ProxyHeaders.PeerHost, Content, Capture, BuildUnknown, BuildObjectReference, BuildResponseStatus, AuditID;
  }

  lemma UpstreamAddresses(config: ExchangeConfig, arrival: Arrival, user: BackendIdentity.UserInfo, sent: Sent)
    requires ProxyHeaders.IsUpstream(sent.headers, config.mode, arrival.request.headers, arrival.PeerHost(config), user)
    ensures SourceIPs(arrival.request.headers, arrival.PeerHost(config)) == EventAddresses(sent) <==> AddressesAgree(config, arrival)
  {
    hide SourceIPs, ProxyHeaders.IsUpstream, ProxyHeaders.PeerHost, ProxyHeaders.AllForwardedTokens, Dedup, EventFidelity.AddressesPassedOn;
    EventFidelity.SourceIPsAgreeWithForwarding(sent.headers, config.mode, arrival.request.headers, arrival.PeerHost(config), user);
  }

  /**
   In impersonation mode the backend acts for the user the event names, as far as the configuration lets
   that user through, exactly when no carried extra key has an upper-case letter; name and groups always agree.
   */
  lemma BackendActsForTheAuditedUser(json: Json, config: ExchangeConfig, arrival: Arrival, info: RequestInfo,
                                     user: BackendIdentity.UserInfo, exchange: Exchange, read: seq<bytes>)
    requires config.mode.Impersonation? && exchange.ExchangeRelayed? && CanMake(config, arrival, user, exchange)
    requires Enumerates(read, exchange.sent.headers.Keys)
    ensures var audited := BuiltEvent(json, config.hostOf, InputOf(config, arrival, info, user, exchange)).user;
            var acting := ImpersonationRoundTrip.Decode(exchange.sent.headers, read);
            && acting.username == audited.username
            && acting.groups == audited.groups
            && (acting == ImpersonationRoundTrip.Projection(config.mode.imp, audited)
                <==> forall key :: ImpersonationRoundTrip.Carried(config.mode.imp, audited.extra, key) ==> !HasUpper(key))
  {
    var proxied := ProxyHeaders.Proxied(arrival.request.headers, arrival.PeerHost(config));
    var sent :| Enumerates(sent, user.extra.Keys)
                && exchange.sent.headers == BackendIdentity.Impersonated(config.mode.imp, proxied, user, sent);
    ImpersonationRoundTrip.RoundTripForLowerCaseKeys(config.mode.imp, proxied, user, sent, read);
    BuiltUser(json, config, arrival, info, user, exchange);
  }

  /** An authenticator whose answer depends on the X-Remote-* headers alone. */
  ghost predicate ReadsRemoteOnly(a: RequestIdentity.Authenticator) {
    forall h1, h2 :: ProxyHeaders.RemoteHeaders(h1) == ProxyHeaders.RemoteHeaders(h2) ==> a.decide(h1) == a.decide(h2)
  }

  ghost predicate Verifies(a: RequestIdentity.Authenticator, h: HeaderMaps.HeaderMap, user: BackendIdentity.UserInfo) {
    RequestIdentity.Extracted(Some(a), h) == RequestIdentity.Extraction(user, true, false)
  }

  /** The authenticator that knows the X-Remote-* headers of `h` to stand for `user`, and nothing else. */
  ghost function KnowsOnly(h: HeaderMaps.HeaderMap, user: BackendIdentity.UserInfo): RequestIdentity.Authenticator {
    RequestIdentity.Authenticator(
      other => if ProxyHeaders.RemoteHeaders(other) == ProxyHeaders.RemoteHeaders(h)
               then RequestIdentity.Answer(true, Some(user)) else RequestIdentity.Error("unknown"),
      other => other)
  }

  lemma SameIdentityExactly(h: HeaderMaps.HeaderMap, sent: HeaderMaps.HeaderMap, user: BackendIdentity.UserInfo)
    ensures (forall a | ReadsRemoteOnly(a) && Verifies(a, h, user) :: Verifies(a, sent, user))
            <==> ProxyHeaders.RemoteHeaders(sent) == ProxyHeaders.RemoteHeaders(h)
  {
    hide ProxyHeaders.RemoteHeaders;
    if ProxyHeaders.RemoteHeaders(sent) != ProxyHeaders.RemoteHeaders(h) {
      var a := KnowsOnly(h, user);
      assert ReadsRemoteOnly(a) && Verifies(a, h, user) && !Verifies(a, sent, user);
    }
  }

  /**
   In request-header mode every authenticator by which the X-Remote-* headers of the request stand for the user the event
   names finds that same user in what the backend was sent, exactly when no Connection value nominates such a header.
   */
  lemma BackendVerifiesTheAuditedUser(json: Json, config: ExchangeConfig, arrival: Arrival, info: RequestInfo,
                                      user: BackendIdentity.UserInfo, exchange: Exchange)
    requires config.mode.RequestHeader? && exchange.ExchangeRelayed? && CanMake(config, arrival, user, exchange)
    ensures var audited := BuiltEvent(json, config.hostOf, InputOf(config, arrival, info, user, exchange)).user;
            (forall a | ReadsRemoteOnly(a) && Verifies(a, arrival.request.headers, audited) ::
               Verifies(a, exchange.sent.headers, audited))
            <==> !ProxyHeaders.IdentityNominated(arrival.request.headers)
  {
    BuiltUser(json, config, arrival, info, user, exchange);
    hide BuiltEvent, InputOf, ReadsRemoteOnly, Verifies, ProxyHeaders.RemoteHeaders, ProxyHeaders.IdentityNominated,
         ProxyHeaders.IsUpstream, ProxyHeaders.PeerHost, Content, Carries;
    ProxyHeaders.RemoteHeadersReachBackend(exchange.sent.headers, arrival.request.headers, arrival.PeerHost(config), user);
    SameIdentityExactly(arrival.request.headers, exchange.sent.headers, user);
  }

  lemma BuiltUser(json: Json, config: ExchangeConfig, arrival: Arrival, info: RequestInfo, user: BackendIdentity.UserInfo,
                  exchange: Exchange)
    requires exchange.ExchangeRelayed?
    ensures BuiltEvent(json, config.hostOf, InputOf(config, arrival, info, user, exchange)).user == user
  {
    hide SourceIPs, ProxyHeaders.PeerHost, Content, Capture, BuildUnknown, BuildObjectReference, BuildResponseStatus, AuditID;
  }

  // ----- One request from body to event

  /** The form in which net/http delivers a header map. */
  ghost predicate InCanonicalForm(h: HeaderMaps.HeaderMap) {
    forall name :: name in h ==> HeaderKeyCodec.Canonical(name) == name && h[name] != []
  }

  /** A client that had no headers has exactly the end-to-end headers of the reply, each list in order. */
  lemma FreshClientGetsTheHeaders(got: Response, header: HeaderMaps.HeaderMap, body: bytes, reply: Reply, copied: nat)
    requires Carries(got, header, body, reply, copied)
    ensures header == map[] && InCanonicalForm(reply.headers) ==> got.headers == ProxyHeaders.HopByHopRemoved(reply.headers)
  {
    hide HeaderKeyCodec.Canonical, Content, ProxyHeaders.WithCopied, ProxyHeaders.HopByHopNames, ProxyHeaders.Nominated;
    var endToEnd := ProxyHeaders.HopByHopRemoved(reply.headers);
    var order :| Enumerates(order, endToEnd.Keys) && got.headers == ProxyHeaders.WithCopied(header, endToEnd, order);
    if header == map[] && InCanonicalForm(reply.headers) {
      ProxyHeaders.CopyToEmptyIsExact(endToEnd, order);
    }
  }

  /**
   serveAudited and the sender it leaves behind, one after the other: an event is built exactly if nothing fails before the
   response goes out; it tells of the exchange the backend and the client saw, and the response is what it was before
   the event was built. Otherwise nothing is counted. No file or handle is kept.
   */
  method ServeAndReport(fs: FileSystem, config: ExchangeConfig, json: Json, r: Inbound, transport: Transport, w: ClientWriter,
                        metrics: AuditLifecycle.AuditMetrics, freshAuditID: bytes, delivered: bool)
    returns (event: Option<Event>, ghost copied: nat)
    requires fs.Valid() && w.Valid() && w.statusCode == 0 && r.header != w.header && r.body.counter == w.counter
    requires transport.reply.Some? ==> transport.reply.value.status != 0
    modifies fs, transport, r.body, w`statusCode, w`body, w.header, w.counter, metrics
    ensures fs.Valid() && fs.open == old(fs.open)
    ensures OnlyStuckLeft(old(fs.files), fs.stuck, fs.files) && (fs.stuck == {} ==> fs.files == old(fs.files))
    ensures event.Some? <==> Relays(fs, old(fs.clock), old(r.body.script), transport.reply)
    ensures event.None? ==>
              && (if Spools(fs, old(fs.clock), old(r.body.script)) then AnsweredWith(w, 502, "Bad Gateway" + "\n", old(w.body))
                  else AnsweredWith(w, 400, "Bad Request" + "\n", old(w.body)))
              && metrics.auditEvents == old(metrics.auditEvents) && metrics.deliveries == old(metrics.deliveries)
    ensures var arrival := old(r.Arrived());
            if !Sends(fs, old(fs.clock), arrival.script) then transport.sent == old(transport.sent)
            else
              && BackendGot(transport.sent, transport.drains, config.mode, arrival.request.headers, arrival.PeerHost(config), r.user,
                            Content(arrival.script))
              && BackendSent(config, arrival, r.user, transport.sent)
    ensures event.Some? ==>
              var arrival, reply := old(r.Arrived()), transport.reply.value;
              && Tells(event.value, json, config, arrival, r.info, r.user, reply, freshAuditID)
              && ClientGot(w, old(w.header.fields), old(w.body), reply, copied)
              && (event.value.sourceIPs == EventAddresses(transport.sent) <==> AddressesAgree(config, arrival))
              && metrics.auditEvents == AuditLifecycle.Bump(AuditLifecycle.Bump(old(metrics.auditEvents), AuditLifecycle.Built),
                                                            AuditLifecycle.SendOutcome(delivered))
              && metrics.deliveries == AuditLifecycle.Bump(old(metrics.deliveries), AuditLifecycle.SendOutcome(delivered))
    ensures event.Some? && old(w.header.fields) == map[] && InCanonicalForm(transport.reply.value.headers) ==>
              w.header.fields == ProxyHeaders.HopByHopRemoved(transport.reply.value.headers)
    ensures event.Some? ==>
              var response := transport.reply.value.script;
              (copied == |Content(response)| <==>
               Delivers(fs, old(fs.clock) + RelayOperations(old(r.body.script), response), |Content(response)|,
                        |old(w.body)|, w.accepts))
    ensures event.Some? && AreClientSeries(r.body.series, w.series) ==>
              var request, response := |Content(old(r.body.script))|, |Content(transport.reply.value.script)|;
              BytesConserved(old(w.counter.totals), w.counter.totals, r.body.series, w.series, request, response,
                             transport.sent, transport.drains, copied == response)
  {
    hide Content, Capture, Carries, Writes, Spools, Delivers, OnlyStuckLeft, BytesConserved, CanMake, FileSystem.Valid, Tells, BuiltEvent,
         SourceIPs, ProxyHeaders.IsUpstream, ProxyHeaders.PeerHost, ProxyHeaders.HopByHopRemoved, AuditLifecycle.Bump, AddressesAgree,
         EventAddresses, Relayed, InCanonicalForm, BackendSent;
    var job;
    job, copied := ServeAudited(fs, config, r, transport, w, freshAuditID);
    if Sends(fs, old(fs.clock), old(r.body.script)) {
      UpstreamIsSent(config, old(r.Arrived()), r.user, transport.sent);
    }
    RelaysInTurn(fs, old(fs.clock), old(r.body.script), transport.reply);
    event := None;
    if job.Some? {
      ghost var arrival, exchange := old(r.Arrived()), ExchangeOf(true, transport, w, freshAuditID);
      event := metrics.BuildAndSendAuditEvent(AuditLifecycle.HandlerConfig(config, json, true), job.value, delivered);
      EventTells(json, config, arrival, r.info, r.user, exchange);
      UpstreamAddresses(config, arrival, r.user, transport.sent);
      BuiltSourceIPs(json, config, arrival, r.info, r.user, exchange);
      FreshClientGetsTheHeaders(exchange.response, old(w.header.fields), old(w.body), exchange.reply, copied);
    }
  }

  const EMPTY_BODY := [Read([], Eof)]

  const EMPTY_REPLY := Reply(200, map[], EMPTY_BODY)

  lemma OneFaultDecides(fs: FileSystem, fault: nat)
    requires fs.faults == {fault}
    ensures Spools(fs, 0, EMPTY_BODY) <==> fault >= 2
    ensures Relays(fs, 0, EMPTY_BODY, Some(EMPTY_REPLY)) <==> fault >= 6
  {
    NoPieces();
    assert Writes(EMPTY_BODY) == 0 && Ending(EMPTY_BODY) == Eof;
    assert fs.Faultless(0, 6) <==> fault >= 6;
  }

  lemma CarriesStatus(got: Response, header: HeaderMaps.HeaderMap, body: bytes, reply: Reply, copied: nat)
    requires Carries(got, header, body, reply, copied)
    ensures got.status == reply.status
  {
    hide ProxyHeaders.HopByHopRemoved, Content;
  }

  /**
   Concretely: two empty bodies, and the one file operation `fault` fails. The first two leave 400 and no event, the next four
   502 and no event; from the seventh on the response has gone out, and there is an event.
   */
  method OneFault(json: Json, config: ExchangeConfig, info: RequestInfo, user: BackendIdentity.UserInfo, remoteAddr: bytes, fault: nat)
    returns (event: Option<Event>, status: int)
    ensures event.Some? <==> fault >= 6
    ensures status == if fault < 2 then 400 else if fault < 6 then 502 else 200
  {
    hide Tells, BackendSent, BackendGot, AddressesAgree, EventAddresses, BytesConserved, Delivers, OnlyStuckLeft, Relays, Spools, Carries,
         Writes, Content, AuditLifecycle.Bump;
    var fs := new FileSystem({fault}, {});
    var counter := new TransportBytes();
    var inbound := new HeaderMaps.Header(map[]);
    var body := new ObservedBody(counter, ByteSeries(Client, false, ReadBytes), EMPTY_BODY);
    var transport := new Transport(0, Some(EMPTY_REPLY));
    var header := new HeaderMaps.Header(map[]);
    var w := new ClientWriter(header, counter, ByteSeries(Client, false, WrittenBytes), 0);
    var metrics := new AuditLifecycle.AuditMetrics();
    OneFaultDecides(fs, fault);
    ghost var copied;
    event, copied := ServeAndReport(fs, config, json, Inbound(inbound, body, remoteAddr, [], info, user), transport, w, metrics, [], true);
    if event.Some? {
      CarriesStatus(Proxied(w.statusCode, w.header.fields, w.body), map[], [], EMPTY_REPLY, copied);
    }
    status := w.statusCode;
  }

  // ----- Many requests at once

  /** Both bodies ended well, the backend was announced the whole request and sent a prefix, the client got the reply up to some byte. */
  ghost predicate Transferred(arrival: Arrival, exchange: Exchange)
    requires exchange.ExchangeRelayed?
  {
    var request, response := Content(arrival.script), Content(exchange.reply.script);
    && Ending(arrival.script) == Eof && Ending(exchange.reply.script) == Eof
    && exchange.sent.contentLength == |request| && exchange.sent.received <= request
    && exchange.response.Proxied? && exchange.response.status == exchange.reply.status && exchange.response.body <= response
    && (InCanonicalForm(exchange.reply.headers) ==>
          exchange.response.headers == ProxyHeaders.HopByHopRemoved(exchange.reply.headers))
  }

  lemma PossibleTransfer(config: ExchangeConfig, arrival: Arrival, user: BackendIdentity.UserInfo, exchange: Exchange)
    requires exchange.ExchangeRelayed? && CanMake(config, arrival, user, exchange)
    ensures Transferred(arrival, exchange)
  {
    hide Content, Ending, InCanonicalForm, ProxyHeaders.HopByHopRemoved, ProxyHeaders.IsUpstream, ProxyHeaders.PeerHost;
    FreshClientGetsTheHeaders(exchange.response, map[], [], exchange.reply, |exchange.response.body|);
  }

  /**
   Over every interleaving, an event on its way tells of its own request: of an exchange that request allows, with the user it was
   verified as, and with the very reply whose relay its client has.
   */
  lemma EveryEventTellsOfItsOwnRequest(config: AuditLifecycle.HandlerConfig, run: seq<AuditLifecycle.Action>, id: nat)
    requires AuditLifecycle.Possible(config, run)
    requires var x := AuditLifecycle.After(config, run); id in x.jobs && (x.jobs[id].Ready? || x.jobs[id].InFlight?)
    ensures var x := AuditLifecycle.After(config, run);
            && id in x.arrivals && id in x.requests && AuditLifecycle.HasSpawned(x.requests[id])
            && var arrival, response, answer := x.arrivals[id], x.requests[id].response, x.requests[id].answer;
            && answer.input.info.Some? && answer.exchange.ExchangeRelayed? && response == answer.exchange.response
            && CanMake(config.exchange, arrival, answer.input.user, answer.exchange) && Transferred(arrival, answer.exchange)
            && RequestFates.IsMutation(answer.input.info.value)
            && Tells(x.jobs[id].event, config.json, config.exchange, arrival, answer.input.info.value, answer.input.user,
                     answer.exchange.reply, answer.exchange.auditID)
            && BackendSent(config.exchange, arrival, answer.input.user, answer.exchange.sent)
            && (x.jobs[id].event.sourceIPs == EventAddresses(answer.exchange.sent) <==> AddressesAgree(config.exchange, arrival))
  {
    hide Transferred, CanMake, Tells, BuiltEvent, AddressesAgree, EventAddresses,
         BackendSent, RequestFates.IsMutation, AuditLifecycle.ShouldAudit, AuditLifecycle.After, AuditLifecycle.Possible;
    RequestFates.EventsAreForMutations(config, run, id);
    AuditLifecycle.EventsOnlyForRelayedRequests(config, run, id);
    var x := AuditLifecycle.After(config, run);
    var answer := x.requests[id].answer;
    EventMatchesExchange(config.json, config.exchange, x.arrivals[id], answer.input.info.value, answer.input.user, answer.exchange);
    PossibleTransfer(config.exchange, x.arrivals[id], answer.input.user, answer.exchange);
  }

  /** Step `h` of a run verified `user` from the headers of request `id`, and the same authenticator would from those sent. */
  ghost predicate VerifiedAgain(run: seq<AuditLifecycle.Action>, h: nat, id: nat, arrival: Arrival, sent: Sent,
                                user: BackendIdentity.UserInfo)
  {
    && h < |run| && run[h].Identify? && run[h].id == id && run[h].authenticator.Some?
    && var a := run[h].authenticator.value;
       && Verifies(a, arrival.request.headers, user)
       && (ReadsRemoteOnly(a) && !ProxyHeaders.IdentityNominated(arrival.request.headers) ==> Verifies(a, sent.headers, user))
  }

  /**
   Over every interleaving in request-header mode, the user of an event on its way was verified from its own request, and a
   backend that asks the same authenticator verifies that user again, unless a Connection value nominated its headers.
   */
  lemma EveryEventsUserIsVerifiedAgain(config: AuditLifecycle.HandlerConfig, run: seq<AuditLifecycle.Action>, id: nat)
    requires AuditLifecycle.Possible(config, run) && config.requiresVerified && config.exchange.mode.RequestHeader?
    requires var x := AuditLifecycle.After(config, run); id in x.jobs && (x.jobs[id].Ready? || x.jobs[id].InFlight?)
    ensures var x := AuditLifecycle.After(config, run);
            && id in x.arrivals && id in x.requests && AuditLifecycle.HasSpawned(x.requests[id])
            && var exchange := x.requests[id].answer.exchange;
            && exchange.ExchangeRelayed?
            && exists h :: VerifiedAgain(run, h, id, x.arrivals[id], exchange.sent, x.jobs[id].event.user)
  {
    hide CanMake, Tells, BuiltEvent, ReadsRemoteOnly, ProxyHeaders.RemoteHeaders, ProxyHeaders.IdentityNominated,
         AuditLifecycle.After, AuditLifecycle.Possible;
    AuditLifecycle.EventsOnlyForRelayedRequests(config, run, id);
    AuditLifecycle.EventFollowsResponse(config, run, id);
    var x := AuditLifecycle.After(config, run);
    var answer, arrival := x.requests[id].answer, x.arrivals[id];
    var user, info := answer.input.user, answer.input.info.value;
    BackendVerifiesTheAuditedUser(config.json, config.exchange, arrival, info, user, answer.exchange);
    BuiltUser(config.json, config.exchange, arrival, info, user, answer.exchange);
    var h, k, i, j :| AuditLifecycle.InOrder(config, run, id, arrival, answer, h, k, i, j);
    assert VerifiedAgain(run, h, id, arrival, answer.exchange.sent, user);
  }
}
