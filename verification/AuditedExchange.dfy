/** serveAudited: one mutating request from spooled body to relayed response, with every failure exit and deferred cleanup. */
module AuditedExchange {
  import opened Bytes
  import opened HeaderMaps
  import opened BackendIdentity
  import opened ProxyHeaders
  import opened AuditEvents
  import opened BodySpool

  const BACKEND_WRITE := ByteSeries(Backend, false, WrittenBytes)
  const BACKEND_READ := ByteSeries(Backend, false, ReadBytes)

  datatype Reply = Reply(status: int, headers: HeaderMap, script: seq<Read>)

  /** What the transport was handed and how much of the body it took. */
  datatype Sent = Sent(headers: HeaderMap, contentLength: nat, received: bytes)

  /** http.RoundTripper: reads at most `drains` bytes of the body, closes it, and replies or fails. */
  class Transport {
    const drains: nat
    const reply: Option<Reply>
    var sent: Sent

    constructor (drains: nat, reply: Option<Reply>)
      ensures this.drains == drains && this.reply == reply
    {
      this.drains := drains;
      this.reply := reply;
      sent := Sent(map[], 0, []);
    }

    method RoundTrip(fs: FileSystem, upstream: Header, body: Handle, contentLength: nat, counter: TransportBytes)
      returns (r: Option<Reply>)
      requires fs.Valid() && body in fs.open && fs.open[body].offset == 0
      modifies this, fs`open, counter
      ensures r == reply
      ensures fs.Valid() && fs.open == old(fs.open) - {body}
      ensures var content := fs.files[old(fs.open)[body].path];
              sent == Sent(upstream.fields, contentLength, content[..Min(drains, |content|)])
      ensures counter.totals == Added(old(counter.totals), BACKEND_WRITE, |sent.received|)
    {
      var content := fs.files[fs.open[body].path];
      sent := Sent(upstream.fields, contentLength, content[..Min(drains, |content|)]);
      counter.Add(BACKEND_WRITE, |sent.received|);
      fs.Release(body);
      r := reply;
    }
  }

  /** net/http's text for the two codes the proxy answers a failed exchange with. */
  function StatusText(code: int): bytes {
    if code == 400 then "Bad Request" else "Bad Gateway"
  }

  /** The client was answered with a status and a line of text, as far as it took it. */
  ghost predicate AnsweredWith(w: ClientWriter, code: int, line: bytes, before: bytes)
    requires |before| <= w.accepts
    reads w
  {
    w.statusCode == code && w.body == before + line[..Min(|line|, w.accepts - |before|)]
  }

  /** metricResponseWriter over a client that takes `accepts` bytes in all before writes fail. */
  class ClientWriter {
    const header: Header
    const counter: TransportBytes
    const series: ByteSeries
    const accepts: nat
    var statusCode: int
    var body: bytes

    ghost predicate Valid()
      reads this
    {
      |body| <= accepts
    }

    constructor (header: Header, counter: TransportBytes, series: ByteSeries, accepts: nat)
      ensures Valid() && this.header == header && this.counter == counter && this.series == series && this.accepts == accepts
      ensures statusCode == 0 && body == []
    {
      this.header := header;
      this.counter := counter;
      this.series := series;
      this.accepts := accepts;
      statusCode, body := 0, [];
    }

    method WriteHeader(code: int)
      modifies this`statusCode
      ensures statusCode == if old(statusCode) == 0 then code else old(statusCode)
    {
      if statusCode == 0 {
        statusCode := code;
      }
    }

    method Write(p: bytes) returns (n: nat)
      requires Valid()
      modifies this`statusCode, this`body, counter
      ensures Valid() && n == Min(|p|, accepts - |old(body)|)
      ensures body == old(body) + p[..n]
      ensures statusCode == if old(statusCode) == 0 then 200 else old(statusCode)
      ensures counter.totals == Added(old(counter.totals), series, n)
    {
      WriteHeader(200);
      n := Min(|p|, accepts - |body|);
      body := body + p[..n];
      counter.Add(series, n);
    }

    /** http.Error: a status and a line of text. */
    method Error(code: int)
      requires Valid() && code != 0
      modifies this`statusCode, this`body, counter
      ensures Valid() && statusCode == if old(statusCode) == 0 then code else old(statusCode)
      ensures var line := StatusText(code) + "\n"; body == old(body) + line[..Min(|line|, accepts - |old(body)|)]
    {
      WriteHeader(code);
      var _ := Write(StatusText(code) + "\n");
    }
  }

  /** Sums of the four steps that touch the byte counter on a relayed exchange. */
  function Relayed(totals: map<ByteSeries, nat>, clientRead: ByteSeries, clientWrite: ByteSeries,
                   request: nat, sent: nat, response: nat, relayed: nat): map<ByteSeries, nat> {
    Added(Added(Added(Added(totals, clientRead, request), BACKEND_WRITE, sent), BACKEND_READ, response), clientWrite, relayed)
  }

  /** One turn of the copy: read, then write what was read. */
  method CopyChunk(fs: FileSystem, reader: Handle, w: ClientWriter) returns (end: ReadEnd, n: nat)
    requires fs.Valid() && w.Valid() && reader in fs.open
    modifies fs`clock, fs`open, w`statusCode, w`body, w.counter
    ensures fs.Valid() && w.Valid() && fs.clock == old(fs.clock) + 1
    ensures var file := old(fs.open)[reader]; var content := fs.files[file.path];
            var left := |content| - file.offset;
            && n <= left && w.body == old(w.body) + content[file.offset..file.offset + n]
            && reader in fs.open && fs.open == old(fs.open)[reader := fs.open[reader]] && fs.open[reader].path == file.path
            && (end != Failed ==> old(fs.clock) !in fs.faults)
            && (end == More ==> 0 < n == Min(left, COPY_BUFFER_SIZE) && fs.open[reader].offset == file.offset + n)
            && (end == Eof ==> n == left == 0)
            && (end == Failed ==> || (n == 0 && old(fs.clock) in fs.faults)
                                  || (n < left && |old(w.body)| + left > w.accepts))
    ensures old(w.statusCode) != 0 ==> w.statusCode == old(w.statusCode)
    ensures w.counter.totals == Added(old(w.counter.totals), w.series, n)
  {
    var data;
    data, end := fs.Read(reader, COPY_BUFFER_SIZE);
    n := 0;
    if end == More {
      n := w.Write(data);
      if n != |data| {
        end := Failed;
      }
    }
  }

  /**
   A copy of `size` bytes that begins at operation `from` gets through: no read that brings data fails,
   and the client still takes that much.
   */
  ghost predicate Delivers(fs: FileSystem, from: nat, size: nat, taken: nat, accepts: nat) {
    fs.Faultless(from, from + Pieces(size)) && taken + size <= accepts
  }

  lemma PiecesLeft(size: nat)
    requires size > 0
    ensures Pieces(size) == 1 + Pieces(size - Min(size, COPY_BUFFER_SIZE))
  {
  }

  /** io.Copy of a file to the client: stops at the first read error or short write. */
  method CopyToClient(fs: FileSystem, reader: Handle, w: ClientWriter) returns (ghost copied: nat)
    requires fs.Valid() && w.Valid() && reader in fs.open && fs.open[reader].offset == 0
    modifies fs`clock, fs`open, w`statusCode, w`body, w.counter
    ensures fs.Valid() && w.Valid()
    ensures fs.open.Keys == old(fs.open).Keys && fs.open == old(fs.open)[reader := fs.open[reader]]
    ensures var content := fs.files[old(fs.open)[reader].path];
            && copied <= |content| && w.body == old(w.body) + content[..copied]
            && (copied == |content| <==> Delivers(fs, old(fs.clock), |content|, |old(w.body)|, w.accepts))
    ensures old(w.statusCode) != 0 ==> w.statusCode == old(w.statusCode)
    ensures w.counter.totals == Added(old(w.counter.totals), w.series, copied)
  {
    hide Pieces, Added, FileSystem.Valid;
    fs.OpenFileExists(reader);
    AddedNothing(w.counter.totals, w.series);
    ghost var path := fs.open[reader].path;
    ghost var content := fs.files[path];
    ghost var last := fs.clock + Pieces(|content|);
    var end := More;
    copied := 0;
    while end == More
      invariant fs.Valid() && w.Valid() && old(fs.clock) <= fs.clock
      invariant reader in fs.open && fs.open == old(fs.open)[reader := fs.open[reader]] && fs.open[reader].path == path
      invariant copied <= |content| && w.body == old(w.body) + content[..copied]
      invariant end == More ==>
                  && copied == fs.open[reader].offset
                  && fs.Faultless(old(fs.clock), fs.clock) && fs.clock + Pieces(|content| - copied) == last
      invariant end != More ==> (copied == |content| <==> Delivers(fs, old(fs.clock), |content|, |old(w.body)|, w.accepts))
      invariant old(w.statusCode) != 0 ==> w.statusCode == old(w.statusCode)
      invariant w.counter.totals == Added(old(w.counter.totals), w.series, copied)
      decreases end == More, |content| - copied
    {
      if copied == |content| {
        NoPieces();
      } else {
        PiecesLeft(|content| - copied);
      }
      var n;
      end, n := CopyChunk(fs, reader, w);
      AddedTwice(old(w.counter.totals), w.series, copied, n);
      SliceGrows(old(w.body), content, copied, n);
      copied := copied + n;
    }
  }

  lemma NoPieces()
    ensures Pieces(0) == 0
  {
  }

  lemma AddedNothing(totals: map<ByteSeries, nat>, series: ByteSeries)
    ensures Added(totals, series, 0) == totals
  {
  }

  lemma SliceGrows(before: bytes, content: bytes, copied: nat, n: nat)
    requires copied + n <= |content|
    ensures before + content[..copied] + content[copied..copied + n] == before + content[..copied + n]
  {
  }

  // ----- The response side

  /** What a client was sent: an error line, or a proxied response. */
  datatype Response = ErrorLine(status: int) | Proxied(status: int, headers: HeaderMap, body: bytes)

  /** A client that had `header` and `body` now also has the reply: its status, its end-to-end headers, `copied` bytes of its body. */
  ghost predicate Carries(got: Response, header: HeaderMap, body: bytes, reply: Reply, copied: nat) {
    && got.Proxied?
    && got.status == reply.status
    && (exists order ::
          Enumerates(order, HopByHopRemoved(reply.headers).Keys)
          && got.headers == WithCopied(header, HopByHopRemoved(reply.headers), order))
    && copied <= |Content(reply.script)|
    && got.body == body + Content(reply.script)[..copied]
  }

  ghost predicate ClientGot(w: ClientWriter, header: HeaderMap, body: bytes, reply: Reply, copied: nat)
    reads w, w.header
  {
    Carries(Proxied(w.statusCode, w.header.fields, w.body), header, body, reply, copied)
  }

  /** Headers, status, body, in that order. */
  method WriteResponse(fs: FileSystem, reader: Handle, reply: Reply, w: ClientWriter) returns (ghost copied: nat)
    requires fs.Valid() && w.Valid() && w.statusCode == 0 && reply.status != 0
    requires reader in fs.open && fs.open[reader].offset == 0 && fs.files[fs.open[reader].path] == Content(reply.script)
    modifies fs`clock, fs`open, w`statusCode, w`body, w.header, w.counter
    ensures fs.Valid() && w.Valid()
    ensures reader in fs.open && fs.open == old(fs.open)[reader := fs.open[reader]]
    ensures ClientGot(w, old(w.header.fields), old(w.body), reply, copied)
    ensures w.counter.totals == Added(old(w.counter.totals), w.series, copied)
    ensures copied == |Content(reply.script)| <==>
            Delivers(fs, old(fs.clock), |Content(reply.script)|, |old(w.body)|, w.accepts)
  {
    var endToEnd := new Header(reply.headers);
    StripHopByHopHeaders(endToEnd);
    ghost var order := CopyHeaders(w.header, endToEnd.fields);
    w.WriteHeader(reply.status);
    copied := CopyToClient(fs, reader, w);
  }

  /** Reopens the spooled response and relays it; fails exactly if the file cannot be reopened. */
  method RelaySpooled(fs: FileSystem, spool: SpooledBody, reply: Reply, w: ClientWriter)
    returns (ok: bool, ghost copied: nat)
    requires fs.Valid() && w.Valid() && w.statusCode == 0 && reply.status != 0
    requires spool.path in fs.files && fs.files[spool.path] == Content(reply.script)
    modifies fs`clock, fs`next, fs`open, w`statusCode, w`body, w.header, w.counter
    ensures fs.Valid() && w.Valid() && fs.open == old(fs.open)
    ensures ok <==> old(fs.clock) !in fs.faults
    ensures ok ==> ClientGot(w, old(w.header.fields), old(w.body), reply, copied)
    ensures ok ==> w.counter.totals == Added(old(w.counter.totals), w.series, copied)
    ensures ok ==> (copied == |Content(reply.script)| <==>
                    Delivers(fs, old(fs.clock) + 1, |Content(reply.script)|, |old(w.body)|, w.accepts))
    ensures !ok ==> AnsweredWith(w, 502, "Bad Gateway" + "\n", old(w.body))
  {
    hide HopByHopRemoved;
    var reader;
    ok, reader := fs.Open(spool.path);
    copied := 0;
    if !ok {
      w.Error(502);
      return;
    }
    ghost var atStart := fs.open[reader];
    copied := WriteResponse(fs, reader, reply, w);
    OverwriteTwice(old(fs.open), reader, atStart, fs.open[reader]);
    InsertThenRemove(old(fs.open), reader, fs.open[reader]);
    var _ := fs.Close(reader);
  }

  /** Relays the spooled response, then removes its file, whatever became of it. */
  method RelayThenCleanup(fs: FileSystem, spool: SpooledBody, reply: Reply, w: ClientWriter)
    returns (ok: bool, ghost copied: nat)
    requires fs.Valid() && w.Valid() && w.statusCode == 0 && reply.status != 0
    requires spool.path in fs.files && fs.files[spool.path] == Content(reply.script)
    requires forall h :: h in fs.open ==> fs.open[h].path != spool.path
    modifies fs, w`statusCode, w`body, w.header, w.counter
    ensures fs.Valid() && w.Valid() && fs.open == old(fs.open)
    ensures fs.files == AfterRemoval(old(fs.files), fs.stuck, spool.path)
    ensures ok <==> old(fs.clock) !in fs.faults
    ensures ok ==> ClientGot(w, old(w.header.fields), old(w.body), reply, copied)
    ensures ok ==> w.counter.totals == Added(old(w.counter.totals), w.series, copied)
    ensures ok ==> (copied == |Content(reply.script)| <==>
                    Delivers(fs, old(fs.clock) + 1, |Content(reply.script)|, |old(w.body)|, w.accepts))
    ensures !ok ==> AnsweredWith(w, 502, "Bad Gateway" + "\n", old(w.body))
  {
    hide HopByHopRemoved;
    ok, copied := RelaySpooled(fs, spool, reply, w);
    var _ := Cleanup(fs, spool);
  }

  /** The operations from spooling the response to reopening it. */
  function ResponseOperations(response: seq<Read>): nat {
    SpoolOperations(response) + 1
  }

  /** The reply will be relayed from operation `from` on: its body ends well and can be spooled and reopened. */
  ghost predicate RelaysReply(fs: FileSystem, from: nat, reply: Reply) {
    fs.Faultless(from, from + ResponseOperations(reply.script)) && Ending(reply.script) == Eof
  }

  lemma RelaysReplyInTurn(fs: FileSystem, from: nat, reply: Reply)
    ensures RelaysReply(fs, from, reply) <==> Spools(fs, from, reply.script) && from + SpoolOperations(reply.script) !in fs.faults
  {
    hide Writes, Ending;
    fs.FaultlessJoins(from, from + SpoolOperations(reply.script), from + ResponseOperations(reply.script));
  }

  /**
   Everything after the transport replied: spool the response, relay it, clean up. The spool closes the
   response body on every path, so the deferred second close changes nothing and is left out.
   */
  method RelayResponse(fs: FileSystem, reply: Reply, w: ClientWriter, maxCaptureBytes: int)
    returns (captured: Option<Captured>, ghost copied: nat)
    requires fs.Valid() && w.Valid() && w.statusCode == 0 && reply.status != 0
    modifies fs, w`statusCode, w`body, w.header, w.counter
    ensures fs.Valid() && w.Valid() && fs.open == old(fs.open)
    ensures OnlyStuckLeft(old(fs.files), fs.stuck, fs.files) && (fs.stuck == {} ==> fs.files == old(fs.files))
    ensures captured.Some? <==> RelaysReply(fs, old(fs.clock), reply)
    ensures captured.Some? ==> captured.value == Capture(Content(reply.script), maxCaptureBytes)
    ensures captured.Some? ==> ClientGot(w, old(w.header.fields), old(w.body), reply, copied)
    ensures captured.Some? ==>
              w.counter.totals == Added(Added(old(w.counter.totals), BACKEND_READ, |Content(reply.script)|), w.series, copied)
    ensures captured.Some? ==>
              (copied == |Content(reply.script)| <==>
               Delivers(fs, old(fs.clock) + ResponseOperations(reply.script), |Content(reply.script)|, |old(w.body)|, w.accepts))
    ensures captured.None? ==> AnsweredWith(w, 502, "Bad Gateway" + "\n", old(w.body))
  {
    hide Carries, Content, Capture, Spools, SpoolOperations, RelaysReply, Delivers, OnlyStuckLeft, AfterRemoval, FileSystem.Valid;
    RelaysReplyInTurn(fs, fs.clock, reply);
    var body := new ObservedBody(w.counter, BACKEND_READ, reply.script);
    ghost var counted;
    var spool;
    spool, counted := SpoolBody(fs, body, maxCaptureBytes);
    if spool.None? {
      w.Error(502);
      return None, 0;
    }
    var ok;
    ok, copied := RelayThenCleanup(fs, spool.value, reply, w);
    NewFileRemoved(old(fs.files), fs.stuck, spool.value.path, Content(reply.script));
    NoneStuckNoneLeft(old(fs.files), fs.stuck, fs.files);
    captured := if ok then Some(spool.value.captured) else None;
  }

  // ----- The exchange as a value

  datatype ExchangeConfig = ExchangeConfig(mode: IdentityMode, hostOf: bytes -> Option<bytes>, maxCaptureBytes: int)

  /** A request as it arrived: what of it the event is built from, and its body. */
  datatype Arrival = Arrival(request: Request, script: seq<Read>)
  {
    function PeerHost(config: ExchangeConfig): bytes {
      ProxyHeaders.PeerHost(request.remoteAddr, config.hostOf)
    }
  }

  /** What serveAudited makes of a request: an error status, or a relayed reply with what the backend and the client were given. */
  datatype Exchange =
    | ExchangeFailed(status: int)
    | ExchangeRelayed(reply: Reply, sent: Sent, response: Response, auditID: bytes)

  /** The backend was sent the spooled body with its exact length, under headers made from the inbound ones. */
  ghost predicate BackendGot(sent: Sent, drains: nat, mode: IdentityMode, inbound: HeaderMap, peerHost: bytes, user: UserInfo,
                             content: bytes)
  {
    && IsUpstream(sent.headers, mode, inbound, peerHost, user)
    && sent.contentLength == |content|
    && sent.received == content[..Min(drains, |content|)]
  }

  /**
   The exchanges serveAudited can make of a request under some fault schedule, transport and client: 400 always, 502 once
   the request's body has ended well, or a relay of both bodies, whole, with the backend sent what it should be.
   */
  ghost predicate CanMake(config: ExchangeConfig, arrival: Arrival, user: UserInfo, exchange: Exchange) {
    match exchange
    case ExchangeFailed(status) => status == 400 || (status == 502 && Ending(arrival.script) == Eof)
    case ExchangeRelayed(reply, sent, response, _) =>
      && Ending(arrival.script) == Eof
      && Ending(reply.script) == Eof
      && BackendGot(sent, |sent.received|, config.mode, arrival.request.headers, arrival.PeerHost(config), user,
                    Content(arrival.script))
      && response.Proxied?
      && Carries(response, map[], [], reply, |response.body|)
  }

  /** What the builder is given after a relayed exchange. */
  function InputOf(config: ExchangeConfig, arrival: Arrival, info: RequestInfo, user: UserInfo, exchange: Exchange): Input
    requires exchange.ExchangeRelayed?
  {
    Input(Some(arrival.request), Some(info), user,
          Capture(Content(arrival.script), config.maxCaptureBytes),
          Capture(Content(exchange.reply.script), config.maxCaptureBytes),
          exchange.reply.status, exchange.auditID)
  }

  lemma CaptureSize(body: bytes, max: int)
    ensures Capture(body, max).size == |body|
  {
  }

  /** The amounts taken and copied can be read off what was received. */
  lemma RelayIsMade(fs: FileSystem, from: nat, config: ExchangeConfig, arrival: Arrival, user: UserInfo,
                    drains: nat, copied: nat, exchange: Exchange, header: HeaderMap, body: bytes)
    requires exchange.ExchangeRelayed? && Relays(fs, from, arrival.script, Some(exchange.reply))
    requires BackendGot(exchange.sent, drains, config.mode, arrival.request.headers, arrival.PeerHost(config), user,
                        Content(arrival.script))
    requires Carries(exchange.response, header, body, exchange.reply, copied)
    ensures header == map[] && body == [] ==> CanMake(config, arrival, user, exchange)
    ensures |exchange.sent.received| == Min(drains, |Content(arrival.script)|) && copied <= |Content(exchange.reply.script)|
  {
    hide IsUpstream, HopByHopRemoved, Content, Ending, Writes, ProxyHeaders.PeerHost;
    assert body == [] ==> |exchange.response.body| == copied;
  }

  lemma FailureIsMade(fs: FileSystem, from: nat, config: ExchangeConfig, arrival: Arrival, user: UserInfo, status: int)
    requires status == if Spools(fs, from, arrival.script) then 502 else 400
    ensures CanMake(config, arrival, user, ExchangeFailed(status))
  {
    hide Ending, Writes;
  }

  // ----- The bytes of an exchange

  function Grown(before: map<ByteSeries, nat>, after: map<ByteSeries, nat>, series: ByteSeries): int {
    Count(after, series) - Count(before, series)
  }

  /**
   Bytes are conserved along both legs: what the client sent is what was spooled and announced upstream, of which the
   backend took what it drained; what the backend sent is what was spooled, and the client was given it whole
   if and only if it was `delivered`. Every other series is as before.
   */
  ghost predicate BytesConserved(before: map<ByteSeries, nat>, after: map<ByteSeries, nat>, clientRead: ByteSeries, clientWrite: ByteSeries,
                                 request: nat, response: nat, sent: Sent, drains: nat, delivered: bool)
  {
    && Grown(before, after, clientRead) == request == sent.contentLength
    && Grown(before, after, ByteSeries(Backend, false, WrittenBytes)) == |sent.received|
    && (Grown(before, after, BACKEND_WRITE) == Grown(before, after, clientRead) <==> drains >= request)
    && Grown(before, after, ByteSeries(Backend, false, ReadBytes)) == response
    && 0 <= Grown(before, after, clientWrite) <= Grown(before, after, BACKEND_READ)
    && (Grown(before, after, clientWrite) == Grown(before, after, BACKEND_READ) <==> delivered)
    && forall series :: series !in {clientRead, BACKEND_WRITE, BACKEND_READ, clientWrite} ==> Grown(before, after, series) == 0
  }

  /** The series of the inbound body and of the client's writer. */
  predicate AreClientSeries(read: ByteSeries, write: ByteSeries) {
    read.leg == Client && read.direction == ReadBytes && write.leg == Client && write.direction == WrittenBytes
  }

  lemma CountAdded(totals: map<ByteSeries, nat>, series: ByteSeries, n: nat, other: ByteSeries)
    ensures Count(Added(totals, series, n), other) == Count(totals, other) + if series == other then n else 0
  {
  }

  /** Every series grows by what the four steps add to it. */
  lemma RelayedGrowth(totals: map<ByteSeries, nat>, clientRead: ByteSeries, clientWrite: ByteSeries,
                      request: nat, sent: nat, response: nat, relayed: nat, series: ByteSeries)
    ensures Grown(totals, Relayed(totals, clientRead, clientWrite, request, sent, response, relayed), series) ==
            (if series == clientRead then request else 0) + (if series == BACKEND_WRITE then sent else 0)
            + (if series == BACKEND_READ then response else 0) + (if series == clientWrite then relayed else 0)
  {
    hide Added, Count;
    var a := Added(totals, clientRead, request);
    var b := Added(a, BACKEND_WRITE, sent);
    var c := Added(b, BACKEND_READ, response);
    CountAdded(totals, clientRead, request, series);
    CountAdded(a, BACKEND_WRITE, sent, series);
    CountAdded(b, BACKEND_READ, response, series);
    CountAdded(c, clientWrite, relayed, series);
  }

  /** Whatever the counter held, a relay conserves bytes. */
  lemma ByteConservation(totals: map<ByteSeries, nat>, clientRead: ByteSeries, clientWrite: ByteSeries,
                         request: nat, response: nat, sent: Sent, drains: nat, copied: nat)
    requires AreClientSeries(clientRead, clientWrite) && sent.contentLength == request
    requires |sent.received| == Min(drains, request) && copied <= response
    ensures BytesConserved(totals, Relayed(totals, clientRead, clientWrite, request, |sent.received|, response, copied),
                           clientRead, clientWrite, request, response, sent, drains, copied == response)
  {
    hide Relayed, Grown;
    var after := Relayed(totals, clientRead, clientWrite, request, |sent.received|, response, copied);
    forall series
      ensures Grown(totals, after, series) ==
              (if series == clientRead then request else 0) + (if series == BACKEND_WRITE then |sent.received| else 0)
              + (if series == BACKEND_READ then response else 0) + (if series == clientWrite then copied else 0)
    {
      RelayedGrowth(totals, clientRead, clientWrite, request, |sent.received|, response, copied, series);
    }
  }

  // ----- The whole exchange

  /** What the proxy knows of one inbound request; `header` and `body` are the request's own objects. */
  datatype Inbound = Inbound(header: Header, body: ObservedBody, remoteAddr: bytes, uri: bytes, info: RequestInfo, user: UserInfo)
  {
    function PeerHost(config: ExchangeConfig): bytes {
      ProxyHeaders.PeerHost(remoteAddr, config.hostOf)
    }

    ghost function Arrived(): Arrival
      reads header, body
    {
      Arrival(Request(header.fields, remoteAddr, uri), body.script)
    }
  }

  /** What became of a request, read off the transport and the client's writer. */
  ghost function ExchangeOf(relayed: bool, transport: Transport, w: ClientWriter, auditID: bytes): Exchange
    reads transport, w, w.header
  {
    if relayed && transport.reply.Some? then
      ExchangeRelayed(transport.reply.value, transport.sent, Proxied(w.statusCode, w.header.fields, w.body), auditID)
    else ExchangeFailed(w.statusCode)
  }

  /** Reopens the spooled request and sends it on; no reply if the file cannot be reopened or the round trip fails. */
  method SendUpstream(fs: FileSystem, config: ExchangeConfig, r: Inbound, spool: SpooledBody, transport: Transport,
                      counter: TransportBytes)
    returns (reply: Option<Reply>)
    requires fs.Valid() && spool.path in fs.files && spool.captured.size == |fs.files[spool.path]|
    modifies fs`clock, fs`next, fs`open, transport, counter
    ensures fs.Valid() && fs.open == old(fs.open) && fs.clock == old(fs.clock) + 1
    ensures reply == if old(fs.clock) in fs.faults then None else transport.reply
    ensures if old(fs.clock) in fs.faults then transport.sent == old(transport.sent)
            else BackendGot(transport.sent, transport.drains, config.mode, r.header.fields, r.PeerHost(config), r.user,
                            fs.files[spool.path])
    ensures reply.Some? ==> counter.totals == Added(old(counter.totals), BACKEND_WRITE, |transport.sent.received|)
  {
    var ok, body := fs.Open(spool.path);
    if !ok {
      return None;
    }
    InsertThenRemove(old(fs.open), body, fs.open[body]);
    var upstream := BuildUpstreamHeaders(r.header, config.mode, r.remoteAddr, config.hostOf, r.user);
    reply := transport.RoundTrip(fs, upstream, body, spool.captured.size, counter);
  }

  /** From the spooled request to the relayed response; the request's own file is left for the caller to clean up. */
  method Forward(fs: FileSystem, config: ExchangeConfig, r: Inbound, spool: SpooledBody, transport: Transport, w: ClientWriter)
    returns (captured: Option<Captured>, ghost copied: nat)
    requires fs.Valid() && w.Valid() && w.statusCode == 0 && r.header != w.header
    requires transport.reply.Some? ==> transport.reply.value.status != 0
    requires spool.path in fs.files && spool.captured.size == |fs.files[spool.path]|
    modifies fs, transport, w`statusCode, w`body, w.header, w.counter
    ensures fs.Valid() && w.Valid() && fs.open == old(fs.open)
    ensures OnlyStuckLeft(old(fs.files), fs.stuck, fs.files) && (fs.stuck == {} ==> fs.files == old(fs.files))
    ensures captured.Some? <==> && old(fs.clock) !in fs.faults && transport.reply.Some?
                                && RelaysReply(fs, old(fs.clock) + 1, transport.reply.value)
    ensures captured.Some? ==> captured.value == Capture(Content(transport.reply.value.script), config.maxCaptureBytes)
    ensures if old(fs.clock) in fs.faults then transport.sent == old(transport.sent)
            else BackendGot(transport.sent, transport.drains, config.mode, r.header.fields, r.PeerHost(config), r.user,
                            old(fs.files)[spool.path])
    ensures captured.Some? ==> ClientGot(w, old(w.header.fields), old(w.body), transport.reply.value, copied)
    ensures captured.Some? ==>
              w.counter.totals == Added(Added(Added(old(w.counter.totals), BACKEND_WRITE, |transport.sent.received|),
                                        BACKEND_READ, |Content(transport.reply.value.script)|), w.series, copied)
    ensures captured.Some? ==>
              var response := transport.reply.value.script;
              (copied == |Content(response)| <==>
               Delivers(fs, old(fs.clock) + 1 + ResponseOperations(response), |Content(response)|, |old(w.body)|, w.accepts))
    ensures captured.None? ==> AnsweredWith(w, 502, "Bad Gateway" + "\n", old(w.body))
  {
    hide IsUpstream, Carries, ProxyHeaders.PeerHost, Content, Capture, RelaysReply, Delivers, OnlyStuckLeft, FileSystem.Valid;
    NothingLeft(fs.files, fs.stuck);
    var reply := SendUpstream(fs, config, r, spool, transport, w.counter);
    captured, copied := None, 0;
    if reply.None? {
      w.Error(502);
    } else {
      captured, copied := RelayResponse(fs, reply.value, w, config.maxCaptureBytes);
    }
  }

  /** The operations before the first byte of the response goes out: both bodies spooled and reopened. */
  function RelayOperations(request: seq<Read>, response: seq<Read>): nat {
    Writes(request) + Writes(response) + 6
  }

  /** Nothing will fail before the response is relayed: no file operation, neither body, nor the round trip. */
  ghost predicate Relays(fs: FileSystem, from: nat, request: seq<Read>, reply: Option<Reply>) {
    && Ending(request) == Eof
    && reply.Some?
    && Ending(reply.value.script) == Eof
    && fs.Faultless(from, from + RelayOperations(request, reply.value.script))
  }

  /** The request will be sent upstream: it is spooled and reopened, whatever becomes of it there. */
  ghost predicate Sends(fs: FileSystem, from: nat, request: seq<Read>) {
    Spools(fs, from, request) && from + SpoolOperations(request) !in fs.faults
  }

  lemma RelaysInTurn(fs: FileSystem, from: nat, request: seq<Read>, reply: Option<Reply>)
    ensures var sending := from + SpoolOperations(request);
            Relays(fs, from, request, reply) <==>
            && Sends(fs, from, request)
            && reply.Some? && RelaysReply(fs, sending + 1, reply.value)
  {
    hide Writes, Ending;
    var sending := from + SpoolOperations(request);
    fs.FaultlessJoins(from, sending, sending + 1);
    if reply.Some? {
      fs.FaultlessJoins(from, sending + 1, from + RelayOperations(request, reply.value.script));
    }
  }

  /**
   One audited request. It is relayed, and an audit job left, exactly if nothing fails before the response goes out; else
   it answers 400 if its own body could not be spooled and 502 for everything later. On every exit
   the open files are as before, and the directory differs only by files whose own removal failed.
   */
  method ServeAudited(fs: FileSystem, config: ExchangeConfig, r: Inbound, transport: Transport, w: ClientWriter, freshAuditID: bytes)
    returns (job: Option<Input>, ghost copied: nat)
    requires fs.Valid() && w.Valid() && w.statusCode == 0 && r.header != w.header && r.body.counter == w.counter
    requires transport.reply.Some? ==> transport.reply.value.status != 0
    modifies fs, transport, r.body, w`statusCode, w`body, w.header, w.counter
    ensures fs.Valid() && fs.open == old(fs.open)
    ensures OnlyStuckLeft(old(fs.files), fs.stuck, fs.files) && (fs.stuck == {} ==> fs.files == old(fs.files))
    ensures r.body.closed && r.header.fields == old(r.header.fields)
    ensures job.Some? <==> Relays(fs, old(fs.clock), old(r.body.script), transport.reply)
    ensures job.None? ==>
              if Spools(fs, old(fs.clock), old(r.body.script)) then AnsweredWith(w, 502, "Bad Gateway" + "\n", old(w.body))
              else AnsweredWith(w, 400, "Bad Request" + "\n", old(w.body))
    ensures if !Sends(fs, old(fs.clock), old(r.body.script)) then transport.sent == old(transport.sent)
            else BackendGot(transport.sent, transport.drains, config.mode, r.header.fields, r.PeerHost(config), r.user,
                            Content(old(r.body.script)))
    ensures job.Some? ==>
              var request, response := Content(old(r.body.script)), Content(transport.reply.value.script);
              && job.value == Input(Some(Request(r.header.fields, r.remoteAddr, r.uri)), Some(r.info), r.user,
                                    Capture(request, config.maxCaptureBytes), Capture(response, config.maxCaptureBytes),
                                    transport.reply.value.status, freshAuditID)
              && ClientGot(w, old(w.header.fields), old(w.body), transport.reply.value, copied)
              && w.counter.totals == Relayed(old(w.counter.totals), r.body.series, w.series,
                                             |request|, |transport.sent.received|, |response|, copied)
    ensures job.Some? ==>
              var response := transport.reply.value.script;
              (copied == |Content(response)| <==>
               Delivers(fs, old(fs.clock) + RelayOperations(old(r.body.script), response), |Content(response)|,
                        |old(w.body)|, w.accepts))
    ensures job.Some? && AreClientSeries(r.body.series, w.series) ==>
              var request, response := |Content(old(r.body.script))|, |Content(transport.reply.value.script)|;
              BytesConserved(old(w.counter.totals), w.counter.totals, r.body.series, w.series, request, response,
                             transport.sent, transport.drains, copied == response)
    ensures old(w.header.fields) == map[] && old(w.body) == [] ==>
              var arrival, exchange := old(r.Arrived()), ExchangeOf(job.Some?, transport, w, freshAuditID);
              && CanMake(config, arrival, r.user, exchange)
              && (job.Some? ==> job.value == InputOf(config, arrival, r.info, r.user, exchange))
  {
    hide IsUpstream, Carries, ProxyHeaders.PeerHost, Content, Capture, Spools, Relays, RelaysReply, Delivers, OnlyStuckLeft, AfterRemoval,
         FileSystem.Valid, BytesConserved, CanMake, Added, Count;
    ghost var counted;
    var spool;
    spool, counted := SpoolBody(fs, r.body, config.maxCaptureBytes);
    RelaysInTurn(fs, old(fs.clock), old(r.body.script), transport.reply);
    job, copied := None, 0;
    if spool.None? {
      w.Error(400);
    } else {
      CaptureSize(Content(old(r.body.script)), config.maxCaptureBytes);
      var response;
      response, copied := Forward(fs, config, r, spool.value, transport, w);
      ghost var forwarded := fs.files;
      if response.Some? {
        job := Some(Input(Some(Request(r.header.fields, r.remoteAddr, r.uri)), Some(r.info), r.user,
                          spool.value.captured, response.value, transport.reply.value.status, freshAuditID));
      }
      OldFilesStay(old(fs.files)[spool.value.path := Content(old(r.body.script))], fs.stuck, forwarded, spool.value.path);
      var _ := Cleanup(fs, spool.value);
      CleanupComposes(old(fs.files), fs.stuck, spool.value.path, Content(old(r.body.script)), forwarded);
      NoneStuckNoneLeft(old(fs.files), fs.stuck, fs.files);
    }
    ghost var arrival := old(r.Arrived());
    if job.Some? {
      ghost var exchange := ExchangeOf(true, transport, w, freshAuditID);
      RelayIsMade(fs, old(fs.clock), config, arrival, r.user, transport.drains, copied, exchange, old(w.header.fields), old(w.body));
      if AreClientSeries(r.body.series, w.series) {
        ByteConservation(old(w.counter.totals), r.body.series, w.series, |Content(arrival.script)|,
                         |Content(transport.reply.value.script)|, transport.sent, transport.drains, copied);
      }
    } else {
      FailureIsMade(fs, old(fs.clock), config, arrival, r.user, w.statusCode);
    }
  }
}
