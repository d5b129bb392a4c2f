# Verification of the auditing reverse proxy

A Dafny model of one request's way through the auditing pass-through proxy, and of many such requests
interleaved. Run `dafny verify dfyconfig.toml` to check it.

A request arrives with a delegated identity. The proxy verifies it, decides whether the request is an audited
mutation, and if so spools the body to a temporary file, sends it to the aggregated backend under headers that
carry the verified user, spools the response, relays it to the client, and leaves a detached goroutine behind
that builds one audit event and delivers it to a webhook. Around this sit gauges and counters that several
goroutines update.

Code that changes things in place is a class or a method with loops and `modifies`; each such method is tied by
its `ensures` to a function of the old state, and the properties are proved about those functions. The two
concurrent parts are step relations with lemmas over every run.

| file | what it models |
|---|---|
| `Bytes` | byte strings, ASCII case, sizes of finite sets, iteration orders of Go maps |
| `HeaderKeyCodec` | the percent-encoder for extra keys, header-name canonicalisation, percent-decoding |
| `HeaderMaps` | `http.Header` as a mutable map |
| `BackendIdentity` | header stripping and the two identity decorators |
| `ImpersonationRoundTrip` | what the backend's impersonation filter reads back; when the output is determined |
| `CommaLists` | splitting, joining and trimming; the flag splitter |
| `ProxyHeaders` | hop-by-hop removal, forwarding address, header copy, upstream request headers |
| `UpstreamHeaders` | the whole header map the backend is sent, name by name |
| `AuditEvents`, `EventFidelity` | the event builder, and what its events say about the exchange |
| `BodySpool` | spooling under any chunking and any file-system fault schedule |
| `AuditedExchange` | `serveAudited` with every failure exit and deferred cleanup |
| `ConnectionGauge` | the connection-state tracker, interleaved |
| `StreamGauge` | observed stream bodies, interleaved |
| `RequestMetrics` | the per-request metric state, interleaved |
| `RequestIdentity` | extraction of the delegated identity |
| `AuditLifecycle` | requests and detached senders, interleaved |
| `RequestFates` | what becomes of a request over a run: refused, audited or passed through; its labels; the counters |
| `EndToEnd` | the event against what backend and client saw |

## Where the code and its words, or a plain reading of it, part ways

The model follows the code. The members named prove the exact condition and, after a semicolon, show a concrete input.

- The comment at `pkg/proxy/backend_identity.go:141-144` says the backend decodes extra keys identically. It does so
  exactly for keys without an upper-case letter: header canonicalisation and the backend's lower-casing fold ASCII case
  (`RoundTripForLowerCaseKeys`; `UpperCaseKeyIsLost`).
- Extras whose keys differ only in case share one header, whose values come in the order the map happens to be ranged
  over. The outgoing headers are determined by the verified user exactly when such values commute
  (`OutputIsDeterminedByUser`; `CaseTwinsDependOnOrder`).
- `docs/ARCHITECTURE.md:230` promises one event per supported mutating request. There is one exactly if both bodies end
  well, the round trip succeeds, and none of the file operations before the response goes out fails: with one write for
  each read that brings data, these are the first writes(request) + writes(response) + 6. Otherwise the request ends in
  400 or 502 and has none (`ServeAndReport`; `OneFault`).
- `pkg/proxy/backend_identity.go:24-27` and `docs/ARCHITECTURE.md:207` promise that in request-header mode the `X-Remote-*`
  headers reach the backend. The decorator leaves them alone, but hop-by-hop removal runs before it: they all reach the
  backend, and a backend that reads only them verifies the user the event names, exactly when no `Connection` value of the
  request nominates one of them (`BackendVerifiesTheAuditedUser`; `NominatedGroupIsLost`).
- An inbound request may carry several `X-Forwarded-For` lines, which are one list (section 5.3 of RFC 9110). Only the
  first is looked at: appending the peer loses the others, and the event never reports them. The list grows by exactly
  the peer's tokens if and only if the peer is blank or the later lines hold no token (`ForwardedForAppends`;
  `SecondLineIsLost`).
- The event's source addresses are those of the whole forwarding list sent upstream only if every address the event
  reports is passed on. They differ when `X-Real-IP` names a further address, when `Connection` nominates
  `X-Forwarded-For`, or when the peer's host has a comma (`SourceIPsAgreeWithForwarding`; `RealIPIsNotForwarded`).
- A cut body goes unmarked, with neither placeholder nor annotation, when the part kept is blank or the limit is not
  positive (`UnmarkedCut`; `BlankCutGoesUnmarked`). The server command rejects a limit that is not positive
  (`cmd/server/main.go:426`), so that half concerns other callers of the packages.
- The connection gauge can show a negative value when one call on a connection overtakes another's pending increment
  (`DisciplineIsExact`; `TwoCallsGoNegative`). This is a condition on the caller, which is `net/http` and not part of
  this model: a server that reports the states of a connection one after the other meets it
  (`NonOverlappingIsDisciplined`).
- The event's status code is the HTTP code unless the body is a Status with another, non-zero code
  (`StatusCodeIsHttpCode`; `StatusBodyOverridesCode`, on a document of kind Status with code 409).

Three further points concern labels only:

- `docs/WATCHES_AND_STREAMS.md:223` lists no outcome label on the active-stream gauge; `pkg/telemetry/observe.go:133-140`
  gives every such series the outcome `unknown`, and so does the model.
- A request that never reaches the backend keeps the protocol `unknown` it began with (`pkg/proxy/handler.go:509`), which
  the label normaliser, knowing no such protocol, turns into `other` (`pkg/telemetry/observe.go:142-153`; `FinishedLabels`).
- Every stream counted on the pass-through path is counted under the kind `watch`; the kind `response` of
  `StreamKind` is never used (`ObservePassthroughResponse`).

## Model

| member | source | states |
|---|---|---|
| `HeaderKeyCodec.HeaderKeyEscape` | pkg/proxy/backend_identity.go:145-157 | the loop appends to its buffer exactly the encoding whose laws the next rows prove |
| `HeaderKeyCodec.LegalBytesAreTokenBytes` | pkg/proxy/backend_identity.go:163-250 | the encoder's table is exactly the token alphabet of section 5.6.2 of RFC 9110 |
| `HeaderKeyCodec.EscapeIsToken` | pkg/proxy/backend_identity.go:145-161 | every encoded key, of any bytes, is a legal header name |
| `HeaderKeyCodec.UnescapeEscape` | pkg/proxy/backend_identity.go:145-157 | percent-decoding (section 2.1 of RFC 3986) undoes the encoding for every byte string |
| `HeaderKeyCodec.CodecSurvivesCanonicalisation` | pkg/proxy/backend_identity.go:98-100 | after canonicalisation and lower-casing, decoding gives the lower-cased key |
| `HeaderKeyCodec.EscapeInjective` | pkg/proxy/backend_identity.go:141-157 | two keys have one encoding only if they are equal |
| `HeaderKeyCodec.EscapeCollidesExactlyOnCase` | pkg/proxy/backend_identity.go:96-101 | after canonicalisation two keys share a header if and only if they differ only in ASCII case |
| `HeaderKeyCodec.OneByteEscaped` | pkg/proxy/backend_identity.go:148-161 | a token byte other than '%' is written as it is, any other as '%' and its value in two upper-case hex digits |
| `HeaderKeyCodec.EscapeConcat` | pkg/proxy/backend_identity.go:145-157 | the encoding of a key is that of its bytes, one after another |
| `HeaderKeyCodec.EscapeFixesTokens` | pkg/proxy/backend_identity.go:141-161 | a key is its own encoding if and only if it is a token without '%' |
| `HeaderKeyCodec.CanonicalTwice` | pkg/proxy/backend_identity.go:135 | canonicalising twice is canonicalising once; a name that is no token stays as it is |
| `BackendIdentity.DeleteHeadersFunc` | pkg/proxy/backend_identity.go:133-139 | deleting while ranging, in any order, keeps exactly the headers whose canonical name does not match |
| `BackendIdentity.ApplyRequestHeaderForwarder` | pkg/proxy/backend_identity.go:39-41 | the default decorator only strips |
| `BackendIdentity.ApplyImpersonator` | pkg/proxy/backend_identity.go:81-103 | the whole new header map, for whichever order the extras were ranged over |
| `ImpersonationRoundTrip.ForwarderIsExact` | pkg/proxy/backend_identity.go:116-125 | of the map the decorator is given exactly `Authorization` and `Impersonate-*` go; every other header in it, `X-Remote-*` included, stays as it was |
| `ImpersonationRoundTrip.BackendReadsCaseFoldedExtras` | pkg/proxy/backend_identity.go:81-103 | for every inbound map, user and iteration order on both sides, the backend reads exactly the forwarded non-empty extras, keys lower-cased, keys equal up to case merged |
| `ImpersonationRoundTrip.FixedHeadersReadBack` | pkg/proxy/backend_identity.go:84-90 | user name, groups in order, and the UID if forwarded, read back for every user and inbound map |
| `ImpersonationRoundTrip.RoundTripForLowerCaseKeys` | pkg/proxy/backend_identity.go:81-103 | the backend reads back the whole permitted part of the user if and only if no carried extra key has an upper-case letter; all but the extras always |
| `ImpersonationRoundTrip.UpperCaseKeyIsLost` | pkg/proxy/backend_identity.go:141-144 | an extra named "A" arrives as "a" |
| `ImpersonationRoundTrip.OtherHeadersSurvive` | pkg/proxy/backend_identity.go:105-114 | outside the stripped names nothing is added, dropped or changed |
| `ImpersonationRoundTrip.IdentityHeadersAreTheProxys` | pkg/proxy/backend_identity.go:79-103 | every identity header leaving the proxy, name and values, is made from the verified user, whatever came in |
| `ImpersonationRoundTrip.OutputIsDeterminedByUser` | pkg/proxy/backend_identity.go:81-114 | inbound maps that agree outside identity, under any two map orders, give equal maps, if and only if values of extras equal up to case commute |
| `ImpersonationRoundTrip.CaseTwinsDependOnOrder` | pkg/proxy/backend_identity.go:92-102 | "a" and "A" with different values give two different outputs |
| `CommaLists.SplitConcat` | pkg/audit/builder.go:258-260 | splitting at a byte distributes over concatenation around that byte |
| `CommaLists.SplitJoin` | cmd/server/main.go:502-508 | joining parts without the separator and splitting gives the parts back |
| `CommaLists.JoinSplit` | cmd/server/main.go:502-508 | splitting and joining gives the string back |
| `CommaLists.SplitCommaList` | cmd/server/main.go:497-511 | the loop returns exactly the trimmed non-blank parts; a blank value gives none |
| `CommaLists.TokensAreClean` | cmd/server/main.go:494-511 | every entry returned is non-empty, trimmed and comma-free |
| `CommaLists.CommaListRoundTrip` | cmd/server/main.go:494-511 | a joined list is returned unchanged if and only if each entry is non-empty, trimmed and comma-free |
| `CommaLists.TokensConcat` | pkg/proxy/handler.go:803-809 | token lists concatenate around a comma |
| `CommaLists.TrimIsExact` | cmd/server/main.go:505 | trimming takes white space, by its Unicode code points in UTF-8, off both ends, all of it and nothing else |
| `ProxyHeaders.DeleteNominated` | pkg/proxy/handler.go:784-786 | one Connection value's options, trimmed and canonicalised, are what goes |
| `ProxyHeaders.StripHopByHopHeaders` | pkg/proxy/handler.go:778-791 | the three nested loops remove the fixed names and those the original Connection values nominate |
| `ProxyHeaders.HopByHopRemovalIsExact` | pkg/proxy/handler.go:764-791 | a name survives if and only if it is neither on the list nor an option of some original Connection value (section 7.6.1 of RFC 9110); values untouched; idempotent |
| `ProxyHeaders.AppendForwardedFor` | pkg/proxy/handler.go:793-810 | the whole new header map, on each of the four exits |
| `ProxyHeaders.ForwardedForAppends` | pkg/proxy/handler.go:793-810 | over all inbound lines, the token list grows by exactly the peer's tokens, at the end, if and only if the peer is blank or no line after the first holds a token |
| `ProxyHeaders.SecondLineIsLost` | pkg/proxy/handler.go:803-809 | of the lines "1" and "2", appending "3" leaves "1, 3" |
| `ProxyHeaders.LinesAreOneList` | pkg/proxy/handler.go:803 | reading the lines one by one is reading them joined by commas, as section 5.3 of RFC 9110 has it |
| `ProxyHeaders.ForwardingChain` | pkg/proxy/handler.go:793-810 | a chain of any length and any hosts, blank, untrimmed or with commas, extends the list by exactly their tokens in order, under the same condition |
| `ProxyHeaders.CopyHeaders` | pkg/proxy/handler.go:756-762 | the two loops, for whichever order the map was ranged over |
| `ProxyHeaders.CopyAppendsEachHeader` | pkg/proxy/handler.go:756-762 | each list is appended whole to what was there, independently of map order |
| `ProxyHeaders.CopyToEmptyIsExact` | pkg/proxy/handler.go:321 | a client without headers yet receives exactly the end-to-end headers of a canonical reply, which `ServeAndReport` says of its client |
| `ProxyHeaders.BuildUpstreamHeaders` | pkg/proxy/handler.go:450-473 | a fresh header map is edited, in both identity modes; the inbound one is as received |
| `ProxyHeaders.UpstreamForwardingList` | pkg/proxy/handler.go:467-470 | in both modes the whole upstream list is the first inbound line, or all lines under a blank peer, unless nominated away, followed by the peer |
| `ProxyHeaders.RemoteHeadersReachBackend` | pkg/proxy/backend_identity.go:24-41 | in request-header mode the upstream `X-Remote-*` headers are those of the request that no `Connection` value nominates, values untouched; they are all of them if and only if none is nominated |
| `ProxyHeaders.NominatedGroupIsLost` | pkg/proxy/handler.go:467-473 | `Connection: X-Remote-Group` takes the groups from the upstream request |
| `UpstreamHeaders.HopByHopIsExact` | pkg/proxy/handler.go:764-791 | a header goes on if and only if it is none of the nine names, written out, and no value of `Connection` nominates it |
| `UpstreamHeaders.RequestHeaderUpstream` | pkg/proxy/handler.go:450-473 | in request-header mode the backend is sent a map if and only if it holds no `Authorization` and no `Impersonate-*`, every other header that is not hop-by-hop as it came, and the forwarding line with the peer at its end |
| `UpstreamHeaders.ImpersonationUpstream` | pkg/proxy/backend_identity.go:79-114 | in impersonation mode the backend is sent no `Authorization` and no `X-Remote-*`; of `Impersonate-*` exactly the user, groups, UID if forwarded, and each extra that is allowed, with its values; every other header as in request-header mode |
| `AuditEvents.CollectSourceIPs` | pkg/audit/builder.go:242-271 | the set and list updates compute the first-occurrence deduplication of forwarding tokens, real IP and peer |
| `AuditEvents.FirstNonEmpty` | pkg/audit/builder.go:232-240 | the first value that is not blank, or empty if and only if all are blank |
| `AuditEvents.Build` | pkg/audit/builder.go:55-114 | fails if and only if request or request info is missing; otherwise the event field by field |
| `EventFidelity.DedupMembers` | pkg/audit/builder.go:246-256 | deduplication loses no address, invents none, repeats none |
| `EventFidelity.DedupKeepsPrefix` | pkg/audit/builder.go:246-256 | an address keeps its first place whatever follows |
| `EventFidelity.SourceIPsAgreeWithForwarding` | pkg/audit/builder.go:242-271 | the event's addresses are the deduplicated whole list the upstream request carries, in both modes, if and only if the peer's host has no comma and the addresses reported are passed on or are the peer |
| `EventFidelity.RealIPIsNotForwarded` | pkg/audit/builder.go:261 | a real-IP header naming a further address breaks the agreement |
| `EventFidelity.AddressesInOrder` | pkg/audit/builder.go:258-268 | the first forwarding line, then the real IP, then the peer, each trimmed, blank ones left out |
| `EventFidelity.ClientIsNamed` | pkg/audit/builder.go:128-134 | the audit ID is the client's, trimmed, unless blank, and the user agent is the client's |
| `EventFidelity.BodyFidelity` | pkg/audit/builder.go:136-159 | for every body and limit: marked if and only if cut under a positive limit with a non-blank prefix, then the placeholder with the true sizes; unmarked and present if and only if whole, non-blank, valid JSON, then byte for byte the body |
| `EventFidelity.PlaceholderDeterminesSizes` | pkg/audit/builder.go:141-151 | the placeholder's bytes determine both sizes |
| `EventFidelity.DigitsAreTheNumeral` | pkg/audit/builder.go:142-146 | a size is written as its decimal numeral without leading zeros, the only string of digits that is |
| `EventFidelity.UnmarkedCut` | pkg/audit/builder.go:136-143 | a cut body goes unmarked if and only if what was kept is blank, and is then absent |
| `EventFidelity.BlankCutGoesUnmarked` | pkg/audit/builder.go:137-139 | such a body, concretely |
| `EventFidelity.EventBodiesAreFaithful` | pkg/audit/builder.go:84-111 | both objects and both annotations against the two full bodies: the whole body, the placeholder, or nothing, each exactly when it should be |
| `EventFidelity.ObjectReferencePrecedence` | pkg/audit/builder.go:204-222 | names from the path, then request, then response; UID and version from the response, then request; each empty if and only if all its places are blank |
| `EventFidelity.ReferenceIsExact` | pkg/audit/builder.go:65-82 | there is a reference if and only if the request is for a resource; its names come from the path, the captured request and the captured response, its UID and version from the response and the request, where a blank or undecodable body says nothing |
| `EventFidelity.StatusCodeIsHttpCode` | pkg/audit/builder.go:161-179 | the event's code is the HTTP code if and only if no Status body brings another |
| `EventFidelity.StatusBodyOverridesCode` | pkg/audit/builder.go:163-175 | a 200 whose body is the Status document `{"kind":"Status","apiVersion":"v1","code":409}` is reported as 409 |
| `BodySpool.TransportBytes.Add` | pkg/telemetry/observe.go:68-77 | only positive counts reach the counter, and only under their own labels |
| `BodySpool.AnyChunkingDelivers` | pkg/proxy/body_spool.go:38-67 | however a body is cut into reads, with or without data on the last one, the same content is delivered |
| `BodySpool.PiecesAreFull` | pkg/proxy/body_spool.go:10 | the copy buffer takes 32768 bytes at a time |
| `BodySpool.ObservedBody.Read` | pkg/proxy/handler.go:694-708 | nothing is lost or counted twice by a read |
| `BodySpool.SpoolChunk` | pkg/proxy/body_spool.go:40-57 | one turn of the loop: file, size and bounded prefix advance together, or the write failed |
| `BodySpool.CopyToFile` | pkg/proxy/body_spool.go:37-67 | succeeds if and only if the body ends in EOF and none of its writes, one for each read with data, fails; then file, size and prefix are those of the content, for every chunking |
| `BodySpool.Seal` | pkg/proxy/body_spool.go:62-72 | the exits after the loop: handle released always; on failure the file is removed, and stays if and only if it cannot be |
| `BodySpool.SpoolBody` | pkg/proxy/body_spool.go:19-76 | for every fault schedule and chunking: succeeds if and only if the body ends in EOF and none of the create, the writes it takes and the close fails; then one new file holding exactly the body, its first min(size, max) bytes, its length, and truncated if and only if longer than max; otherwise no handle, and no new file but one that cannot be removed, so none where every file can; never more counted than delivered |
| `BodySpool.Cleanup` | pkg/proxy/body_spool.go:95-101 | afterwards the file exists if and only if it cannot be removed; every other file is as before |
| `BodySpool.CleanupComposes` | pkg/proxy/handler.go:269-273 | a file removed after other steps leaves the directory as before those steps began, up to new files that cannot be removed |
| `AuditedExchange.ClientWriter.WriteHeader` | pkg/proxy/handler.go:618-623 | the first status is the one remembered |
| `AuditedExchange.ClientWriter.Write` | pkg/proxy/handler.go:625-636 | counts exactly what the client took; an implicit 200 if no status was set |
| `AuditedExchange.CopyToClient` | pkg/proxy/handler.go:323-325 | the client gets a prefix of the spooled response, all of it if and only if no read with data fails and it takes that much |
| `AuditedExchange.WriteResponse` | pkg/proxy/handler.go:321-325 | end-to-end headers, status and body reach the client |
| `AuditedExchange.SendUpstream` | pkg/proxy/handler.go:275-294 | the backend is sent the spooled body with its exact length under the built headers, or nothing if the file cannot be reopened; the handle is closed either way |
| `AuditedExchange.RelayResponse` | pkg/proxy/handler.go:300-325 | spool, reopen, relay, clean up: relayed if and only if the body ends well and none of these operations fails, else 502; no handle stays, and no new file that can be removed |
| `AuditedExchange.Forward` | pkg/proxy/handler.go:275-330 | upstream leg and response leg composed, with the exact condition on the fault schedule, the round trip and the response body; nothing is sent if the spool cannot be reopened; no handle stays, and no new file that can be removed |
| `AuditedExchange.ServeAudited` | pkg/proxy/handler.go:255-331 | under every fault schedule open handles are as before, and so are the files but for new ones that cannot be removed; where all can be removed the files are exactly as before; the inbound headers are untouched; a sender is due if and only if both bodies end well, the round trip succeeds and none of the first writes(request) + writes(response) + 6 file operations fails, else the client gets 400 and its line of text exactly if the request could not be spooled, and 502 and its line otherwise; nothing is sent upstream if it could not be spooled and reopened; its input and the exchange are what was really sent and received; from any totals client/read = spooled request = announced length, of which backend/write is what was drained, backend/read = spooled response, and client/write equals it if and only if delivered whole |
| `ConnectionGauge.GaugeAccounts` | cmd/server/main.go:673-689 | over every interleaving, gauge plus pending increments minus pending decrements is the number of connections recorded in each state |
| `ConnectionGauge.QuiescentGaugeIsExact` | cmd/server/main.go:673-689 | with no call in flight each gauge is the exact count of the recorded connections; all are zero once none is recorded |
| `ConnectionGauge.RecordsLastReport` | cmd/server/main.go:673-681 | over every run a connection is recorded if and only if it was last reported neither closed nor hijacked, and in the state last reported |
| `ConnectionGauge.GaugeCountsLastReports` | cmd/server/main.go:673-689 | with no call in flight each gauge is the number of connections last reported in its state, and zero for closed and hijacked; all are zero once every connection was last reported closed or hijacked |
| `ConnectionGauge.GaugeNeverNegative` | cmd/server/main.go:673-689 | without overtaking on a connection, no gauge is ever negative, at any step |
| `ConnectionGauge.NonOverlappingIsDisciplined` | cmd/server/main.go:673-689 | calls that do not overlap on a connection never overtake |
| `ConnectionGauge.OverlapGoesNegative` | cmd/server/main.go:683-688 | after any overtaking, some continuation without further overtaking drives a gauge below zero |
| `ConnectionGauge.DisciplineIsExact` | cmd/server/main.go:673-689 | a locked section keeps all disciplined futures non-negative if and only if it overtakes no pending increment on its connection |
| `ConnectionGauge.TwoCallsGoNegative` | cmd/server/main.go:683-688 | three steps of two calls on one new connection show -1 |
| `ConnectionGauge.CallAlone` | cmd/server/main.go:673-689 | the protocol steps of one undisturbed call, composed: recorded state and both gauge updates |
| `ConnectionGauge.ConnStateTracker.Observe` | cmd/server/main.go:673-689 | the method, undisturbed, is one run of the protocol, and forgets a connection reported closed or hijacked |
| `ConnectionGauge.ConnectionsActive.AddConnection` | pkg/telemetry/observe.go:91-95 | one gauge moves by the delta |
| `StreamGauge.Telemetry.StreamStarted` | pkg/telemetry/observe.go:79-82 | one more active stream under its labels |
| `StreamGauge.Telemetry.StreamDone` | pkg/telemetry/observe.go:84-88 | one active stream less under the starting labels, one duration sample under the outcome |
| `StreamGauge.ObservedReadCloser.Read` | pkg/proxy/handler.go:694-708 | the first read error ends the stream, as backend close or read error |
| `StreamGauge.ObservedReadCloser.Close` | pkg/proxy/handler.go:710-716 | a close ends the stream only if nothing did before |
| `StreamGauge.StreamGaugeIsExact` | pkg/telemetry/observe.go:79-89 | over every run of many streams, each gauge value and each outcome count is the number of streams in that condition |
| `StreamGauge.StartedIsActivePlusEnded` | pkg/telemetry/observe.go:79-89 | under every label set, started = active + ended over the three outcomes |
| `StreamGauge.SamplesCountEnds` | pkg/proxy/handler.go:694-716 | over every run the samples under `backend_close`, `read_error` and `client_cancel` are the streams that first met EOF, first met another error, or were closed first; the gauge counts those that met none |
| `StreamGauge.StreamAttrsSay` | pkg/telemetry/observe.go:133-153 | a stream is counted under its kind and the labels of its two protocols |
| `StreamGauge.FirstTerminalEventDecides` | pkg/proxy/handler.go:694-716 | a stream ends at most once, with the outcome of its first terminal event; later calls change nothing |
| `RequestMetrics.OneSampleWithFirstOutcome` | pkg/proxy/handler.go:579-596 | over every interleaving one round-trip sample is decided if one was ever reported, with the first outcome and that moment's labels |
| `RequestMetrics.StreamingNeverGoesBack` | pkg/proxy/handler.go:517-543 | a request that streams at any point of a run streams ever after |
| `RequestMetrics.StateTellsEvents` | pkg/proxy/handler.go:517-543 | over every interleaving each field is what the request began with until an event says otherwise |
| `RequestMetrics.SamplesTellEvents` | pkg/proxy/handler.go:579-596 | the one sample has the verb, the streaming flag and the backend's protocol of the moment of the first report |
| `RequestMetrics.RequestMetricState.SetRequestInfo` | pkg/proxy/handler.go:517-533 | the locked section is the step the runs are made of |
| `RequestMetrics.RequestMetricState.SetBackend` | pkg/proxy/handler.go:535-543 | likewise |
| `RequestMetrics.RequestMetricState.RecordBackendRoundTrip` | pkg/proxy/handler.go:579-596 | undisturbed, decide and emit in turn |
| `RequestMetrics.ObservePassthroughResponse` | pkg/proxy/handler.go:400-440 | a stream is opened if and only if the response streams and is no protocol switch, always as a watch; one sample, with outcome "ok" and the labels of that moment, unless there is one already |
| `RequestIdentity.FromRequest` | pkg/identity/requestheader.go:93-119 | whatever the authenticator does to its clone the request keeps its headers; the user comes back entry for entry |
| `AuditLifecycle.AuditConservation` | pkg/proxy/handler.go:333-383 | over every interleaving: senders = built + not yet built; built = sent + send_error + in flight; each outcome = timed + about to be timed; build_error stays 0; requests_total per label set = requests finished under it |
| `AuditLifecycle.QuiescentTotals` | pkg/proxy/handler.go:365-383 | at rest built = sent + send_error = deliveries timed = senders started |
| `AuditLifecycle.EventsOnlyForRelayedRequests` | pkg/proxy/handler.go:217-252 | a sender exists if and only if its request's response was relayed and handed over; the exchange is one `ServeAudited` can make of that request, and the event is the event of that exchange |
| `AuditLifecycle.ResponsesAreFinal` | pkg/proxy/handler.go:322-331 | whatever follows in a run, of any request or sender, an answered request keeps its response, status, headers and body, and its exchange |
| `AuditLifecycle.EventFollowsResponse` | pkg/proxy/handler.go:217-252 | behind every sender of every run lie, in this order, the verification of its user from the request's own headers, the resolution of its operation, the exchange that wrote its response, and its start |
| `AuditLifecycle.EachFinishedRequestCountsOnce` | pkg/proxy/handler.go:200-206 | requests_total summed over all labels is the number of finished requests |
| `RequestFates.FateOfIdentified` | pkg/proxy/handler.go:217-227 | over every run a request is turned away with 401, for good, if and only if the authenticator failed, or a verified identity is required and it recognised none; else it goes on as the user named |
| `RequestFates.FateOfResolved` | pkg/proxy/handler.go:239-252 | over every run a request resolved to create, update, patch, delete or deletecollection of a resource is never passed through, fails only with 400 or 502, and once relayed is not finished without a sender; any other, or one that could not be resolved, is passed through and never has a sender |
| `RequestFates.EventsAreForMutations` | pkg/proxy/handler.go:475-486 | every sender of every run is for one of the five verbs on a resource |
| `RequestFates.FinishedLabels` | pkg/proxy/handler.go:200-206 | every label of a finished request, from how it arrived, its resolution, its backend and its status, and it keeps them |
| `RequestFates.CountersCountAnswers` | pkg/proxy/handler.go:333-383 | at rest built = senders started, and sent and send_error = the deliveries the webhook took and refused |
| `AuditLifecycle.AuditMetrics.SendBestEffort` | pkg/proxy/handler.go:365-383 | one outcome counted and timed, the same one |
| `AuditLifecycle.AuditMetrics.BuildAndSendAuditEvent` | pkg/proxy/handler.go:333-363 | build_error alone, or built and then one delivery outcome |
| `AuditLifecycle.SenderAlone` | pkg/proxy/handler.go:333-383 | the sender's protocol steps add up to what its method does |
| `EndToEnd.EventTells` | pkg/audit/builder.go:55-114 | the event of a relayed exchange names its user, verb, URI, audit ID, user agent and object, the last from path and captured bodies in the source's order, shows both bodies faithfully, and gives its status and its addresses in order |
| `EndToEnd.EventMatchesExchange` | pkg/proxy/handler.go:330 | it does so for every exchange `ServeAudited` can make, for which the backend was sent the headers made of the request, its peer and that user, name by name, and its addresses are those sent upstream exactly under the condition on the inbound request |
| `EndToEnd.BackendActsForTheAuditedUser` | pkg/proxy/handler.go:450-473 | in impersonation mode the backend acts for the user the event names if and only if no carried extra key has an upper-case letter |
| `EndToEnd.BackendVerifiesTheAuditedUser` | pkg/proxy/backend_identity.go:24-41 | in request-header mode every authenticator that reads only `X-Remote-*` and takes the request for the event's user takes what the backend was sent for that user, if and only if no `Connection` value nominates such a header |
| `EndToEnd.ServeAndReport` | pkg/proxy/handler.go:255-363 | exchange and sender composed: an event if and only if nothing fails before the response goes out, true to what backend and client were given; a client without headers gets exactly the end-to-end ones of a canonical reply; the backend is sent the headers made of the request, its peer and its user, name by name; nothing counted otherwise, and nothing sent upstream if the request could not be spooled and reopened; bytes conserved; no handle kept, and no new file that can be removed |
| `EndToEnd.OneFault` | pkg/proxy/handler.go:255-331 | for empty bodies and one failing file operation: 400 for the first two, 502 for the next four, an event from the seventh on |
| `EndToEnd.EveryEventTellsOfItsOwnRequest` | pkg/proxy/handler.go:189-383 | over every interleaving, every event on its way is for one of the five mutations and tells of the exchange of its own request, whose headers reached the backend name by name as they should, with the user verified for it and the reply whose relay its client has: its status, its end-to-end headers where it is canonical, and its body up to some byte, both bodies having ended well |
| `EndToEnd.EveryEventsUserIsVerifiedAgain` | pkg/proxy/backend_identity.go:24-41 | over every interleaving in request-header mode, the user of every event on its way was verified from its own request by an authenticator that, reading only `X-Remote-*`, verifies the same user from what the backend was sent unless a header was nominated |

## Left out

- The reverse proxy behind the pass-through path, HTTP/2, hijacking and protocol upgrades: library behaviour. Nothing is claimed about the forwarding headers of that path.
- TLS, transports, bearer tokens, trust controllers and the authenticator's own decision: the authenticator is an abstract function from headers to an answer and to the headers it leaves.
- JSON parsing and validation, RequestInfo resolution, URLs, UUIDs and `net.SplitHostPort`: abstract functions or inputs.
- Clocks and durations: a histogram is modelled as its number, or its list, of samples.
- OpenTelemetry and Prometheus: instruments are maps from label sets to numbers; the exporter and the metric reader are not part of this model.
- Logging, first-event milestones, flag parsing and validation, the webhook's HTTP client, informational 1xx statuses, and panics that abort a handler.
- The backend's reading of impersonation headers is not in this repository; the model takes what the comment at pkg/proxy/backend_identity.go:141-144 relies on: lower-case the header name, drop the prefix, percent-decode.
- Which removals fail is decided by the path, for all other file operations by their number: a file that cannot be removed never can be.
- BodySpool.SpoolBody: a nil body is an empty one here; of the bytes counted by a failed spool only an upper bound is stated.
- BodySpool.Cleanup: the nil spool and the empty path, for which the source does nothing, do not occur after a successful spool and are not modelled.
- AuditedExchange.ServeAudited: the second, deferred close of the response body, the headers `http.Error` itself sets, and the backend-labels update are not modelled; the transport closes the body it is handed.
- AuditedExchange.SendUpstream: URL, host and method of the upstream request are not modelled; its headers, body and length are.
- RequestMetrics.ObservePassthroughResponse: the byte observer also wrapped around the response body is not modelled.
- StreamGauge.ObservedReadCloser.Read: truly concurrent Read and Close on one body, which has no lock; each call is one step, and streams interleave.
- RequestIdentity.FromRequest: sharing of the backing arrays of groups and extras cannot arise on values; with an error the trust flag, which no caller reads, is false.
- EventFidelity.StatusCodeIsHttpCode: the code's conversion to 32 bits is not modelled; HTTP codes fit.
- AuditEvents.Build: level, stage and timestamps are constants or clocks; of a Status only version and code are modelled.
- EndToEnd.BackendVerifiesTheAuditedUser: speaks of the `X-Remote-*` headers the documentation names; a cluster may configure the authenticator with other header names.
- AuditLifecycle.AuditConservation: serving a request is one step here, which may end in any exchange `CanMake` allows; `AuditedExchange.ServeAudited` proves that its faults and inner steps end in one of these.
- The classification of a response as a stream by its content type is an input of `ObservePassthroughResponse`.
