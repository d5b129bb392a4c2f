/** The header edits of the audited path: hop-by-hop removal, forwarding address, response copy, upstream request headers. */
module ProxyHeaders {
  import opened Bytes
  import opened HeaderKeyCodec
  import opened HeaderMaps
  import opened CommaLists
  import opened BackendIdentity
  import opened ImpersonationRoundTrip

  const CONNECTION: bytes := "Connection"
  const FORWARDED_FOR: bytes := "X-Forwarded-For"

  const HOP_BY_HOP: seq<bytes> := [
    "Connection",
    "Proxy-Connection",
    "Keep-Alive",
    "Proxy-Authenticate",
    "Proxy-Authorization",
    "Te",
    "Trailer",
    "Transfer-Encoding",
    "Upgrade"
  ]

  // ----- Hop-by-hop headers

  /** The canonical names of a list of option names, each trimmed first. */
  function NamesOf(options: seq<bytes>): set<bytes> {
    if options == [] then {}
    else NamesOf(options[..|options| - 1]) + {Canonical(Trim(options[|options| - 1]))}
  }

  /** Every header name some Connection value nominates (section 7.6.1 of RFC 9110). */
  function Nominated(connectionValues: seq<bytes>): set<bytes> {
    if connectionValues == [] then {}
    else Nominated(connectionValues[..|connectionValues| - 1])
         + NamesOf(Split(connectionValues[|connectionValues| - 1], ','))
  }

  function CanonicalNames(names: seq<bytes>): set<bytes> {
    set i | 0 <= i < |names| :: Canonical(names[i])
  }

  function HopByHopNames(): set<bytes> {
    CanonicalNames(HOP_BY_HOP)
  }

  /** Exactly the fixed names and the names nominated by the original Connection values are gone; values are untouched. */
  function HopByHopRemoved(h: HeaderMap): HeaderMap {
    h - (HopByHopNames() + Nominated(Values(h, CONNECTION)))
  }

  /** Deletes the headers one Connection value nominates. */
  method DeleteNominated(header: Header, connectionValue: bytes)
    modifies header
    ensures header.fields == old(header.fields) - NamesOf(Split(connectionValue, ','))
  {
    hide Canonical, Trim, Split;
    var options := Split(connectionValue, ',');
    for i := 0 to |options|
      invariant header.fields == old(header.fields) - NamesOf(options[..i])
    {
      header.Del(Trim(options[i]));
      assert options[..i + 1][..i] == options[..i];
    }
    assert options[..|options|] == options;
  }

  method DeleteEach(header: Header, names: seq<bytes>)
    modifies header
    ensures header.fields == old(header.fields) - CanonicalNames(names)
  {
    hide Canonical;
    for i := 0 to |names|
      invariant header.fields == old(header.fields) - set j | 0 <= j < i :: Canonical(names[j])
    {
      header.Del(names[i]);
    }
  }

  method StripHopByHopHeaders(header: Header)
    modifies header
    ensures header.fields == HopByHopRemoved(old(header.fields))
  {
    var connectionValues := Values(header.fields, CONNECTION);
    DeleteEach(header, HOP_BY_HOP);
    for i := 0 to |connectionValues|
      invariant header.fields == old(header.fields) - (HopByHopNames() + Nominated(connectionValues[..i]))
    {
      DeleteNominated(header, connectionValues[i]);
      assert connectionValues[..i + 1][..i] == connectionValues[..i];
    }
    assert connectionValues[..|connectionValues|] == connectionValues;
  }

  lemma CanonicalConnection()
    ensures Canonical(CONNECTION) == CONNECTION
  {
    assert IsToken(CONNECTION);
  }

  /** Although Connection itself goes first, what it nominated is gone too, and a second pass changes nothing. */
  lemma HopByHopRemovalIsExact(h: HeaderMap)
    ensures forall name :: name in HopByHopRemoved(h) <==>
              name in h && name !in HopByHopNames() && !IsNominated(h, name)
    ensures forall name :: name in HopByHopRemoved(h) ==> HopByHopRemoved(h)[name] == h[name]
    ensures HopByHopRemoved(HopByHopRemoved(h)) == HopByHopRemoved(h)
  {
    var removed := HopByHopRemoved(h);
    forall name ensures name in Nominated(Values(h, CONNECTION)) <==> IsNominated(h, name) {
      NominatedMeansListed(Values(h, CONNECTION), name);
    }
    CanonicalConnection();
    assert Canonical(HOP_BY_HOP[0]) == CONNECTION;
    assert CONNECTION !in removed;
    assert Values(removed, CONNECTION) == [];
  }

  ghost predicate IsOption(option: bytes, connectionValue: bytes) {
    option in Split(connectionValue, ',')
  }

  /** Some option of some Connection value, trimmed and canonicalised, is `name`. */
  ghost predicate IsNominated(h: HeaderMap, name: bytes) {
    exists value, option ::
      value in Values(h, CONNECTION) && IsOption(option, value) && Canonical(Trim(option)) == name
  }

  lemma {:induction false} NamesOfListed(options: seq<bytes>, name: bytes)
    ensures name in NamesOf(options) <==> exists option :: option in options && Canonical(Trim(option)) == name
  {
    hide Canonical, Trim;
    if options != [] {
      var rest, last := options[..|options| - 1], options[|options| - 1];
      NamesOfListed(rest, name);
      assert options == rest + [last];
    }
  }

  lemma {:induction false} NominatedMeansListed(values: seq<bytes>, name: bytes)
    ensures name in Nominated(values) <==>
            exists value, option :: value in values && IsOption(option, value) && Canonical(Trim(option)) == name
  {
    hide Canonical, Trim, NamesOf, Split;
    if values != [] {
      var rest, last := values[..|values| - 1], values[|values| - 1];
      NominatedMeansListed(rest, name);
      assert values == rest + [last];
      var options := Split(last, ',');
      NamesOfListed(options, name);
      if name in NamesOf(options) {
        var option :| option in options && Canonical(Trim(option)) == name;
        assert IsOption(option, last);
      }
    }
  }

  // ----- The forwarding address

  /** The peer's host: the host part if net.SplitHostPort (`hostOf`) accepts the address, else the whole address. */
  function PeerHost(remoteAddr: bytes, hostOf: bytes -> Option<bytes>): bytes {
    match hostOf(remoteAddr)
    case Some(host) => host
    case None => remoteAddr
  }

  function WithForwardedFor(h: HeaderMap, peerHost: bytes): HeaderMap {
    var host, existing := Trim(peerHost), Get(h, FORWARDED_FOR);
    if host == "" then h
    else WithValue(h, FORWARDED_FOR, if existing == "" then host else existing + ", " + host)
  }

  method AppendForwardedFor(header: Header, remoteAddr: bytes, hostOf: bytes -> Option<bytes>)
    modifies header
    ensures header.fields == WithForwardedFor(old(header.fields), PeerHost(remoteAddr, hostOf))
  {
    var host := match hostOf(remoteAddr) { case Some(h) => h case None => remoteAddr };
    host := Trim(host);
    if host == "" {
      return;
    }
    var existing := Get(header.fields, FORWARDED_FOR);
    if existing == "" {
      header.Set(FORWARDED_FOR, host);
      return;
    }
    header.Set(FORWARDED_FOR, existing + ", " + host);
  }

  /** The address tokens of the first forwarding line, the only one the code ever looks at. */
  function ForwardedTokens(h: HeaderMap): seq<bytes> {
    Tokens(Get(h, FORWARDED_FOR))
  }

  function TokensOfLines(lines: seq<bytes>): seq<bytes> {
    if lines == [] then [] else Tokens(lines[0]) + TokensOfLines(lines[1..])
  }

  /** The address tokens of all forwarding lines: several lines are one list (section 5.3 of RFC 9110). */
  function AllForwardedTokens(h: HeaderMap): seq<bytes> {
    TokensOfLines(Values(h, FORWARDED_FOR))
  }

  function LaterForwardedTokens(h: HeaderMap): seq<bytes> {
    var lines := Values(h, FORWARDED_FOR);
    if lines == [] then [] else TokensOfLines(lines[1..])
  }

  lemma NoTokensInNothing()
    ensures Tokens("") == [] && IsBlank("")
  {
    TokensWithoutComma("");
    assert Trim("") == "";
  }

  /** Reading the lines one by one is reading them joined by commas. */
  lemma {:induction false} LinesAreOneList(lines: seq<bytes>)
    ensures TokensOfLines(lines) == Tokens(Join(lines, ','))
  {
    hide Tokens;
    if lines == [] {
      NoTokensInNothing();
    } else {
      LinesAreOneList(lines[1..]);
      if |lines| == 1 {
        assert TokensOfLines(lines[1..]) == [];
      } else {
        TokensConcat(lines[0], Join(lines[1..], ','));
      }
    }
  }

  lemma AllTokensSplit(h: HeaderMap)
    ensures AllForwardedTokens(h) == ForwardedTokens(h) + LaterForwardedTokens(h)
  {
    NoTokensInNothing();
  }

  lemma FirstLineAppends(h: HeaderMap, peerHost: bytes)
    ensures ForwardedTokens(WithForwardedFor(h, peerHost)) == ForwardedTokens(h) + Tokens(Trim(peerHost))
  {
    var host, existing := Trim(peerHost), Get(h, FORWARDED_FOR);
    NoTokensInNothing();
    if host != "" && existing != "" {
      assert existing + ", " + host == existing + "," + (" " + host);
      TokensConcat(existing, " " + host);
      TokensDropLeadingBlank(host);
    }
  }

  /** The whole outgoing list: a peer that is not blank is put after the first line, and the later lines are lost. */
  lemma ForwardedListAfter(h: HeaderMap, peerHost: bytes)
    ensures AllForwardedTokens(WithForwardedFor(h, peerHost)) ==
            if IsBlank(peerHost) then AllForwardedTokens(h) else ForwardedTokens(h) + Tokens(Trim(peerHost))
    ensures LaterForwardedTokens(WithForwardedFor(h, peerHost)) == if IsBlank(peerHost) then LaterForwardedTokens(h) else []
  {
    FirstLineAppends(h, peerHost);
    AllTokensSplit(WithForwardedFor(h, peerHost));
  }

  lemma TokensOfHost(peerHost: bytes)
    ensures Tokens(Trim(peerHost)) == [] <== IsBlank(peerHost)
  {
    NoTokensInNothing();
  }

  /**
   Whatever the header held, the forwarding list grows by exactly the peer's tokens, at the end, if and only if
   the peer is blank or no line after the first holds a token.
   */
  lemma ForwardedForAppends(h: HeaderMap, peerHost: bytes)
    ensures AllForwardedTokens(WithForwardedFor(h, peerHost)) == AllForwardedTokens(h) + Tokens(Trim(peerHost))
            <==> IsBlank(peerHost) || LaterForwardedTokens(h) == []
  {
    hide Tokens, TokensOfLines, WithForwardedFor, IsBlank, Trim;
    ForwardedListAfter(h, peerHost);
    AllTokensSplit(h);
    TokensOfHost(peerHost);
  }

  lemma DigitToken(c: byte)
    requires IsDigit(c)
    ensures Trim([c]) == [c] && Tokens([c]) == [[c]] && !IsBlank([c])
  {
    assert Trim([c]) == [c];
    TokensWithoutComma([c]);
  }

  lemma TokensOfTwoLines(a: bytes, b: bytes)
    ensures TokensOfLines([a, b]) == Tokens(a) + Tokens(b)
  {
    hide Tokens;
    assert [a, b][1..] == [b];
    assert TokensOfLines([b]) == Tokens(b) + TokensOfLines([b][1..]);
  }

  lemma TwoDigitLines(h: HeaderMap, a: byte, b: byte)
    requires Values(h, FORWARDED_FOR) == [[a], [b]] && IsDigit(a) && IsDigit(b)
    ensures ForwardedTokens(h) == [[a]] && AllForwardedTokens(h) == [[a], [b]]
  {
    DigitToken(a);
    DigitToken(b);
    hide Tokens, Values, TokensOfLines;
    TokensOfTwoLines([a], [b]);
  }

  /** Concretely, of the two lines "1" and "2" the second is gone once peer "3" is appended. */
  lemma SecondLineIsLost(h: HeaderMap)
    requires Values(h, FORWARDED_FOR) == ["1", "2"]
    ensures AllForwardedTokens(h) == ["1", "2"] && AllForwardedTokens(WithForwardedFor(h, "3")) == ["1", "3"]
  {
    hide Tokens, Trim, IsBlank, WithForwardedFor, ForwardedTokens, AllForwardedTokens, Values;
    TwoDigitLines(h, '1', '2');
    DigitToken('3');
    ForwardedListAfter(h, "3");
  }

  function ForwardedThrough(h: HeaderMap, peerHosts: seq<bytes>): HeaderMap {
    if peerHosts == [] then h
    else WithForwardedFor(ForwardedThrough(h, peerHosts[..|peerHosts| - 1]), peerHosts[|peerHosts| - 1])
  }

  function HostTokens(peerHosts: seq<bytes>): seq<bytes> {
    if peerHosts == [] then []
    else HostTokens(peerHosts[..|peerHosts| - 1]) + Tokens(Trim(peerHosts[|peerHosts| - 1]))
  }

  predicate AllBlank(peerHosts: seq<bytes>) {
    forall i :: 0 <= i < |peerHosts| ==> IsBlank(peerHosts[i])
  }

  lemma {:induction false} ChainedLists(h: HeaderMap, peerHosts: seq<bytes>)
    ensures var through := ForwardedThrough(h, peerHosts);
            && ForwardedTokens(through) == ForwardedTokens(h) + HostTokens(peerHosts)
            && LaterForwardedTokens(through) == (if AllBlank(peerHosts) then LaterForwardedTokens(h) else [])
            && (AllBlank(peerHosts) ==> HostTokens(peerHosts) == [])
  {
    hide Tokens, TokensOfLines, WithForwardedFor, IsBlank, Trim, ForwardedTokens, LaterForwardedTokens;
    if peerHosts != [] {
      var rest, last := peerHosts[..|peerHosts| - 1], peerHosts[|peerHosts| - 1];
      ChainedLists(h, rest);
      FirstLineAppends(ForwardedThrough(h, rest), last);
      ForwardedListAfter(ForwardedThrough(h, rest), last);
      TokensOfHost(last);
      assert AllBlank(peerHosts) <==> AllBlank(rest) && IsBlank(last);
      ConcatAssociates(ForwardedTokens(h), HostTokens(rest), Tokens(Trim(last)));
    }
  }

  /**
   A chain of proxies of any length, whatever their addresses look like, extends the list by exactly the tokens of its
   hosts in order, if and only if all its hosts are blank or no line after the first holds a token.
   */
  lemma ForwardingChain(h: HeaderMap, peerHosts: seq<bytes>)
    ensures AllForwardedTokens(ForwardedThrough(h, peerHosts)) == AllForwardedTokens(h) + HostTokens(peerHosts)
            <==> AllBlank(peerHosts) || LaterForwardedTokens(h) == []
  {
    hide Tokens, TokensOfLines, WithForwardedFor, IsBlank, Trim, ForwardedTokens, LaterForwardedTokens, AllForwardedTokens;
    ChainedLists(h, peerHosts);
    AllTokensSplit(h);
    AllTokensSplit(ForwardedThrough(h, peerHosts));
  }

  // ----- Copying the response headers

  function WithCopied(dst: HeaderMap, src: HeaderMap, order: seq<bytes>): HeaderMap
    requires forall key :: key in order ==> key in src
  {
    if order == [] then dst
    else
      var last := order[|order| - 1];
      WithAllAdded(WithCopied(dst, src, order[..|order| - 1]), last, src[last])
  }

  method CopyHeaders(dst: Header, src: HeaderMap) returns (ghost order: seq<bytes>)
    modifies dst
    ensures Enumerates(order, src.Keys)
    ensures dst.fields == WithCopied(old(dst.fields), src, order)
  {
    order := [];
    var toVisit := src.Keys;
    while toVisit != {}
      invariant toVisit <= src.Keys
      invariant Enumerates(order, src.Keys - toVisit)
      invariant dst.fields == WithCopied(old(dst.fields), src, order)
    {
      var key :| key in toVisit;
      toVisit := toVisit - {key};
      ghost var before := order;
      order := order + [key];
      assert order[..|order| - 1] == before;
      dst.AddAll(key, src[key]);
    }
  }

  /** For canonical source names the copy appends each list to what was there, in whatever order the map is visited. */
  lemma {:induction false} CopyAppendsEachHeader(dst: HeaderMap, src: HeaderMap, order: seq<bytes>, name: bytes)
    requires forall key :: key in order ==> key in src && Canonical(key) == key
    requires forall i, j :: 0 <= i < j < |order| ==> order[i] != order[j]
    ensures var after := WithCopied(dst, src, order);
            var added := if name in order then src[name] else [];
            && (name in after <==> name in dst || added != [])
            && (name in after ==> after[name] == (if name in dst then dst[name] else []) + added)
  {
    hide Canonical;
    if order != [] {
      var rest, last := order[..|order| - 1], order[|order| - 1];
      assert order == rest + [last];
      CopyAppendsEachHeader(dst, src, rest, name);
    }
  }

  /** A client with no headers yet receives exactly the end-to-end headers of a canonical response, each list in order. */
  lemma CopyToEmptyIsExact(src: HeaderMap, order: seq<bytes>)
    requires Enumerates(order, src.Keys)
    requires forall key :: key in src ==> Canonical(key) == key && src[key] != []
    ensures WithCopied(map[], src, order) == src
  {
    forall name
      ensures name in WithCopied(map[], src, order) <==> name in src
      ensures name in src ==> WithCopied(map[], src, order)[name] == src[name]
    {
      CopyAppendsEachHeader(map[], src, order, name);
    }
  }

  // ----- The upstream request

  datatype IdentityMode = RequestHeader | Impersonation(imp: Impersonator)

  /** The headers of the upstream request, before the identity decorator runs. */
  function Proxied(h: HeaderMap, peerHost: bytes): HeaderMap {
    WithForwardedFor(HopByHopRemoved(h), peerHost)
  }

  ghost predicate IsUpstream(upstream: HeaderMap, mode: IdentityMode, h: HeaderMap, peerHost: bytes, user: UserInfo) {
    match mode
    case RequestHeader => upstream == Keeping(Proxied(h, peerHost), IsImpersonationHeader)
    case Impersonation(imp) =>
      exists order :: Enumerates(order, user.extra.Keys) && upstream == Impersonated(imp, Proxied(h, peerHost), user, order)
  }

  /** Only the fresh clone is edited: the inbound header object, from which the audit event is built, is not. */
  method BuildUpstreamHeaders(inbound: Header, mode: IdentityMode, remoteAddr: bytes, hostOf: bytes -> Option<bytes>, user: UserInfo)
    returns (upstream: Header)
    ensures fresh(upstream)
    ensures inbound.fields == old(inbound.fields)
    ensures IsUpstream(upstream.fields, mode, inbound.fields, PeerHost(remoteAddr, hostOf), user)
  {
    upstream := inbound.Clone();
    StripHopByHopHeaders(upstream);
    AppendForwardedFor(upstream, remoteAddr, hostOf);
    match mode
    case RequestHeader => ApplyRequestHeaderForwarder(upstream);
    case Impersonation(imp) => var order := ApplyImpersonator(imp, upstream, user);
  }

  lemma ForwardedForIsNoIdentityHeader()
    ensures Canonical(FORWARDED_FOR) == FORWARDED_FOR
    ensures !IsIdentityHeader(FORWARDED_FOR)
  {
    assert IsToken(FORWARDED_FOR);
    assert FORWARDED_FOR[0] == 'X' && AUTHORIZATION[0] == 'A' && IMPERSONATE_PREFIX[0] == 'I';
    assert FORWARDED_FOR[2] == 'F' && REMOTE_PREFIX[2] == 'R';
  }

  lemma NoTokensWithoutHeader(h: HeaderMap)
    requires Values(h, FORWARDED_FOR) == []
    ensures ForwardedTokens(h) == [] && AllForwardedTokens(h) == []
  {
    NoTokensInNothing();
  }

  lemma ForwardedForIsNotHopByHop()
    ensures FORWARDED_FOR !in HopByHopNames()
  {
    forall i | 0 <= i < |HOP_BY_HOP| ensures Canonical(HOP_BY_HOP[i]) != FORWARDED_FOR {
      assert |HOP_BY_HOP[i]| != 15;
    }
  }

  /** What is still sent of the inbound list: its first line, all of it under a blank peer, or nothing once it is nominated away. */
  ghost function PassedOn(h: HeaderMap, peerHost: bytes): seq<bytes> {
    if IsNominated(h, FORWARDED_FOR) then []
    else if IsBlank(peerHost) then AllForwardedTokens(h)
    else ForwardedTokens(h)
  }

  lemma ProxiedForwardingList(h: HeaderMap, peerHost: bytes)
    ensures AllForwardedTokens(Proxied(h, peerHost)) == PassedOn(h, peerHost) + Tokens(Trim(peerHost))
  {
    ForwardedForIsNoIdentityHeader();
    ForwardedForIsNotHopByHop();
    HopByHopRemovalIsExact(h);
    ForwardedListAfter(HopByHopRemoved(h), peerHost);
    TokensOfHost(peerHost);
    if IsNominated(h, FORWARDED_FOR) {
      NoTokensWithoutHeader(HopByHopRemoved(h));
    } else {
      assert Values(HopByHopRemoved(h), FORWARDED_FOR) == Values(h, FORWARDED_FOR);
    }
  }

  /** In both identity modes the upstream request carries the forwarding list the proxy made. */
  lemma UpstreamForwardingList(upstream: HeaderMap, mode: IdentityMode, h: HeaderMap, peerHost: bytes, user: UserInfo)
    requires IsUpstream(upstream, mode, h, peerHost, user)
    ensures AllForwardedTokens(upstream) == PassedOn(h, peerHost) + Tokens(Trim(peerHost))
  {
    var proxied := Proxied(h, peerHost);
    ProxiedForwardingList(h, peerHost);
    assert Values(upstream, FORWARDED_FOR) == Values(proxied, FORWARDED_FOR) by {
      ForwardedForIsNoIdentityHeader();
      if mode.Impersonation? {
        var order :| Enumerates(order, user.extra.Keys) && upstream == Impersonated(mode.imp, proxied, user, order);
        OtherHeadersSurvive(mode.imp, proxied, user, order, FORWARDED_FOR);
      }
    }
  }

  // ----- The delegated identity in request-header mode

  function RemoteHeaders(h: HeaderMap): HeaderMap {
    map name | name in h && REMOTE_PREFIX <= Canonical(name) :: h[name]
  }

  /** Whether some Connection value nominates a header of the delegated identity. */
  ghost predicate IdentityNominated(h: HeaderMap) {
    exists name :: name in RemoteHeaders(h) && IsNominated(h, name)
  }

  lemma CanonicalStart(s: bytes)
    ensures |Canonical(s)| == |s|
    ensures s != [] ==> Canonical(s)[0] in {s[0], UpperByte(s[0])}
  {
  }

  lemma RemoteIsNotHopByHop(name: bytes)
    requires REMOTE_PREFIX <= Canonical(name)
    ensures name !in HopByHopNames()
  {
    hide Canonical;
    CanonicalStart(name);
    assert Canonical(name)[0] == REMOTE_PREFIX[0] == 'X';
    forall i | 0 <= i < |HOP_BY_HOP| ensures Canonical(HOP_BY_HOP[i]) != name {
      CanonicalStart(HOP_BY_HOP[i]);
      assert HOP_BY_HOP[i][0] in {'C', 'P', 'K', 'T', 'U'};
    }
  }

  lemma RemoteIsKept(upstream: HeaderMap, h: HeaderMap, peerHost: bytes, user: UserInfo, name: bytes)
    requires IsUpstream(upstream, RequestHeader, h, peerHost, user) && REMOTE_PREFIX <= Canonical(name)
    ensures name in upstream <==> name in h && !IsNominated(h, name)
    ensures name in upstream ==> upstream[name] == h[name]
  {
    hide Canonical, IsNominated, HopByHopRemoved, HopByHopNames, Trim;
    HopByHopRemovalIsExact(h);
    RemoteIsNotHopByHop(name);
    ForwardedForIsNoIdentityHeader();
    ForwarderIsExact(Proxied(h, peerHost), name);
  }

  /**
   In request-header mode the backend is sent the client's X-Remote-* headers except those a Connection value nominates,
   values untouched; so it is sent all of them exactly if none is nominated.
   */
  lemma RemoteHeadersReachBackend(upstream: HeaderMap, h: HeaderMap, peerHost: bytes, user: UserInfo)
    requires IsUpstream(upstream, RequestHeader, h, peerHost, user)
    ensures RemoteHeaders(upstream) == map name | name in RemoteHeaders(h) && !IsNominated(h, name) :: h[name]
    ensures RemoteHeaders(upstream) == RemoteHeaders(h) <==> !IdentityNominated(h)
  {
    hide Canonical, IsNominated, IsUpstream;
    forall name | REMOTE_PREFIX <= Canonical(name)
      ensures name in upstream <==> name in h && !IsNominated(h, name)
      ensures name in upstream ==> upstream[name] == h[name]
    {
      RemoteIsKept(upstream, h, peerHost, user, name);
    }
    if name :| name in RemoteHeaders(h) && IsNominated(h, name) {
      assert name !in RemoteHeaders(upstream);
    }
  }

  const REMOTE_GROUP: bytes := "X-Remote-Group"

  lemma RemoteGroupIsCanonical()
    ensures Canonical(REMOTE_GROUP) == REMOTE_GROUP && REMOTE_PREFIX <= REMOTE_GROUP
  {
    assert IsToken(REMOTE_GROUP);
  }

  lemma RemoteGroupIsOneOption()
    ensures Trim(REMOTE_GROUP) == REMOTE_GROUP && Split(REMOTE_GROUP, ',') == [REMOTE_GROUP]
  {
    hide Trim, Split;
    assert REMOTE_GROUP[0] == 'X' && REMOTE_GROUP[13] == 'p';
    TrimVisible(REMOTE_GROUP);
    SplitWithoutSeparator(REMOTE_GROUP, ',');
  }

  lemma OnlyOptionIsLost(upstream: HeaderMap, h: HeaderMap, peerHost: bytes, user: UserInfo, name: bytes)
    requires IsUpstream(upstream, RequestHeader, h, peerHost, user)
    requires Values(h, CONNECTION) == [name] && Split(name, ',') == [name] && Trim(name) == name
    requires Canonical(name) == name && REMOTE_PREFIX <= name
    ensures name !in upstream && (name in h ==> RemoteHeaders(upstream) != RemoteHeaders(h))
  {
    hide Canonical, Trim, Split, Values, IsUpstream;
    assert IsOption(name, Values(h, CONNECTION)[0]);
    assert IsNominated(h, name);
    RemoteIsKept(upstream, h, peerHost, user, name);
    assert name !in RemoteHeaders(upstream);
  }

  /** Concretely, `Connection: X-Remote-Group` takes the groups from the upstream request. */
  lemma NominatedGroupIsLost(upstream: HeaderMap, h: HeaderMap, peerHost: bytes, user: UserInfo)
    requires IsUpstream(upstream, RequestHeader, h, peerHost, user)
    requires Values(h, CONNECTION) == [REMOTE_GROUP] && REMOTE_GROUP in h
    ensures REMOTE_GROUP !in upstream && RemoteHeaders(upstream) != RemoteHeaders(h)
  {
    hide *;
    RemoteGroupIsCanonical();
    RemoteGroupIsOneOption();
    OnlyOptionIsLost(upstream, h, peerHost, user, REMOTE_GROUP);
  }
}
