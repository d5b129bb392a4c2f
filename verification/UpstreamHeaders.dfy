/** The whole header map the backend is sent, name by name, in both identity modes. */
module UpstreamHeaders {
  import opened Bytes
  import opened HeaderKeyCodec
  import opened HeaderMaps
  import opened CommaLists
  import opened BackendIdentity
  import opened ImpersonationRoundTrip
  import opened ProxyHeaders

  // ----- Headers for one hop only

  /** The names that are hop-by-hop in every request. */
  predicate AlwaysHopByHop(name: bytes) {
    || name == "Connection" || name == "Proxy-Connection" || name == "Keep-Alive" || name == "Proxy-Authenticate"
    || name == "Proxy-Authorization" || name == "Te" || name == "Trailer" || name == "Transfer-Encoding" || name == "Upgrade"
  }

  /** Some option of some Connection value of the request, trimmed and canonicalised, is `name`. */
  ghost predicate NominatedBy(h: HeaderMap, name: bytes) {
    exists value, option ::
      "Connection" in h && value in h["Connection"] && IsOption(option, value) && Canonical(Trim(option)) == name
  }

  ghost predicate HopByHop(h: HeaderMap, name: bytes) {
    AlwaysHopByHop(name) || NominatedBy(h, name)
  }

  lemma ConnectionIsCanonical()
    ensures IsToken("Connection") && Canonical("Connection") == "Connection"
  {
  }

  lemma ProxyConnectionIsCanonical()
    ensures IsToken("Proxy-Connection") && Canonical("Proxy-Connection") == "Proxy-Connection"
  {
  }

  lemma KeepAliveIsCanonical()
    ensures IsToken("Keep-Alive") && Canonical("Keep-Alive") == "Keep-Alive"
  {
  }

  lemma ProxyAuthenticateIsCanonical()
    ensures IsToken("Proxy-Authenticate") && Canonical("Proxy-Authenticate") == "Proxy-Authenticate"
  {
  }

  lemma ProxyAuthorizationIsCanonical()
    ensures IsToken("Proxy-Authorization") && Canonical("Proxy-Authorization") == "Proxy-Authorization"
  {
  }

  lemma TeIsCanonical()
    ensures IsToken("Te") && Canonical("Te") == "Te"
  {
  }

  lemma TrailerIsCanonical()
    ensures IsToken("Trailer") && Canonical("Trailer") == "Trailer"
  {
  }

  lemma TransferEncodingIsCanonical()
    ensures IsToken("Transfer-Encoding") && Canonical("Transfer-Encoding") == "Transfer-Encoding"
  {
  }

  lemma UpgradeIsCanonical()
    ensures IsToken("Upgrade") && Canonical("Upgrade") == "Upgrade"
  {
  }

  lemma FixedNames(name: bytes)
    ensures name in HopByHopNames() <==> AlwaysHopByHop(name)
  {
    hide Canonical, IsToken;
    ConnectionIsCanonical();
    ProxyConnectionIsCanonical();
    KeepAliveIsCanonical();
    ProxyAuthenticateIsCanonical();
    ProxyAuthorizationIsCanonical();
    TeIsCanonical();
    TrailerIsCanonical();
    TransferEncodingIsCanonical();
    UpgradeIsCanonical();
    assert HopByHopNames() == {Canonical(HOP_BY_HOP[0]), Canonical(HOP_BY_HOP[1]), Canonical(HOP_BY_HOP[2]),
                               Canonical(HOP_BY_HOP[3]), Canonical(HOP_BY_HOP[4]), Canonical(HOP_BY_HOP[5]),
                               Canonical(HOP_BY_HOP[6]), Canonical(HOP_BY_HOP[7]), Canonical(HOP_BY_HOP[8])};
  }

  /** A header goes on past this hop exactly if it is none of the nine and no Connection value nominates it. */
  lemma HopByHopIsExact(h: HeaderMap, name: bytes)
    ensures name in HopByHopRemoved(h) <==> name in h && !HopByHop(h, name)
    ensures name in HopByHopRemoved(h) ==> HopByHopRemoved(h)[name] == h[name]
  {
    hide Canonical, Trim, HopByHopNames, HopByHopRemoved, AlwaysHopByHop;
    CanonicalConnection();
    FixedNames(name);
    HopByHopRemovalIsExact(h);
    assert IsNominated(h, name) <==> NominatedBy(h, name);
  }

  // ----- The forwarding header

  /** What is left of the inbound forwarding lines when the peer is appended. */
  ghost function LinesPassedOn(h: HeaderMap): seq<bytes> {
    if "X-Forwarded-For" in h && !HopByHop(h, "X-Forwarded-For") then h["X-Forwarded-For"] else []
  }

  /** A blank peer leaves the lines alone; any other ends the first line, which is then the only one. */
  ghost predicate PeerAppended(upstream: HeaderMap, h: HeaderMap, peerHost: bytes) {
    var lines, host := LinesPassedOn(h), Trim(peerHost);
    if host == "" then
      && ("X-Forwarded-For" in upstream <==> "X-Forwarded-For" in h && !HopByHop(h, "X-Forwarded-For"))
      && ("X-Forwarded-For" in upstream ==> upstream["X-Forwarded-For"] == lines)
    else
      && "X-Forwarded-For" in upstream
      && upstream["X-Forwarded-For"] == [if lines == [] || lines[0] == "" then host else lines[0] + ", " + host]
  }

  /** Neither step of the proxy touches another header. */
  lemma ProxiedIsExact(h: HeaderMap, peerHost: bytes)
    ensures PeerAppended(Proxied(h, peerHost), h, peerHost)
    ensures forall name :: name != "X-Forwarded-For" ==>
              && (name in Proxied(h, peerHost) <==> name in h && !HopByHop(h, name))
              && (name in Proxied(h, peerHost) ==> Proxied(h, peerHost)[name] == h[name])
  {
    hide Canonical, Trim, HopByHop, HopByHopRemoved;
    ForwardedForIsNoIdentityHeader();
    forall name
      ensures name in HopByHopRemoved(h) <==> name in h && !HopByHop(h, name)
      ensures name in HopByHopRemoved(h) ==> HopByHopRemoved(h)[name] == h[name]
    {
      HopByHopIsExact(h, name);
    }
  }

  // ----- Request-header mode

  /** No Authorization and no Impersonate-*; every other header that is not for one hop, as it came; the peer appended. */
  ghost predicate IsForwarded(upstream: HeaderMap, h: HeaderMap, peerHost: bytes) {
    && (forall name :: name in upstream ==> Canonical(name) != "Authorization" && !("Impersonate-" <= Canonical(name)))
    && (forall name :: name != "X-Forwarded-For" ==>
          && (name in upstream <==>
              && name in h && !HopByHop(h, name)
              && Canonical(name) != "Authorization" && !("Impersonate-" <= Canonical(name)))
          && (name in upstream ==> upstream[name] == h[name]))
    && PeerAppended(upstream, h, peerHost)
  }

  lemma ForwardedIsUnique(a: HeaderMap, b: HeaderMap, h: HeaderMap, peerHost: bytes)
    requires IsForwarded(a, h, peerHost) && IsForwarded(b, h, peerHost)
    ensures a == b
  {
    hide Canonical, Trim, HopByHop;
    forall name ensures name in a <==> name in b && (name in a ==> a[name] == b[name]) {
      assert name == "X-Forwarded-For" || name != "X-Forwarded-For";
    }
  }

  /** In request-header mode that is exactly the map the backend is sent. */
  lemma RequestHeaderUpstream(upstream: HeaderMap, h: HeaderMap, peerHost: bytes, user: UserInfo)
    ensures IsUpstream(upstream, RequestHeader, h, peerHost, user) <==> IsForwarded(upstream, h, peerHost)
  {
    hide Canonical, Trim, HopByHop, Proxied, PeerAppended;
    var sent := Keeping(Proxied(h, peerHost), IsImpersonationHeader);
    KeptIsForwarded(h, peerHost);
    if IsForwarded(upstream, h, peerHost) {
      ForwardedIsUnique(upstream, sent, h, peerHost);
    }
  }

  lemma KeptIsForwarded(h: HeaderMap, peerHost: bytes)
    ensures IsForwarded(Keeping(Proxied(h, peerHost), IsImpersonationHeader), h, peerHost)
  {
    hide Canonical, Trim, HopByHop, Proxied;
    ProxiedIsExact(h, peerHost);
    ForwardedForIsNoIdentityHeader();
  }

  // ----- Impersonation mode

  /** The configuration lets this extra through, and it has a value. */
  predicate Permitted(imp: Impersonator, user: UserInfo, key: bytes) {
    key in user.extra && user.extra[key] != [] && (imp.forwardAllExtras || key in imp.extraKeyAllowlist)
  }

  function ExtraName(key: bytes): bytes {
    Canonical("Impersonate-Extra-" + Escape(key))
  }

  function AllValues(extra: map<bytes, seq<bytes>>, keys: seq<bytes>): seq<bytes>
    requires forall key :: key in keys ==> key in extra
  {
    if keys == [] then [] else AllValues(extra, keys[..|keys| - 1]) + extra[keys[|keys| - 1]]
  }

  /** The permitted extras whose keys read `folded` once lower-cased. */
  function Twins(imp: Impersonator, user: UserInfo, folded: bytes): set<bytes> {
    set key | key in user.extra && Permitted(imp, user, key) && Lower(key) == folded
  }

  /** The value lists of those extras, each whole and once, one after another. */
  ghost predicate Merges(values: seq<bytes>, imp: Impersonator, user: UserInfo, folded: bytes) {
    exists keys :: Enumerates(keys, Twins(imp, user, folded)) && values == AllValues(user.extra, keys)
  }

  /** The identity headers are those of the verified user, all of them and no others. */
  ghost predicate SpeaksFor(upstream: HeaderMap, imp: Impersonator, user: UserInfo) {
    && "Impersonate-User" in upstream && upstream["Impersonate-User"] == [user.username]
    && ("Impersonate-Group" in upstream <==> user.groups != [])
    && ("Impersonate-Group" in upstream ==> upstream["Impersonate-Group"] == user.groups)
    && ("Impersonate-Uid" in upstream <==> imp.forwardUID && user.uid != "")
    && ("Impersonate-Uid" in upstream ==> upstream["Impersonate-Uid"] == [user.uid])
    && (forall key :: Permitted(imp, user, key) ==>
          ExtraName(key) in upstream && Merges(upstream[ExtraName(key)], imp, user, Lower(key)))
    && (forall name :: name in upstream && "Impersonate-" <= Canonical(name) ==>
          || name == "Impersonate-User" || name == "Impersonate-Group" || name == "Impersonate-Uid"
          || exists key :: Permitted(imp, user, key) && name == ExtraName(key))
  }

  /** No Authorization, no X-Remote-*, of Impersonate-* the verified user's alone; the rest as in request-header mode. */
  ghost predicate IsImpersonated(upstream: HeaderMap, imp: Impersonator, h: HeaderMap, peerHost: bytes, user: UserInfo) {
    && (forall name :: name in upstream ==> Canonical(name) != "Authorization" && !("X-Remote-" <= Canonical(name)))
    && SpeaksFor(upstream, imp, user)
    && (forall name :: name != "X-Forwarded-For" && Canonical(name) != "Authorization"
                       && !("X-Remote-" <= Canonical(name)) && !("Impersonate-" <= Canonical(name)) ==>
          && (name in upstream <==> name in h && !HopByHop(h, name))
          && (name in upstream ==> upstream[name] == h[name]))
    && PeerAppended(upstream, h, peerHost)
  }

  function TwinsIn(imp: Impersonator, user: UserInfo, order: seq<bytes>, folded: bytes): (keys: seq<bytes>)
    ensures forall key :: key in keys <==> key in order && Permitted(imp, user, key) && Lower(key) == folded
  {
    if order == [] then []
    else
      var last, before := order[|order| - 1], TwinsIn(imp, user, order[..|order| - 1], folded);
      if Permitted(imp, user, last) && Lower(last) == folded then before + [last] else before
  }

  /** What the projection loop gathers for a header is what its twins hold, in visiting order. */
  lemma {:induction false} GatheredIsMerged(imp: Impersonator, user: UserInfo, order: seq<bytes>, folded: bytes)
    requires forall i, j :: 0 <= i < j < |order| ==> order[i] != order[j]
    ensures var keys := TwinsIn(imp, user, order, folded);
            && Gathered(imp, user.extra, order, folded) == AllValues(user.extra, keys)
            && forall i, j :: 0 <= i < j < |keys| ==> keys[i] != keys[j]
  {
    hide Lower;
    if order != [] {
      var rest, last := order[..|order| - 1], order[|order| - 1];
      GatheredIsMerged(imp, user, rest, folded);
      assert order == rest + [last];
      var before := TwinsIn(imp, user, rest, folded);
      assert (before + [last])[..|before|] == before;
    }
  }

  lemma ExtraNameIsHeader(key: bytes)
    ensures ExtraName(key) == Canonical(ExtraHeader(key))
  {
  }

  lemma ExtrasAreMerged(imp: Impersonator, h: HeaderMap, user: UserInfo, order: seq<bytes>, key: bytes)
    requires Enumerates(order, user.extra.Keys) && Permitted(imp, user, key)
    ensures var after := Impersonated(imp, h, user, order);
            ExtraName(key) in after && Merges(after[ExtraName(key)], imp, user, Lower(key))
  {
    hide Canonical, Lower, BaseHeaders, WithExtras, Escape, ExtraName;
    BaseHasNoExtras(imp, h, user);
    ExtraNameIsHeader(key);
    ExtrasGather(imp, BaseHeaders(imp, h, user), user.extra, order, key);
    GatheredIsNonEmpty(imp, user.extra, order, key);
    GatheredIsMerged(imp, user, order, Lower(key));
    var keys := TwinsIn(imp, user, order, Lower(key));
    CanonicalTwice("Impersonate-Extra-" + Escape(key));
    assert Enumerates(keys, Twins(imp, user, Lower(key)));
  }

  lemma IdentityNames(name: bytes)
    ensures IsIdentityHeader(Canonical(name)) <==>
            Canonical(name) == "Authorization" || "X-Remote-" <= Canonical(name) || "Impersonate-" <= Canonical(name)
  {
    hide Canonical;
  }

  lemma FixedIdentityHeaders(imp: Impersonator, h: HeaderMap, user: UserInfo, order: seq<bytes>)
    requires Enumerates(order, user.extra.Keys)
    ensures var after := Impersonated(imp, h, user, order);
            && "Impersonate-User" in after && after["Impersonate-User"] == [user.username]
            && ("Impersonate-Group" in after <==> user.groups != [])
            && ("Impersonate-Group" in after ==> after["Impersonate-Group"] == user.groups)
            && ("Impersonate-Uid" in after <==> imp.forwardUID && user.uid != "")
            && ("Impersonate-Uid" in after ==> after["Impersonate-Uid"] == [user.uid])
  {
    hide Canonical, WithExtras, BaseHeaders;
    NamesAreApart();
    var base := BaseHeaders(imp, h, user);
    ExtrasKeepOtherHeaders(imp, base, user.extra, order, USER_HEADER);
    ExtrasKeepOtherHeaders(imp, base, user.extra, order, GROUP_HEADER);
    ExtrasKeepOtherHeaders(imp, base, user.extra, order, UID_HEADER);
    FixedBaseHeaders(imp, h, user);
  }

  lemma FixedBaseHeaders(imp: Impersonator, h: HeaderMap, user: UserInfo)
    ensures var base := BaseHeaders(imp, h, user);
            && USER_HEADER in base && base[USER_HEADER] == [user.username]
            && (GROUP_HEADER in base <==> user.groups != []) && (GROUP_HEADER in base ==> base[GROUP_HEADER] == user.groups)
            && (UID_HEADER in base <==> imp.forwardUID && user.uid != "") && (UID_HEADER in base ==> base[UID_HEADER] == [user.uid])
  {
    hide Canonical;
    NamesAreApart();
    OwnNamesAreIdentityHeaders();
  }

  lemma ImpersonatedSpeaks(imp: Impersonator, h: HeaderMap, user: UserInfo, order: seq<bytes>)
    requires Enumerates(order, user.extra.Keys)
    ensures SpeaksFor(Impersonated(imp, h, user, order), imp, user)
  {
    hide Canonical, Impersonated, Merges, ExtraName;
    FixedIdentityHeaders(imp, h, user, order);
    var after := Impersonated(imp, h, user, order);
    forall key | Permitted(imp, user, key) ensures ExtraName(key) in after && Merges(after[ExtraName(key)], imp, user, Lower(key)) {
      ExtrasAreMerged(imp, h, user, order, key);
    }
    forall name | name in after && "Impersonate-" <= Canonical(name)
      ensures || name == "Impersonate-User" || name == "Impersonate-Group" || name == "Impersonate-Uid"
              || exists key :: Permitted(imp, user, key) && name == ExtraName(key)
    {
      IdentityHeadersAreTheProxys(imp, h, user, order, name);
      if key :| key in order && Carried(imp, user.extra, key) && name == Canonical(ExtraHeader(key)) {
        ExtraNameIsHeader(key);
      }
    }
  }

  /** In impersonation mode the backend is sent such a map, whatever order the extras were ranged over. */
  lemma ImpersonationUpstream(upstream: HeaderMap, imp: Impersonator, h: HeaderMap, peerHost: bytes, user: UserInfo)
    requires IsUpstream(upstream, Impersonation(imp), h, peerHost, user)
    ensures IsImpersonated(upstream, imp, h, peerHost, user)
  {
    hide Canonical, HopByHop, SpeaksFor, Proxied, Impersonated, Trim, IsIdentityHeader;
    var proxied := Proxied(h, peerHost);
    var order :| Enumerates(order, user.extra.Keys) && upstream == Impersonated(imp, proxied, user, order);
    ImpersonatedSpeaks(imp, proxied, user, order);
    ForwardedForIsNoIdentityHeader();
    ProxiedIsExact(h, peerHost);
    forall name ensures IsIdentityHeader(Canonical(name)) <==>
                          Canonical(name) == "Authorization" || "X-Remote-" <= Canonical(name) || "Impersonate-" <= Canonical(name)
    {
      IdentityNames(name);
    }
    forall name | !IsIdentityHeader(Canonical(name))
      ensures (name in upstream <==> name in proxied) && (name in upstream ==> upstream[name] == proxied[name])
    {
      OtherHeadersSurvive(imp, proxied, user, order, name);
    }
    forall name | name in upstream && IsIdentityHeader(Canonical(name))
      ensures Canonical(name) != "Authorization" && !("X-Remote-" <= Canonical(name))
    {
      IdentityIsImpersonation(imp, proxied, user, order, name);
    }
    assert PeerAppended(upstream, h, peerHost);
  }

  lemma IdentityIsImpersonation(imp: Impersonator, h: HeaderMap, user: UserInfo, order: seq<bytes>, name: bytes)
    requires Enumerates(order, user.extra.Keys)
    requires name in Impersonated(imp, h, user, order) && IsIdentityHeader(Canonical(name))
    ensures "Impersonate-" <= Canonical(name) && Canonical(name) != "Authorization" && !("X-Remote-" <= Canonical(name))
  {
    hide Canonical, Impersonated, IsIdentityHeader;
    IdentityHeadersAreTheProxys(imp, h, user, order, name);
    OwnNamesAreIdentityHeaders();
    NamesAreApart();
    if key :| key in order && Carried(imp, user.extra, key) && name == Canonical(ExtraHeader(key)) {
      ExtraHeaderName(key);
      CanonicalTwice(ExtraHeader(key));
    }
    assert Canonical(name) == name && IMPERSONATE_PREFIX <= name;
    assert name[0] == IMPERSONATE_PREFIX[0] == 'I';
    assert AUTHORIZATION[0] == 'A' && REMOTE_PREFIX[0] == 'X';
  }

  ghost predicate IsWhatBackendGets(upstream: HeaderMap, mode: IdentityMode, h: HeaderMap, peerHost: bytes, user: UserInfo) {
    match mode
    case RequestHeader => IsForwarded(upstream, h, peerHost)
    case Impersonation(imp) => IsImpersonated(upstream, imp, h, peerHost, user)
  }

  lemma UpstreamIsWhatBackendGets(upstream: HeaderMap, mode: IdentityMode, h: HeaderMap, peerHost: bytes, user: UserInfo)
    requires IsUpstream(upstream, mode, h, peerHost, user)
    ensures IsWhatBackendGets(upstream, mode, h, peerHost, user)
  {
    hide IsUpstream, IsForwarded, IsImpersonated;
    match mode
    case RequestHeader => RequestHeaderUpstream(upstream, h, peerHost, user);
    case Impersonation(imp) => ImpersonationUpstream(upstream, imp, h, peerHost, user);
  }
}
