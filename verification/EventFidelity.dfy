/** What an audit event says about the exchange it describes. */
module EventFidelity {
  import opened Bytes
  import opened HeaderMaps
  import opened CommaLists
  import opened BackendIdentity
  import opened ProxyHeaders
  import opened AuditEvents

  // ----- First-occurrence deduplication

  lemma {:induction false} DedupMembers(s: seq<bytes>)
    ensures forall x :: x in Dedup(s) <==> x in s
    ensures forall i, j :: 0 <= i < j < |Dedup(s)| ==> Dedup(s)[i] != Dedup(s)[j]
  {
    if s != [] {
      DedupMembers(s[..|s| - 1]);
      assert s == s[..|s| - 1] + [s[|s| - 1]];
    }
  }

  /** Earlier occurrences decide the order: deduplicating a prefix gives a prefix. */
  lemma {:induction false} DedupKeepsPrefix(a: seq<bytes>, b: seq<bytes>)
    ensures Dedup(a) <= Dedup(a + b)
  {
    if b == [] {
      assert a + b == a;
    } else {
      DedupKeepsPrefix(a, b[..|b| - 1]);
      assert (a + b)[..|a + b| - 1] == a + b[..|b| - 1];
    }
  }

  lemma {:induction false} DedupAbsorbs(a: seq<bytes>, b: seq<bytes>)
    requires forall i :: 0 <= i < |b| ==> b[i] in a
    ensures Dedup(a + b) == Dedup(a)
  {
    if b == [] {
      assert a + b == a;
    } else {
      DedupAbsorbs(a, b[..|b| - 1]);
      assert (a + b)[..|a + b| - 1] == a + b[..|b| - 1];
      DedupMembers(a);
    }
  }

  lemma {:induction false} DedupCongruence(a: seq<bytes>, b: seq<bytes>, c: seq<bytes>)
    requires Dedup(a) == Dedup(b)
    ensures Dedup(a + c) == Dedup(b + c)
  {
    if c == [] {
      assert a + c == a && b + c == b;
    } else {
      DedupCongruence(a, b, c[..|c| - 1]);
      assert (a + c)[..|a + c| - 1] == a + c[..|c| - 1];
      assert (b + c)[..|b + c| - 1] == b + c[..|c| - 1];
    }
  }

  // ----- Source addresses and the forwarding list

  /**
   Every address the event reports is passed on or is the peer itself, and where the whole inbound list is
   passed on, which is under a blank peer, its later lines bring no address of their own.
   */
  ghost predicate AddressesPassedOn(h: HeaderMap, peerHost: bytes) {
    && (forall t :: t in ForwardedTokens(h) ==> t in PassedOn(h, peerHost) + Clean([peerHost]))
    && (forall t :: t in Clean([Get(h, REAL_IP)]) ==> t in PassedOn(h, peerHost) + Clean([peerHost]))
    && (IsBlank(peerHost) && !IsNominated(h, FORWARDED_FOR) ==>
          forall t :: t in LaterForwardedTokens(h) ==> t in ForwardedTokens(h) + Clean([Get(h, REAL_IP)]))
  }

  lemma CleanSingle(value: bytes)
    ensures Clean([value]) == if IsBlank(value) then [] else [Trim(value)]
  {
    assert [value][..0] == [];
  }

  /** Among values already listed, the one new value may come anywhere and any number of times. */
  lemma {:induction false} DedupOneNew(t: seq<bytes>, rest: seq<bytes>, x: bytes)
    requires x in rest && forall i :: 0 <= i < |rest| ==> rest[i] in t + [x]
    ensures Dedup(t + rest) == Dedup(t + [x])
  {
    var front, last := rest[..|rest| - 1], rest[|rest| - 1];
    assert t + rest == (t + front) + [last];
    if x in front {
      DedupOneNew(t, front, x);
      DedupAbsorbs(t + front, [last]);
    } else {
      DedupAbsorbs(t, front);
      DedupCongruence(t + front, t, [x]);
    }
  }

  lemma SameAddresses(t: seq<bytes>, r: seq<bytes>, kept: seq<bytes>, host: seq<bytes>)
    requires kept == t || kept == []
    requires |r| <= 1 && |host| <= 1
    requires forall i :: 0 <= i < |t| ==> t[i] in kept + host
    requires forall i :: 0 <= i < |r| ==> r[i] in kept + host
    ensures Dedup(t + r + host) == Dedup(kept + host)
  {
    if kept == t {
      if r == [] {
        assert t + r == t;
      } else if r[0] in t {
        DedupAbsorbs(t, r);
        DedupCongruence(t + r, t, host);
      } else {
        assert host == r;
        DedupAbsorbs(t + r, host);
      }
    } else if t + r == [] {
      assert t + r + host == kept + host;
    } else {
      var all := t + r + host;
      assert kept + host == host;
      assert t[0] in host;
      assert all == host + all[1..];
      DedupAbsorbs(host, all[1..]);
    }
  }

  lemma SameAddressesWithLaterLines(t: seq<bytes>, r: seq<bytes>, rest: seq<bytes>)
    requires |r| <= 1
    requires forall i :: 0 <= i < |r| ==> r[i] in t + rest
    requires forall i :: 0 <= i < |rest| ==> rest[i] in t + r
    ensures Dedup(t + r) == Dedup(t + rest)
  {
    if r == [] || r[0] in t {
      DedupAbsorbs(t, r);
      DedupAbsorbs(t, rest);
    } else {
      DedupOneNew(t, rest, r[0]);
      assert r == [r[0]];
    }
  }

  lemma PeerTokens(peerHost: bytes)
    requires ',' !in peerHost
    ensures Tokens(Trim(peerHost)) == Clean([peerHost])
  {
    TrimFacts(peerHost);
    TokensWithoutComma(Trim(peerHost));
    CleanSingle(peerHost);
  }

  lemma CommaHostDisagrees(h: HeaderMap, peerHost: bytes)
    requires ',' in peerHost
    ensures SourceIPs(h, peerHost) != Dedup(PassedOn(h, peerHost) + Tokens(Trim(peerHost)))
  {
    var x := Trim(peerHost);
    TrimFacts(peerHost);
    CleanSingle(peerHost);
    hide Trim, Tokens, Clean, Get, IsNominated;
    var seen := ForwardedTokens(h) + Clean([Get(h, REAL_IP)]) + Clean([peerHost]);
    assert x in seen;
    DedupMembers(seen);
    DedupMembers(PassedOn(h, peerHost) + Tokens(x));
    TokensAreClean(Get(h, FORWARDED_FOR));
    TokensAreClean(x);
    assert x in SourceIPs(h, peerHost);
  }

  lemma BlankPeerPassesAll(h: HeaderMap, peerHost: bytes)
    requires IsBlank(peerHost) && !IsNominated(h, FORWARDED_FOR)
    ensures PassedOn(h, peerHost) + Clean([peerHost]) == ForwardedTokens(h) + LaterForwardedTokens(h)
    ensures forall s: seq<bytes> :: s + Clean([peerHost]) == s
  {
    CleanSingle(peerHost);
    AllTokensSplit(h);
  }

  lemma PassedOnAddressesAgree(h: HeaderMap, peerHost: bytes)
    requires AddressesPassedOn(h, peerHost)
    ensures SourceIPs(h, peerHost) == Dedup(PassedOn(h, peerHost) + Clean([peerHost]))
  {
    CleanSingle(peerHost);
    CleanSingle(Get(h, REAL_IP));
    hide Trim, Tokens, Clean, Get, IsNominated, ForwardedTokens, AllForwardedTokens, LaterForwardedTokens, IsBlank, Dedup;
    var first, realIP := ForwardedTokens(h), Clean([Get(h, REAL_IP)]);
    if IsBlank(peerHost) && !IsNominated(h, FORWARDED_FOR) {
      BlankPeerPassesAll(h, peerHost);
      SameAddressesWithLaterLines(first, realIP, LaterForwardedTokens(h));
    } else {
      SameAddresses(first, realIP, PassedOn(h, peerHost), Clean([peerHost]));
    }
  }

  lemma AgreementPassesAddressesOn(h: HeaderMap, peerHost: bytes)
    requires SourceIPs(h, peerHost) == Dedup(PassedOn(h, peerHost) + Clean([peerHost]))
    ensures AddressesPassedOn(h, peerHost)
  {
    var reported := ForwardedTokens(h) + Clean([Get(h, REAL_IP)]) + Clean([peerHost]);
    var carried := PassedOn(h, peerHost) + Clean([peerHost]);
    DedupMembers(reported);
    DedupMembers(carried);
    hide Trim, Tokens, Clean, Get, IsNominated, ForwardedTokens, AllForwardedTokens, LaterForwardedTokens, IsBlank, Dedup, PassedOn;
    assert forall t :: t in reported <==> t in carried;
    if IsBlank(peerHost) && !IsNominated(h, FORWARDED_FOR) {
      BlankPeerPassesAll(h, peerHost);
      assert forall t :: t in LaterForwardedTokens(h) ==> t in carried;
    }
  }

  /**
   The addresses the event reports are those of the whole forwarding list the proxy sends upstream, for every
   request and both identity modes, exactly when the peer's host has no comma and every address the event
   reports is passed on or is the peer itself. It fails for a real-IP header naming a further address, and
   when the client nominates the forwarding header as hop-by-hop.
   */
  lemma SourceIPsAgreeWithForwarding(upstream: HeaderMap, mode: IdentityMode, h: HeaderMap, peerHost: bytes, user: UserInfo)
    requires IsUpstream(upstream, mode, h, peerHost, user)
    ensures SourceIPs(h, peerHost) == Dedup(AllForwardedTokens(upstream))
            <==> ',' !in peerHost && AddressesPassedOn(h, peerHost)
  {
    var forwarded := AllForwardedTokens(upstream);
    assert forwarded == PassedOn(h, peerHost) + Tokens(Trim(peerHost)) by {
      UpstreamForwardingList(upstream, mode, h, peerHost, user);
    }
    if ',' in peerHost {
      CommaHostDisagrees(h, peerHost);
    } else {
      PeerTokens(peerHost);
      if AddressesPassedOn(h, peerHost) {
        PassedOnAddressesAgree(h, peerHost);
      } else if SourceIPs(h, peerHost) == Dedup(forwarded) {
        AgreementPassesAddressesOn(h, peerHost);
      }
    }
  }

  function Trimmed(value: bytes): seq<bytes> {
    if Trim(value) == "" then [] else [Trim(value)]
  }

  /** The peer of a connection: its host where the remote address has one, else the whole address. */
  predicate IsPeer(peer: bytes, remoteAddr: bytes, hostOf: bytes -> Option<bytes>) {
    hostOf(remoteAddr) == Some(peer) || (hostOf(remoteAddr).None? && peer == remoteAddr)
  }

  /** First the forwarding list, then the real IP, then the peer, each address once. */
  ghost predicate AddressesAre(ips: seq<bytes>, h: HeaderMap, peer: bytes) {
    ips == Dedup(Tokens(Get(h, "X-Forwarded-For")) + Trimmed(Get(h, "X-Real-IP")) + Trimmed(peer))
  }

  lemma AddressesInOrder(h: HeaderMap, peer: bytes)
    ensures AddressesAre(SourceIPs(h, peer), h, peer)
  {
    CleanSingle(Get(h, REAL_IP));
    CleanSingle(peer);
    hide Clean, Get, Tokens, Trim, Dedup;
  }

  lemma PeerHostIsPeer(remoteAddr: bytes, hostOf: bytes -> Option<bytes>)
    ensures IsPeer(PeerHost(remoteAddr, hostOf), remoteAddr, hostOf)
  {
  }

  lemma DigitIsClean(c: byte)
    requires IsDigit(c)
    ensures Clean([[c]]) == [[c]]
  {
    assert Trim([c]) == [c];
    CleanSingle([c]);
  }

  lemma RealIPIsNotPassedOn(h: HeaderMap)
    requires Values(h, FORWARDED_FOR) == [] && Get(h, REAL_IP) == "1"
    ensures !AddressesPassedOn(h, "2")
  {
    NoTokensWithoutHeader(h);
    DigitIsClean('1');
    DigitIsClean('2');
    hide Clean, Values, Get, ForwardedTokens, AllForwardedTokens, IsNominated;
    var passedOn: seq<bytes> := ["2"];
    assert PassedOn(h, "2") + Clean(["2"]) == passedOn;
    assert ["1"][0] in Clean([Get(h, REAL_IP)]) && "1" !in passedOn;
  }

  /** Concretely, a real-IP header of "1" from peer "2" is reported and not forwarded. */
  lemma RealIPIsNotForwarded(upstream: HeaderMap, mode: IdentityMode, h: HeaderMap, user: UserInfo)
    requires Values(h, FORWARDED_FOR) == [] && Get(h, REAL_IP) == "1"
    requires IsUpstream(upstream, mode, h, "2", user)
    ensures SourceIPs(h, "2") != Dedup(AllForwardedTokens(upstream))
  {
    hide SourceIPs, IsUpstream, Get, Values, Dedup, AddressesPassedOn, AllForwardedTokens;
    RealIPIsNotPassedOn(h);
    SourceIPsAgreeWithForwarding(upstream, mode, h, "2", user);
  }

  // ----- Bodies

  lemma {:induction false} DigitsAreDigits(n: nat)
    ensures forall i :: 0 <= i < |Digits(n)| ==> IsDigit(Digits(n)[i])
  {
    if n >= 10 {
      DigitsAreDigits(n / 10);
    }
  }

  function NumberOf(digits: bytes): int {
    if digits == "" then 0 else NumberOf(digits[..|digits| - 1]) * 10 + (digits[|digits| - 1] as int - 48)
  }

  lemma {:induction false} NumberOfDigits(n: nat)
    ensures NumberOf(Digits(n)) == n
  {
    var last: byte := (48 + n % 10) as char;
    if n >= 10 {
      NumberOfDigits(n / 10);
      assert Digits(n)[..|Digits(n)| - 1] == Digits(n / 10);
    } else {
      assert Digits(n) == [last];
      assert [last][..0] == "";
    }
  }

  predicate IsNumeral(digits: bytes) {
    && digits != ""
    && (forall i :: 0 <= i < |digits| ==> IsDigit(digits[i]))
    && (|digits| > 1 ==> digits[0] != '0')
  }

  lemma {:induction false} DigitsAreNumeral(n: nat)
    ensures IsNumeral(Digits(n)) && (n > 0 ==> Digits(n)[0] != '0')
  {
    if n >= 10 {
      DigitsAreNumeral(n / 10);
    }
  }

  lemma DigitsAppend(front: nat, last: nat)
    requires front > 0 && last < 10
    ensures Digits(front * 10 + last) == Digits(front) + [(48 + last) as char]
  {
    assert (front * 10 + last) / 10 == front && (front * 10 + last) % 10 == last;
  }

  lemma OneDigitNumber(d: byte)
    ensures NumberOf([d]) == d as int - 48
  {
    assert [d][..0] == "";
    assert NumberOf("") == 0;
  }

  lemma OneDigit(n: nat)
    requires n < 10
    ensures Digits(n) == [(48 + n) as char]
  {
    assert n % 10 == n;
  }

  lemma {:induction false} NumeralOfNumber(digits: bytes)
    requires IsNumeral(digits)
    ensures NumberOf(digits) >= 0 && Digits(NumberOf(digits)) == digits && (digits[0] != '0' ==> NumberOf(digits) > 0)
  {
    hide Digits;
    var front, last := digits[..|digits| - 1], digits[|digits| - 1];
    assert digits == front + [last];
    if front == "" {
      OneDigitNumber(last);
      OneDigit(last as int - 48);
    } else {
      NumeralOfNumber(front);
      DigitsAppend(NumberOf(front), last as int - 48);
    }
  }

  /** The decimal numeral of a number, without leading zeros, and the only one. */
  lemma DigitsAreTheNumeral(n: nat, digits: bytes)
    ensures digits == Digits(n) <==> IsNumeral(digits) && NumberOf(digits) == n
  {
    DigitsAreNumeral(n);
    NumberOfDigits(n);
    if IsNumeral(digits) {
      NumeralOfNumber(digits);
    }
  }

  /** A placeholder tells the two sizes apart: it determines both. */
  lemma PlaceholderDeterminesSizes(size1: nat, captured1: nat, size2: nat, captured2: nat)
    requires Placeholder(size1, captured1) == Placeholder(size2, captured2)
    ensures size1 == size2 && captured1 == captured2
  {
    PlaceholderParts(size1, captured1);
    PlaceholderParts(size2, captured2);
    NumberOfDigits(size1);
    NumberOfDigits(size2);
    NumberOfDigits(captured1);
    NumberOfDigits(captured2);
    assert (CAPTURED_KEY + Digits(captured1))[|CAPTURED_KEY|..] == Digits(captured1);
    assert (CAPTURED_KEY + Digits(captured2))[|CAPTURED_KEY|..] == Digits(captured2);
    assert (SIZE_KEY + Digits(size1))[|SIZE_KEY|..] == Digits(size1);
    assert (SIZE_KEY + Digits(size2))[|SIZE_KEY|..] == Digits(size2);
  }

  lemma PlaceholderConstantsLackCommas()
    ensures ',' !in CAPTURED_KEY && ',' !in SIZE_KEY && ',' !in TRUNCATED_PAIR
  {
  }

  lemma SplitThree(a: bytes, b: bytes, c: bytes)
    requires ',' !in a && ',' !in b && ',' !in c
    ensures Split(a + "," + b + "," + c, ',') == [a, b, c]
  {
    assert a + "," + b + "," + c == a + "," + (b + "," + c);
    SplitConcat(a, b + "," + c, ',');
    SplitConcat(b, c, ',');
    SplitWithoutSeparator(a, ',');
    SplitWithoutSeparator(b, ',');
    SplitWithoutSeparator(c, ',');
  }

  lemma PlaceholderParts(size: nat, captured: nat)
    ensures Split(Placeholder(size, captured), ',') ==
            [CAPTURED_KEY + Digits(captured), SIZE_KEY + Digits(size), TRUNCATED_PAIR]
  {
    DigitsAreDigits(size);
    DigitsAreDigits(captured);
    PlaceholderConstantsLackCommas();
    var a, b := CAPTURED_KEY + Digits(captured), SIZE_KEY + Digits(size);
    SplitThree(a, b, TRUNCATED_PAIR);
    assert Placeholder(size, captured) == a + "," + b + "," + TRUNCATED_PAIR;
  }

  /**
   What an object and its mark say of a body under a limit: it is marked as truncated exactly when the body is longer
   than a positive limit and what was kept is not blank, and then it is the placeholder with the true sizes; an unmarked
   object is present exactly for valid, non-blank JSON that fits, and is then the whole body, byte for byte.
   */
  ghost predicate Shows(json: Json, shown: Option<bytes>, marked: bool, body: bytes, max: int) {
    && (marked <==> 0 < max < |body| && !IsBlank(body[..max]))
    && (marked ==> shown == Some("{\"capturedBytes\":" + Digits(max) + "," + "\"originalSizeBytes\":" + Digits(|body|) + ","
                                 + "\"truncated\":true}"))
    && (!marked && shown.Some? <==> |body| <= max && !IsBlank(body) && json.valid(body))
    && (!marked && shown.Some? ==> shown.value == body)
  }

  /** For every body and limit the rendered object is faithful to the body. */
  lemma BodyFidelity(json: Json, body: bytes, max: int)
    ensures var (shown, marked) := BuildUnknown(json, Capture(body, max)); Shows(json, shown, marked, body, max)
  {
    assert IsBlank("");
    if |body| <= max {
      assert body[..|body|] == body;
    }
  }

  /** The only cut bodies that go unmarked are those whose kept part is blank, as under a limit of zero. */
  lemma UnmarkedCut(json: Json, body: bytes, max: int)
    ensures Capture(body, max).truncated && !BuildUnknown(json, Capture(body, max)).1
            <==> |body| > max && (max <= 0 || IsBlank(body[..max]))
    ensures Capture(body, max).truncated && !BuildUnknown(json, Capture(body, max)).1
            ==> BuildUnknown(json, Capture(body, max)).0 == None
  {
    BodyFidelity(json, body, max);
  }

  /** Concretely, " {}" cut after its first byte leaves neither object nor annotation. */
  lemma BlankCutGoesUnmarked(json: Json)
    ensures BuildUnknown(json, Capture(" {}", 1)) == (None, false) && Capture(" {}", 1).truncated
  {
    assert " {}"[..1] == " ";
    assert IsBlank(" ");
    UnmarkedCut(json, " {}", 1);
  }

  lemma AnnotationsAreApart(requestTruncated: bool, responseTruncated: bool)
    ensures var annotations := Annotated(Annotated({}, requestTruncated, REQUEST_TRUNCATED), responseTruncated, RESPONSE_TRUNCATED);
            && (REQUEST_TRUNCATED in annotations <==> requestTruncated)
            && (RESPONSE_TRUNCATED in annotations <==> responseTruncated)
  {
    assert |REQUEST_TRUNCATED| != |RESPONSE_TRUNCATED|;
  }

  /** Both objects and both annotations of an event are faithful to the two full bodies. */
  lemma EventBodiesAreFaithful(json: Json, hostOf: bytes -> Option<bytes>, input: Input, request: bytes, response: bytes, max: int)
    requires input.request.Some? && input.info.Some?
    requires input.requestBody == Capture(request, max) && input.responseBody == Capture(response, max)
    ensures var event := BuiltEvent(json, hostOf, input);
            && Shows(json, event.requestObject, "audit-pass-through.configbutler.io/" + "request-truncated" in event.annotations,
                     request, max)
            && Shows(json, event.responseObject, "audit-pass-through.configbutler.io/" + "response-truncated" in event.annotations,
                     response, max)
  {
    hide Shows, Capture, BuildUnknown, Annotated, SourceIPs, PeerHost, BuildObjectReference, BuildResponseStatus, AuditID, Get;
    BodyFidelity(json, request, max);
    BodyFidelity(json, response, max);
    AnnotationsAreApart(BuildUnknown(json, input.requestBody).1, BuildUnknown(json, input.responseBody).1);
  }

  lemma FirstOfTwo(a: bytes, b: bytes)
    ensures FirstNonEmpty([a, b]) == if !IsBlank(a) then a else if !IsBlank(b) then b else ""
  {
    hide IsBlank;
    var r, values := FirstNonEmpty([a, b]), [a, b];
    assert values[0] == a && values[1] == b;
  }

  lemma FirstOfThree(a: bytes, b: bytes, c: bytes)
    ensures FirstNonEmpty([a, b, c]) == if !IsBlank(a) then a else if !IsBlank(b) then b else if !IsBlank(c) then c else ""
  {
    hide IsBlank;
    var r, values := FirstNonEmpty([a, b, c]), [a, b, c];
    assert values[0] == a && values[1] == b && values[2] == c;
  }

  /**
   Names come from the request path first and the response last; identifiers come from the response first.
   Each is empty exactly when every place it could come from is blank.
   */
  lemma ObjectReferencePrecedence(info: RequestInfo, request: ObjectMeta, response: ObjectMeta)
    ensures var ref := BuildObjectReference(info, request, response);
            && (!IsBlank(info.name) ==> ref.name == info.name)
            && (IsBlank(info.name) && !IsBlank(request.name) ==> ref.name == request.name)
            && (IsBlank(info.name) && IsBlank(request.name) && !IsBlank(response.name) ==> ref.name == response.name)
            && (ref.name == "" <==> IsBlank(info.name) && IsBlank(request.name) && IsBlank(response.name))
            && (!IsBlank(info.namespace) ==> ref.namespace == info.namespace)
            && (IsBlank(info.namespace) && !IsBlank(request.namespace) ==> ref.namespace == request.namespace)
            && (IsBlank(info.namespace) && IsBlank(request.namespace) && !IsBlank(response.namespace) ==>
                  ref.namespace == response.namespace)
            && (ref.namespace == "" <==> IsBlank(info.namespace) && IsBlank(request.namespace) && IsBlank(response.namespace))
            && (!IsBlank(response.uid) ==> ref.uid == response.uid)
            && (IsBlank(response.uid) && !IsBlank(request.uid) ==> ref.uid == request.uid)
            && (ref.uid == "" <==> IsBlank(response.uid) && IsBlank(request.uid))
            && (!IsBlank(response.resourceVersion) ==> ref.resourceVersion == response.resourceVersion)
            && (IsBlank(response.resourceVersion) && !IsBlank(request.resourceVersion) ==>
                  ref.resourceVersion == request.resourceVersion)
            && (ref.resourceVersion == "" <==> IsBlank(response.resourceVersion) && IsBlank(request.resourceVersion))
  {
    assert IsBlank("");
    hide IsBlank, FirstNonEmpty;
    FirstOfThree(info.name, request.name, response.name);
    FirstOfThree(info.namespace, request.namespace, response.namespace);
    FirstOfTwo(response.uid, request.uid);
    FirstOfTwo(response.resourceVersion, request.resourceVersion);
  }

  /** What a body says of its object: nothing if it is blank or no document with metadata. */
  predicate Says(json: Json, body: bytes, meta: ObjectMeta) {
    if IsBlank(body) || json.metaOf(body).None? then meta == ObjectMeta("", "", "", "") else json.metaOf(body) == Some(meta)
  }

  /** The first of three values that is not blank, or the empty string. */
  predicate FirstOf(r: bytes, a: bytes, b: bytes, c: bytes) {
    && (!IsBlank(a) ==> r == a)
    && (IsBlank(a) && !IsBlank(b) ==> r == b)
    && (IsBlank(a) && IsBlank(b) && !IsBlank(c) ==> r == c)
    && (IsBlank(a) && IsBlank(b) && IsBlank(c) ==> r == "")
  }

  /** The reference's names come from the path, then the request, then the response; its identifiers from the response, then the request. */
  ghost predicate RefersTo(json: Json, ref: ObjectReference, info: RequestInfo, request: bytes, response: bytes) {
    exists sent, returned ::
      && Says(json, request, sent) && Says(json, response, returned)
      && ref.apiGroup == info.apiGroup && ref.apiVersion == info.apiVersion
      && ref.resource == info.resource && ref.subresource == info.subresource
      && FirstOf(ref.name, info.name, sent.name, returned.name)
      && FirstOf(ref.namespace, info.namespace, sent.namespace, returned.namespace)
      && FirstOf(ref.uid, returned.uid, sent.uid, "")
      && FirstOf(ref.resourceVersion, returned.resourceVersion, sent.resourceVersion, "")
  }

  lemma DecodedSays(json: Json, body: bytes)
    ensures Says(json, body, DecodeObjectMeta(json, body))
  {
  }

  lemma FirstIsFirst(a: bytes, b: bytes, c: bytes)
    ensures FirstOf(FirstNonEmpty([a, b, c]), a, b, c) && FirstOf(FirstNonEmpty([a, b]), a, b, "")
  {
    assert IsBlank("");
    hide IsBlank, FirstNonEmpty;
    FirstOfThree(a, b, c);
    FirstOfTwo(a, b);
  }

  lemma ReferenceRefers(json: Json, info: RequestInfo, request: bytes, response: bytes)
    ensures RefersTo(json, BuildObjectReference(info, DecodeObjectMeta(json, request), DecodeObjectMeta(json, response)),
                     info, request, response)
  {
    hide IsBlank, FirstNonEmpty, DecodeObjectMeta, Says, FirstOf;
    DecodedSays(json, request);
    DecodedSays(json, response);
    var sent, returned := DecodeObjectMeta(json, request), DecodeObjectMeta(json, response);
    FirstIsFirst(info.name, sent.name, returned.name);
    FirstIsFirst(info.namespace, sent.namespace, returned.namespace);
    FirstIsFirst(returned.uid, sent.uid, "");
    FirstIsFirst(returned.resourceVersion, sent.resourceVersion, "");
  }

  /** The event refers to an object exactly if the request is for a resource, and the two captured bodies say which. */
  lemma ReferenceIsExact(json: Json, hostOf: bytes -> Option<bytes>, input: Input)
    requires input.request.Some? && input.info.Some?
    ensures var ref, info := BuiltEvent(json, hostOf, input).objectRef, input.info.value;
            && (ref.Some? <==> info.isResourceRequest)
            && (ref.Some? ==> RefersTo(json, ref.value, info, input.requestBody.bytes, input.responseBody.bytes))
  {
    hide RefersTo, BuildObjectReference, SourceIPs, PeerHost, BuildUnknown, BuildResponseStatus, AuditID, DecodeObjectMeta;
    ReferenceRefers(json, input.info.value, input.requestBody.bytes, input.responseBody.bytes);
  }

  /** The audit ID is the one the client sent, trimmed, or else the fresh one; the user agent is the client's. */
  lemma ClientIsNamed(json: Json, hostOf: bytes -> Option<bytes>, input: Input)
    requires input.request.Some? && input.info.Some?
    ensures var event, h := BuiltEvent(json, hostOf, input), input.request.value.headers;
            && event.auditID == (if Trim(Get(h, "Audit-ID")) == "" then input.freshAuditID else Trim(Get(h, "Audit-ID")))
            && event.userAgent == Get(h, "User-Agent")
  {
    hide Trim, Get, SourceIPs, PeerHost, BuildUnknown, BuildResponseStatus, BuildObjectReference;
  }

  /** The event's status code is the HTTP code unless the body is a Status document with another, non-zero code. */
  lemma StatusCodeIsHttpCode(json: Json, code: int, body: bytes)
    ensures BuildResponseStatus(json, code, body).code == code <==>
            IsBlank(body) || json.statusOf(body).None? || json.statusOf(body).value.code in {0, code}
  {
  }

  const CONFLICT: bytes := "{\"kind\":\"Status\"," + "\"apiVersion\":\"v1\"," + "\"code\":409}"

  lemma ConflictIsNotBlank()
    ensures !IsBlank(CONFLICT)
  {
    hide Trim;
    assert "\"code\":409}"[10] == '}';
    assert CONFLICT[0] == '{' && CONFLICT[|CONFLICT| - 1] == '}';
    TrimVisible(CONFLICT);
  }

  /** Concretely, a reply of 200 whose body is a Status document with code 409 is reported as 409. */
  lemma StatusBodyOverridesCode(json: Json)
    requires json.statusOf(CONFLICT) == Some(Status("v1", 409))
    ensures BuildResponseStatus(json, 200, CONFLICT).code == 409
  {
    ConflictIsNotBlank();
    hide IsBlank;
  }
}
