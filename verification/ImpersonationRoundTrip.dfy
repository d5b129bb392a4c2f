/** What the backend's impersonation filter reads back from the headers an Impersonator leaves. */
module ImpersonationRoundTrip {
  import opened Bytes
  import opened HeaderKeyCodec
  import opened HeaderMaps
  import opened BackendIdentity

  /** The backend's reading of an extra header's name: lower-case, drop the prefix, percent-decode. */
  function DecodedKey(name: bytes): bytes
    requires EXTRA_PREFIX <= name
  {
    var encoded := Lower(name[|EXTRA_PREFIX|..]);
    match Unescape(encoded)
    case Some(key) => key
    case None => encoded
  }

  predicate IsExtra(h: HeaderMap, name: bytes) {
    EXTRA_PREFIX <= name && name in h && h[name] != []
  }

  /** The backend ranges over its header map, in the given order, gathering values by decoded key. */
  function DecodeExtras(h: HeaderMap, order: seq<bytes>): map<bytes, seq<bytes>> {
    if order == [] then map[]
    else
      var name := order[|order| - 1];
      var before := DecodeExtras(h, order[..|order| - 1]);
      if IsExtra(h, name) then
        var key := DecodedKey(name);
        before[key := (if key in before then before[key] else []) + h[name]]
      else before
  }

  function Decode(h: HeaderMap, order: seq<bytes>): UserInfo {
    UserInfo(Get(h, USER_HEADER), Get(h, UID_HEADER), Values(h, GROUP_HEADER), DecodeExtras(h, order))
  }

  /** Extra `key` is forwarded with at least one value. */
  predicate Carried(imp: Impersonator, extra: map<bytes, seq<bytes>>, key: bytes) {
    key in extra && imp.Forwards(key) && extra[key] != []
  }

  /** The part of the verified user the configuration lets through. */
  function Projection(imp: Impersonator, user: UserInfo): UserInfo {
    UserInfo(user.username, if imp.forwardUID then user.uid else "", user.groups,
             map key | key in user.extra && Carried(imp, user.extra, key) :: user.extra[key])
  }

  /** The values, in visiting order, of all forwarded extras whose key is `key` up to case. */
  function Gathered(imp: Impersonator, extra: map<bytes, seq<bytes>>, order: seq<bytes>, key: bytes): seq<bytes> {
    if order == [] then []
    else
      var last := order[|order| - 1];
      Gathered(imp, extra, order[..|order| - 1], key)
      + if Carried(imp, extra, last) && Lower(last) == key then extra[last] else []
  }

  function CaseFolded(imp: Impersonator, extra: map<bytes, seq<bytes>>, order: seq<bytes>): map<bytes, seq<bytes>> {
    map key | key in (set k | k in extra && Carried(imp, extra, k) :: Lower(k)) :: Gathered(imp, extra, order, key)
  }

  lemma UserHeaderIsCanonical()
    ensures Canonical(USER_HEADER) == USER_HEADER
  {
    assert IsToken(USER_HEADER);
  }

  lemma GroupHeaderIsCanonical()
    ensures Canonical(GROUP_HEADER) == GROUP_HEADER
  {
    assert IsToken(GROUP_HEADER);
  }

  lemma UidHeaderIsCanonical()
    ensures Canonical(UID_HEADER) == UID_HEADER
  {
    assert IsToken(UID_HEADER);
  }

  lemma ExtraPrefixIsCanonical()
    ensures IsToken(EXTRA_PREFIX) && CanonicalCase(EXTRA_PREFIX) == EXTRA_PREFIX
    ensures EXTRA_PREFIX[|EXTRA_PREFIX| - 1] == '-'
  {
  }

  /** The three fixed names and the extra prefix cannot be confused, and all start with the stripped prefix. */
  lemma NamesAreApart()
    ensures !(EXTRA_PREFIX <= USER_HEADER) && !(EXTRA_PREFIX <= GROUP_HEADER) && !(EXTRA_PREFIX <= UID_HEADER)
    ensures USER_HEADER != GROUP_HEADER && USER_HEADER != UID_HEADER && GROUP_HEADER != UID_HEADER
    ensures IMPERSONATE_PREFIX <= USER_HEADER && IMPERSONATE_PREFIX <= GROUP_HEADER && IMPERSONATE_PREFIX <= UID_HEADER
    ensures IMPERSONATE_PREFIX <= EXTRA_PREFIX
  {
  }

  lemma PrefixedCanonical(prefix: bytes, suffix: bytes)
    requires IsToken(prefix) && CanonicalCase(prefix) == prefix && prefix != [] && prefix[|prefix| - 1] == '-'
    requires IsToken(suffix)
    ensures Canonical(prefix + suffix) == prefix + Canonical(suffix)
  {
  }

  /** A forwarded extra lands under a canonical name that the backend reads as the lower-cased key. */
  lemma ExtraHeaderName(key: bytes)
    ensures EXTRA_PREFIX <= Canonical(ExtraHeader(key))
    ensures DecodedKey(Canonical(ExtraHeader(key))) == Lower(key)
  {
    ExtraPrefixIsCanonical();
    EscapeIsToken(key);
    PrefixedCanonical(EXTRA_PREFIX, Escape(key));
    CodecSurvivesCanonicalisation(key);
    assert Canonical(ExtraHeader(key))[|EXTRA_PREFIX|..] == Canonical(Escape(key));
  }

  lemma ExtraHeadersCollideOnCase(a: bytes, b: bytes)
    ensures Canonical(ExtraHeader(a)) == Canonical(ExtraHeader(b)) <==> Lower(a) == Lower(b)
  {
    ExtraHeaderName(a);
    ExtraHeaderName(b);
    if Lower(a) == Lower(b) {
      ExtraPrefixIsCanonical();
      EscapeIsToken(a);
      EscapeIsToken(b);
      PrefixedCanonical(EXTRA_PREFIX, Escape(a));
      PrefixedCanonical(EXTRA_PREFIX, Escape(b));
      EscapeCollidesExactlyOnCase(a, b);
    }
  }

  // ----- What the projection loop leaves in the header map

  ghost predicate NoExtras(h: HeaderMap) {
    forall name :: name in h ==> !(EXTRA_PREFIX <= name)
  }

  lemma {:induction false} ExtrasKeepOtherHeaders(imp: Impersonator, h: HeaderMap, extra: map<bytes, seq<bytes>>,
                                                  order: seq<bytes>, name: bytes)
    requires forall key :: key in order ==> key in extra
    requires !(EXTRA_PREFIX <= name)
    ensures var after := WithExtras(imp, h, extra, order);
            (name in after <==> name in h) && (name in h ==> after[name] == h[name])
  {
    if order != [] {
      ExtrasKeepOtherHeaders(imp, h, extra, order[..|order| - 1], name);
      ExtraHeaderName(order[|order| - 1]);
    }
  }

  lemma {:induction false} ExtrasGather(imp: Impersonator, h: HeaderMap, extra: map<bytes, seq<bytes>>,
                                        order: seq<bytes>, key: bytes)
    requires forall k :: k in order ==> k in extra
    requires NoExtras(h)
    ensures Values(WithExtras(imp, h, extra, order), ExtraHeader(key)) == Gathered(imp, extra, order, Lower(key))
  {
    hide Canonical, ExtraHeader;
    ExtraHeaderName(key);
    if order != [] {
      var last := order[|order| - 1];
      ExtrasGather(imp, h, extra, order[..|order| - 1], key);
      ExtraHeadersCollideOnCase(last, key);
    }
  }

  lemma {:induction false} ExtrasComeFromUser(imp: Impersonator, h: HeaderMap, extra: map<bytes, seq<bytes>>,
                                              order: seq<bytes>, name: bytes) returns (key: bytes)
    requires forall k :: k in order ==> k in extra
    requires NoExtras(h)
    requires EXTRA_PREFIX <= name && name in WithExtras(imp, h, extra, order)
    ensures key in order && Carried(imp, extra, key) && name == Canonical(ExtraHeader(key))
  {
    key := order[|order| - 1];
    if !(Carried(imp, extra, key) && name == Canonical(ExtraHeader(key))) {
      key := ExtrasComeFromUser(imp, h, extra, order[..|order| - 1], name);
    }
  }

  lemma {:induction false} GatheredIsNonEmpty(imp: Impersonator, extra: map<bytes, seq<bytes>>, order: seq<bytes>, key: bytes)
    requires key in order && Carried(imp, extra, key)
    ensures Gathered(imp, extra, order, Lower(key)) != []
  {
    if order[|order| - 1] != key {
      GatheredIsNonEmpty(imp, extra, order[..|order| - 1], key);
    }
  }

  // ----- What the backend makes of it

  /** No two extra headers of `h` read as the same key. */
  ghost predicate DecodesInjectively(h: HeaderMap) {
    forall m, n :: IsExtra(h, m) && IsExtra(h, n) && DecodedKey(m) == DecodedKey(n) ==> m == n
  }

  lemma {:induction false} DecodeReadsEachHeader(h: HeaderMap, order: seq<bytes>)
    requires DecodesInjectively(h)
    requires forall i, j :: 0 <= i < j < |order| ==> order[i] != order[j]
    ensures forall n :: n in order && IsExtra(h, n) ==>
              DecodedKey(n) in DecodeExtras(h, order) && DecodeExtras(h, order)[DecodedKey(n)] == h[n]
    ensures forall key :: key in DecodeExtras(h, order) ==>
              exists n :: n in order && IsExtra(h, n) && DecodedKey(n) == key
  {
    hide DecodedKey;
    if order != [] {
      var name := order[|order| - 1];
      var rest := order[..|order| - 1];
      DecodeReadsEachHeader(h, rest);
      assert order == rest + [name];
      assert name !in rest;
    }
  }

  lemma BaseHasNoExtras(imp: Impersonator, h: HeaderMap, user: UserInfo)
    ensures NoExtras(BaseHeaders(imp, h, user))
  {
    NamesAreApart();
    UserHeaderIsCanonical();
    GroupHeaderIsCanonical();
    UidHeaderIsCanonical();
    var kept := Keeping(h, IsIdentityHeader);
    forall name | name in kept ensures !(EXTRA_PREFIX <= name) {
      if EXTRA_PREFIX <= name {
        PrefixSurvivesCanonicalisation(name);
        assert false;
      }
    }
  }

  /** A name with the stripped prefix keeps it under canonicalisation, token or not. */
  lemma PrefixSurvivesCanonicalisation(name: bytes)
    requires EXTRA_PREFIX <= name
    ensures IMPERSONATE_PREFIX <= Canonical(name)
  {
    NamesAreApart();
    ExtraPrefixIsCanonical();
    if IsToken(name) {
      assert forall i :: 0 <= i < |EXTRA_PREFIX| ==> Canonical(name)[i] == CanonicalCase(EXTRA_PREFIX)[i];
      assert EXTRA_PREFIX <= Canonical(name);
    }
  }

  lemma DecodesInjectivelyAfterProjection(imp: Impersonator, h: HeaderMap, extra: map<bytes, seq<bytes>>, order: seq<bytes>)
    requires forall key :: key in order ==> key in extra
    requires NoExtras(h)
    ensures DecodesInjectively(WithExtras(imp, h, extra, order))
  {
    var after := WithExtras(imp, h, extra, order);
    forall m, n | IsExtra(after, m) && IsExtra(after, n) && DecodedKey(m) == DecodedKey(n) ensures m == n {
      var a := ExtrasComeFromUser(imp, h, extra, order, m);
      var b := ExtrasComeFromUser(imp, h, extra, order, n);
      ExtraHeaderName(a);
      ExtraHeaderName(b);
      ExtraHeadersCollideOnCase(a, b);
    }
  }

  /**
   For every user, inbound header map, and iteration order on either side, the backend reads exactly
   the forwarded extras with their keys lower-cased; keys that differ only in case are merged.
   */
  lemma BackendReadsCaseFoldedExtras(imp: Impersonator, h: HeaderMap, user: UserInfo, sent: seq<bytes>, read: seq<bytes>)
    requires Enumerates(sent, user.extra.Keys)
    requires Enumerates(read, Impersonated(imp, h, user, sent).Keys)
    ensures DecodeExtras(Impersonated(imp, h, user, sent), read) == CaseFolded(imp, user.extra, sent)
  {
    hide Canonical, ExtraHeader, DecodedKey, BaseHeaders;
    var base := BaseHeaders(imp, h, user);
    var after := Impersonated(imp, h, user, sent);
    var decoded := DecodeExtras(after, read);
    BaseHasNoExtras(imp, h, user);
    DecodesInjectivelyAfterProjection(imp, base, user.extra, sent);
    DecodeReadsEachHeader(after, read);
    forall key | key in decoded
      ensures key in CaseFolded(imp, user.extra, sent) && decoded[key] == Gathered(imp, user.extra, sent, key)
    {
      var name :| name in read && IsExtra(after, name) && DecodedKey(name) == key;
      var k := ExtrasComeFromUser(imp, base, user.extra, sent, name);
      ExtraHeaderName(k);
      ExtrasGather(imp, base, user.extra, sent, k);
    }
    forall k | k in user.extra && Carried(imp, user.extra, k) ensures Lower(k) in decoded {
      ExtraHeaderName(k);
      ExtrasGather(imp, base, user.extra, sent, k);
      GatheredIsNonEmpty(imp, user.extra, sent, k);
      assert IsExtra(after, Canonical(ExtraHeader(k)));
    }
    assert decoded.Keys == CaseFolded(imp, user.extra, sent).Keys;
  }

  // ----- Main results

  lemma FixedHeadersReadBack(imp: Impersonator, h: HeaderMap, user: UserInfo, sent: seq<bytes>)
    requires forall key :: key in sent ==> key in user.extra
    ensures var after := Impersonated(imp, h, user, sent);
            && Get(after, USER_HEADER) == user.username
            && Get(after, UID_HEADER) == (if imp.forwardUID then user.uid else "")
            && Values(after, GROUP_HEADER) == user.groups
  {
    NamesAreApart();
    UserHeaderIsCanonical();
    GroupHeaderIsCanonical();
    UidHeaderIsCanonical();
    var base := BaseHeaders(imp, h, user);
    ExtrasKeepOtherHeaders(imp, base, user.extra, sent, USER_HEADER);
    ExtrasKeepOtherHeaders(imp, base, user.extra, sent, GROUP_HEADER);
    ExtrasKeepOtherHeaders(imp, base, user.extra, sent, UID_HEADER);
  }

  lemma {:induction false} GatheredAlone(imp: Impersonator, extra: map<bytes, seq<bytes>>, order: seq<bytes>, key: bytes)
    requires forall i, j :: 0 <= i < j < |order| ==> order[i] != order[j]
    requires forall k :: k in order && Carried(imp, extra, k) && Lower(k) == Lower(key) ==> k == key
    ensures Gathered(imp, extra, order, Lower(key)) ==
            if key in order && Carried(imp, extra, key) then extra[key] else []
  {
    if order != [] {
      var last := order[|order| - 1];
      var rest := order[..|order| - 1];
      assert order == rest + [last];
      GatheredAlone(imp, extra, rest, key);
    }
  }

  /**
   The round trip holds, for every inbound header map and every iteration order on both sides,
   exactly when no carried extra key has an upper-case letter.
   */
  lemma RoundTripForLowerCaseKeys(imp: Impersonator, h: HeaderMap, user: UserInfo, sent: seq<bytes>, read: seq<bytes>)
    requires Enumerates(sent, user.extra.Keys)
    requires Enumerates(read, Impersonated(imp, h, user, sent).Keys)
    ensures Decode(Impersonated(imp, h, user, sent), read) == Projection(imp, user)
            <==> forall key :: Carried(imp, user.extra, key) ==> !HasUpper(key)
    ensures Decode(Impersonated(imp, h, user, sent), read).(extra := map[]) == Projection(imp, user).(extra := map[])
  {
    FixedHeadersReadBack(imp, h, user, sent);
    BackendReadsCaseFoldedExtras(imp, h, user, sent, read);
    var folded, projected := CaseFolded(imp, user.extra, sent), Projection(imp, user).extra;
    if key :| Carried(imp, user.extra, key) && HasUpper(key) {
      forall k | k in user.extra ensures Lower(k) != key {
        LowerHasNoUpper(k);
      }
      assert key in projected && key !in folded;
    } else {
      forall key | Carried(imp, user.extra, key) ensures Lower(key) == key && key in folded && folded[key] == user.extra[key] {
        forall k | k in sent && Carried(imp, user.extra, k) && Lower(k) == Lower(key) ensures k == key {
          LowerFixesLowerCase(k);
          LowerFixesLowerCase(key);
        }
        LowerFixesLowerCase(key);
        GatheredAlone(imp, user.extra, sent, key);
      }
      assert folded == projected;
    }
  }

  /** Concretely, an extra named "A" is read back as "a". */
  lemma UpperCaseKeyIsLost(h: HeaderMap, user: UserInfo, read: seq<bytes>)
    requires user.extra == map["A" := ["v"]]
    requires Enumerates(read, Impersonated(Impersonator({}, true, true), h, user, ["A"]).Keys)
    ensures DecodeExtras(Impersonated(Impersonator({}, true, true), h, user, ["A"]), read).Keys == {"a"}
  {
    var imp := Impersonator({}, true, true);
    BackendReadsCaseFoldedExtras(imp, h, user, ["A"], read);
    assert Lower("A") == "a";
    assert Carried(imp, user.extra, "A");
  }

  lemma BaseKeepsOtherHeaders(imp: Impersonator, h: HeaderMap, user: UserInfo, name: bytes)
    requires !IsIdentityHeader(Canonical(name))
    ensures var base := BaseHeaders(imp, h, user);
            (name in base <==> name in h) && (name in h ==> base[name] == h[name])
  {
    hide Canonical;
    OwnNamesAreIdentityHeaders();
  }

  lemma OwnNamesAreIdentityHeaders()
    ensures IsIdentityHeader(USER_HEADER) && Canonical(USER_HEADER) == USER_HEADER
    ensures IsIdentityHeader(GROUP_HEADER) && Canonical(GROUP_HEADER) == GROUP_HEADER
    ensures IsIdentityHeader(UID_HEADER) && Canonical(UID_HEADER) == UID_HEADER
  {
    NamesAreApart();
    UserHeaderIsCanonical();
    GroupHeaderIsCanonical();
    UidHeaderIsCanonical();
  }

  /** Outside the stripped names nothing changes. */
  lemma OtherHeadersSurvive(imp: Impersonator, h: HeaderMap, user: UserInfo, sent: seq<bytes>, name: bytes)
    requires forall key :: key in sent ==> key in user.extra
    requires !IsIdentityHeader(Canonical(name))
    ensures var after := Impersonated(imp, h, user, sent);
            (name in after <==> name in h) && (name in h ==> after[name] == h[name])
  {
    BaseKeepsOtherHeaders(imp, h, user, name);
    if EXTRA_PREFIX <= name {
      PrefixSurvivesCanonicalisation(name);
    }
    ExtrasKeepOtherHeaders(imp, BaseHeaders(imp, h, user), user.extra, sent, name);
  }

  /** Every identity header that leaves the proxy is one of its own, and its values are the verified user's. */
  lemma IdentityHeadersAreTheProxys(imp: Impersonator, h: HeaderMap, user: UserInfo, sent: seq<bytes>, name: bytes)
    requires forall key :: key in sent ==> key in user.extra
    requires name in Impersonated(imp, h, user, sent) && IsIdentityHeader(Canonical(name))
    ensures var values := Impersonated(imp, h, user, sent)[name];
            || (name == USER_HEADER && values == [user.username])
            || (name == GROUP_HEADER && user.groups != [] && values == user.groups)
            || (name == UID_HEADER && imp.forwardUID && user.uid != "" && values == [user.uid])
            || (exists key :: key in sent && Carried(imp, user.extra, key) && name == Canonical(ExtraHeader(key))
                              && values == Gathered(imp, user.extra, sent, Lower(key)))
  {
    var base := BaseHeaders(imp, h, user);
    BaseHasNoExtras(imp, h, user);
    if EXTRA_PREFIX <= name {
      var key := ExtrasComeFromUser(imp, base, user.extra, sent, name);
      ExtrasGather(imp, base, user.extra, sent, key);
    } else {
      ExtrasKeepOtherHeaders(imp, base, user.extra, sent, name);
      BaseIdentityHeaders(imp, h, user, name);
    }
  }

  lemma BaseIdentityHeaders(imp: Impersonator, h: HeaderMap, user: UserInfo, name: bytes)
    requires name in BaseHeaders(imp, h, user) && IsIdentityHeader(Canonical(name))
    ensures var values := BaseHeaders(imp, h, user)[name];
            || (name == USER_HEADER && values == [user.username])
            || (name == GROUP_HEADER && user.groups != [] && values == user.groups)
            || (name == UID_HEADER && imp.forwardUID && user.uid != "" && values == [user.uid])
  {
    NamesAreApart();
    OwnNamesAreIdentityHeaders();
  }

  // ----- When the outgoing headers depend on the verified user and the other headers alone

  /** Extras whose keys differ only in case have value lists that can be merged in either order. */
  ghost predicate MergedValuesCommute(imp: Impersonator, extra: map<bytes, seq<bytes>>) {
    forall a, b :: Carried(imp, extra, a) && Carried(imp, extra, b) && Lower(a) == Lower(b) ==>
      extra[a] + extra[b] == extra[b] + extra[a]
  }

  ghost predicate AgreeOutsideIdentity(h1: HeaderMap, h2: HeaderMap) {
    forall name: bytes :: !IsIdentityHeader(Canonical(name)) ==>
      (name in h1 <==> name in h2) && (name in h1 ==> h1[name] == h2[name])
  }

  /** What one extra adds to the header its key names, when that header's key is `key`. */
  function Contribution(imp: Impersonator, extra: map<bytes, seq<bytes>>, k: bytes, key: bytes): seq<bytes> {
    if Carried(imp, extra, k) && Lower(k) == key then extra[k] else []
  }

  function WithoutIndex(order: seq<bytes>, i: nat): seq<bytes>
    requires i < |order|
  {
    order[..i] + order[i + 1..]
  }

  lemma SwapLast(before: seq<bytes>, a: seq<bytes>, b: seq<bytes>)
    requires a + b == b + a
    ensures before + a + b == before + b + a
  {
    assert before + a + b == before + (a + b);
    assert before + b + a == before + (b + a);
  }

  /** An extra may as well be visited last. */
  lemma {:induction false} MoveToEnd(imp: Impersonator, extra: map<bytes, seq<bytes>>, order: seq<bytes>, i: nat, key: bytes)
    requires i < |order| && MergedValuesCommute(imp, extra)
    ensures Gathered(imp, extra, order, key) ==
            Gathered(imp, extra, WithoutIndex(order, i), key) + Contribution(imp, extra, order[i], key)
  {
    var rest, last := order[..|order| - 1], order[|order| - 1];
    if i == |order| - 1 {
      assert WithoutIndex(order, i) == rest;
    } else {
      MoveToEnd(imp, extra, rest, i, key);
      var fewer := WithoutIndex(order, i);
      assert fewer[..|fewer| - 1] == WithoutIndex(rest, i) && fewer[|fewer| - 1] == last;
      SwapLast(Gathered(imp, extra, WithoutIndex(rest, i), key),
               Contribution(imp, extra, order[i], key), Contribution(imp, extra, last, key));
    }
  }

  lemma DropEnumerates(order: seq<bytes>, i: nat, s: set<bytes>)
    requires Enumerates(order, s) && i < |order|
    ensures Enumerates(WithoutIndex(order, i), s - {order[i]})
  {
    var fewer := WithoutIndex(order, i);
    forall x ensures x in fewer <==> x in s - {order[i]} {
      if x in s && x != order[i] {
        var k :| 0 <= k < |order| && order[k] == x;
        assert fewer[if k < i then k else k - 1] == x;
      }
    }
  }

  lemma {:induction false} EnumerationSize(order: seq<bytes>, s: set<bytes>)
    requires Enumerates(order, s)
    ensures |order| == |s|
  {
    if order == [] {
      assert s == {};
    } else {
      DropEnumerates(order, |order| - 1, s);
      EnumerationSize(WithoutIndex(order, |order| - 1), s - {order[|order| - 1]});
    }
  }

  lemma {:induction false} GatheredInEitherOrder(imp: Impersonator, extra: map<bytes, seq<bytes>>,
                                                 order1: seq<bytes>, order2: seq<bytes>, s: set<bytes>, key: bytes)
    requires Enumerates(order1, s) && Enumerates(order2, s)
    requires MergedValuesCommute(imp, extra)
    ensures Gathered(imp, extra, order1, key) == Gathered(imp, extra, order2, key)
  {
    hide Gathered, MergedValuesCommute;
    EnumerationSize(order1, s);
    EnumerationSize(order2, s);
    if order1 != [] {
      var rest, last := order1[..|order1| - 1], order1[|order1| - 1];
      DropEnumerates(order1, |order1| - 1, s);
      assert WithoutIndex(order1, |order1| - 1) == rest;
      assert last in order2;
      var i :| 0 <= i < |order2| && order2[i] == last;
      DropEnumerates(order2, i, s);
      GatheredInEitherOrder(imp, extra, rest, WithoutIndex(order2, i), s - {last}, key);
      MoveToEnd(imp, extra, order1, |order1| - 1, key);
      MoveToEnd(imp, extra, order2, i, key);
    }
  }

  lemma SameHeaderEitherOrder(imp: Impersonator, base: HeaderMap, extra: map<bytes, seq<bytes>>,
                              order1: seq<bytes>, order2: seq<bytes>, name: bytes)
    requires Enumerates(order1, extra.Keys) && Enumerates(order2, extra.Keys)
    requires NoExtras(base) && MergedValuesCommute(imp, extra)
    requires name in WithExtras(imp, base, extra, order1)
    ensures name in WithExtras(imp, base, extra, order2)
    ensures WithExtras(imp, base, extra, order1)[name] == WithExtras(imp, base, extra, order2)[name]
  {
    if EXTRA_PREFIX <= name {
      var key := ExtrasComeFromUser(imp, base, extra, order1, name);
      ExtrasGather(imp, base, extra, order1, key);
      ExtrasGather(imp, base, extra, order2, key);
      GatheredInEitherOrder(imp, extra, order1, order2, extra.Keys, Lower(key));
      GatheredIsNonEmpty(imp, extra, order2, key);
    } else {
      ExtrasKeepOtherHeaders(imp, base, extra, order1, name);
      ExtrasKeepOtherHeaders(imp, base, extra, order2, name);
    }
  }

  lemma CommutingValuesDetermineOutput(imp: Impersonator, h1: HeaderMap, h2: HeaderMap, user: UserInfo,
                                       order1: seq<bytes>, order2: seq<bytes>)
    requires AgreeOutsideIdentity(h1, h2)
    requires Enumerates(order1, user.extra.Keys) && Enumerates(order2, user.extra.Keys)
    requires MergedValuesCommute(imp, user.extra)
    ensures Impersonated(imp, h1, user, order1) == Impersonated(imp, h2, user, order2)
  {
    var after1, after2 := Impersonated(imp, h1, user, order1), Impersonated(imp, h2, user, order2);
    var base := BaseHeaders(imp, h1, user);
    assert Keeping(h1, IsIdentityHeader) == Keeping(h2, IsIdentityHeader);
    BaseHasNoExtras(imp, h1, user);
    forall name | name in after1 ensures name in after2 && after1[name] == after2[name] {
      SameHeaderEitherOrder(imp, base, user.extra, order1, order2, name);
    }
    forall name | name in after2 ensures name in after1 {
      SameHeaderEitherOrder(imp, base, user.extra, order2, order1, name);
    }
  }

  lemma {:induction false} SomeOrder(s: set<bytes>) returns (order: seq<bytes>)
    ensures Enumerates(order, s)
  {
    order := [];
    if x :| x in s {
      var rest := SomeOrder(s - {x});
      order := rest + [x];
    }
  }

  lemma GatheredPair(imp: Impersonator, extra: map<bytes, seq<bytes>>, rest: seq<bytes>, a: bytes, b: bytes, key: bytes)
    ensures Gathered(imp, extra, rest + [a, b], key) ==
            Gathered(imp, extra, rest, key) + Contribution(imp, extra, a, key) + Contribution(imp, extra, b, key)
  {
    assert (rest + [a, b])[..|rest| + 1] == rest + [a];
    assert (rest + [a])[..|rest|] == rest;
  }

  lemma PairEnumerates(rest: seq<bytes>, s: set<bytes>, a: bytes, b: bytes)
    requires Enumerates(rest, s - {a, b}) && a in s && b in s && a != b
    ensures Enumerates(rest + [a, b], s)
  {
  }

  lemma PairShows(imp: Impersonator, extra: map<bytes, seq<bytes>>, rest: seq<bytes>, a: bytes, b: bytes)
    requires Carried(imp, extra, a) && Carried(imp, extra, b) && Lower(a) == Lower(b)
    requires extra[a] + extra[b] != extra[b] + extra[a]
    ensures Gathered(imp, extra, rest + [a, b], Lower(a)) != Gathered(imp, extra, rest + [b, a], Lower(a))
  {
    GatheredPair(imp, extra, rest, a, b, Lower(a));
    GatheredPair(imp, extra, rest, b, a, Lower(a));
    var before, va, vb := Gathered(imp, extra, rest, Lower(a)), extra[a], extra[b];
    hide Gathered, Carried, Lower;
    assert (before + va + vb)[|before|..] == va + vb;
    assert (before + vb + va)[|before|..] == vb + va;
  }

  /** Two extras that cannot be merged in either order make two visiting orders with different headers. */
  lemma OrderShows(imp: Impersonator, h: HeaderMap, user: UserInfo, a: bytes, b: bytes) returns (order1: seq<bytes>, order2: seq<bytes>)
    requires Carried(imp, user.extra, a) && Carried(imp, user.extra, b) && Lower(a) == Lower(b)
    requires user.extra[a] + user.extra[b] != user.extra[b] + user.extra[a]
    ensures Enumerates(order1, user.extra.Keys) && Enumerates(order2, user.extra.Keys)
    ensures Impersonated(imp, h, user, order1) != Impersonated(imp, h, user, order2)
  {
    var rest := SomeOrder(user.extra.Keys - {a, b});
    order1, order2 := rest + [a, b], rest + [b, a];
    PairEnumerates(rest, user.extra.Keys, a, b);
    assert user.extra.Keys - {a, b} == user.extra.Keys - {b, a};
    PairEnumerates(rest, user.extra.Keys, b, a);
    hide Canonical, ExtraHeader, Lower, BaseHeaders, WithExtras, Gathered;
    PairShows(imp, user.extra, rest, a, b);
    var base := BaseHeaders(imp, h, user);
    BaseHasNoExtras(imp, h, user);
    ExtrasGather(imp, base, user.extra, order1, a);
    ExtrasGather(imp, base, user.extra, order2, a);
  }

  /** Two runs for the same user, over any inbound headers that agree outside identity, leave the same headers. */
  ghost predicate SameOutput(imp: Impersonator, user: UserInfo, h1: HeaderMap, h2: HeaderMap, order1: seq<bytes>, order2: seq<bytes>) {
    AgreeOutsideIdentity(h1, h2) && Enumerates(order1, user.extra.Keys) && Enumerates(order2, user.extra.Keys) ==>
      Impersonated(imp, h1, user, order1) == Impersonated(imp, h2, user, order2)
  }

  /**
   The outgoing headers depend on the verified user and the other headers alone, whatever identity came in and however
   the maps are ranged over, exactly when extras whose keys differ only in case can be merged in either order.
   */
  lemma OutputIsDeterminedByUser(imp: Impersonator, user: UserInfo)
    ensures (forall h1, h2, order1, order2 :: SameOutput(imp, user, h1, h2, order1, order2)) <==> MergedValuesCommute(imp, user.extra)
  {
    if MergedValuesCommute(imp, user.extra) {
      forall h1, h2, order1, order2 ensures SameOutput(imp, user, h1, h2, order1, order2) {
        if AgreeOutsideIdentity(h1, h2) && Enumerates(order1, user.extra.Keys) && Enumerates(order2, user.extra.Keys) {
          CommutingValuesDetermineOutput(imp, h1, h2, user, order1, order2);
        }
      }
    } else {
      var a, b :| Carried(imp, user.extra, a) && Carried(imp, user.extra, b) && Lower(a) == Lower(b)
                  && user.extra[a] + user.extra[b] != user.extra[b] + user.extra[a];
      var order1, order2 := OrderShows(imp, map[], user, a, b);
      assert !SameOutput(imp, user, map[], map[], order1, order2);
    }
  }

  /** Concretely, "a" and "A" share one header, and the order of its values is the order of the map. */
  lemma CaseTwinsDependOnOrder(h: HeaderMap, user: UserInfo) returns (order1: seq<bytes>, order2: seq<bytes>)
    requires user.extra == map["a" := ["1"], "A" := ["2"]]
    ensures Enumerates(order1, user.extra.Keys) && Enumerates(order2, user.extra.Keys)
    ensures var imp := Impersonator({}, true, true); Impersonated(imp, h, user, order1) != Impersonated(imp, h, user, order2)
  {
    assert Lower("a") == "a" && Lower("A") == "a";
    assert (["1"] + ["2"])[0] != (["2"] + ["1"])[0];
    order1, order2 := OrderShows(Impersonator({}, true, true), h, user, "a", "A");
  }

  /** The default decorator removes exactly Authorization and Impersonate-* from the map it is given, so no X-Remote-* header of it. */
  lemma ForwarderIsExact(h: HeaderMap, name: bytes)
    ensures var after := Keeping(h, IsImpersonationHeader);
            && (name in after <==> name in h && Canonical(name) != AUTHORIZATION && !(IMPERSONATE_PREFIX <= Canonical(name)))
            && (name in after ==> after[name] == h[name])
            && (name in h && REMOTE_PREFIX <= Canonical(name) ==> name in after)
  {
    assert REMOTE_PREFIX[0] == 'X' && AUTHORIZATION[0] == 'A' && IMPERSONATE_PREFIX[0] == 'I';
  }
}
