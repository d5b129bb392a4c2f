/** The identity presented to the backend: header stripping, impersonation headers, and what the backend reads back. */
module BackendIdentity {
  import opened Bytes
  import opened HeaderKeyCodec
  import opened HeaderMaps

  datatype UserInfo = UserInfo(username: bytes, uid: bytes, groups: seq<bytes>, extra: map<bytes, seq<bytes>>)

  datatype Impersonator = Impersonator(extraKeyAllowlist: set<bytes>, forwardAllExtras: bool, forwardUID: bool)
  {
    predicate Forwards(key: bytes) {
      forwardAllExtras || key in extraKeyAllowlist
    }
  }

  const AUTHORIZATION: bytes := "Authorization"
  const REMOTE_PREFIX: bytes := "X-Remote-"
  const IMPERSONATE_PREFIX: bytes := "Impersonate-"
  const USER_HEADER: bytes := "Impersonate-User"
  const GROUP_HEADER: bytes := "Impersonate-Group"
  const UID_HEADER: bytes := "Impersonate-Uid"
  const EXTRA_PREFIX: bytes := "Impersonate-Extra-"

  predicate IsImpersonationHeader(canonical: bytes) {
    canonical == AUTHORIZATION || IMPERSONATE_PREFIX <= canonical
  }

  predicate IsIdentityHeader(canonical: bytes) {
    canonical == AUTHORIZATION || REMOTE_PREFIX <= canonical || IMPERSONATE_PREFIX <= canonical
  }

  /** The headers whose canonical name does not match, values untouched. */
  function Keeping(h: HeaderMap, matches: bytes -> bool): HeaderMap {
    map key | key in h && !matches(Canonical(key)) :: h[key]
  }

  /** Deletes while ranging over the map, in any order. */
  method DeleteHeadersFunc(header: Header, matches: bytes -> bool)
    modifies header
    ensures header.fields == Keeping(old(header.fields), matches)
  {
    var toVisit := header.fields.Keys;
    while toVisit != {}
      invariant toVisit <= header.fields.Keys
      invariant header.fields ==
                map key | key in old(header.fields) && (key in toVisit || !matches(Canonical(key))) :: old(header.fields)[key]
    {
      var key :| key in toVisit;
      toVisit := toVisit - {key};
      if matches(Canonical(key)) {
        header.fields := header.fields - {key};
      }
    }
  }

  method ApplyRequestHeaderForwarder(header: Header)
    modifies header
    ensures header.fields == Keeping(old(header.fields), IsImpersonationHeader)
  {
    DeleteHeadersFunc(header, IsImpersonationHeader);
  }

  function ExtraHeader(key: bytes): bytes {
    EXTRA_PREFIX + Escape(key)
  }

  /** The headers after stripping and setting user, groups and UID, before any extra. */
  function BaseHeaders(imp: Impersonator, h: HeaderMap, user: UserInfo): HeaderMap {
    var named := WithValue(Keeping(h, IsIdentityHeader), USER_HEADER, user.username);
    var grouped := WithAllAdded(named, GROUP_HEADER, user.groups);
    if imp.forwardUID && user.uid != "" then WithValue(grouped, UID_HEADER, user.uid) else grouped
  }

  /** The extras projected onto `h`, visited in the given order. */
  function WithExtras(imp: Impersonator, h: HeaderMap, extra: map<bytes, seq<bytes>>, order: seq<bytes>): HeaderMap
    requires forall key :: key in order ==> key in extra
  {
    if order == [] then h
    else
      var last := order[|order| - 1];
      var before := WithExtras(imp, h, extra, order[..|order| - 1]);
      if imp.Forwards(last) then WithAllAdded(before, ExtraHeader(last), extra[last]) else before
  }

  function Impersonated(imp: Impersonator, h: HeaderMap, user: UserInfo, order: seq<bytes>): HeaderMap
    requires forall key :: key in order ==> key in user.extra
  {
    WithExtras(imp, BaseHeaders(imp, h, user), user.extra, order)
  }

  /** Impersonator.Apply; `order` is the order in which this run happened to range over the extras. */
  method ApplyImpersonator(imp: Impersonator, header: Header, user: UserInfo) returns (ghost order: seq<bytes>)
    modifies header
    ensures Enumerates(order, user.extra.Keys)
    ensures header.fields == Impersonated(imp, old(header.fields), user, order)
  {
    DeleteHeadersFunc(header, IsIdentityHeader);
    header.Set(USER_HEADER, user.username);
    header.AddAll(GROUP_HEADER, user.groups);
    if imp.forwardUID && user.uid != "" {
      header.Set(UID_HEADER, user.uid);
    }

    order := [];
    var toVisit := user.extra.Keys;
    while toVisit != {}
      invariant toVisit <= user.extra.Keys
      invariant Enumerates(order, user.extra.Keys - toVisit)
      invariant header.fields == Impersonated(imp, old(header.fields), user, order)
    {
      var key :| key in toVisit;
      toVisit := toVisit - {key};
      ghost var before := order;
      order := order + [key];
      assert order[..|order| - 1] == before;
      if !imp.forwardAllExtras && key !in imp.extraKeyAllowlist {
        continue;
      }
      var buf := HeaderKeyEscape(key);
      header.AddAll(EXTRA_PREFIX + buf, user.extra[key]);
    }
  }
}
