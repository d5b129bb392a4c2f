/** Extracting the delegated identity from an inbound request, with the authenticator left abstract. */
module RequestIdentity {
  import opened Bytes
  import opened HeaderMaps
  import opened BackendIdentity

  /** What an authenticator answers: an error, or whether it recognised the request and as whom. */
  datatype Response = Error(message: string) | Answer(ok: bool, user: Option<UserInfo>)

  /** An authenticator decides from the headers and may strip them as it goes. */
  datatype Authenticator = Authenticator(decide: HeaderMap -> Response, consume: HeaderMap -> HeaderMap)

  datatype Extraction = Extraction(user: UserInfo, trusted: bool, failed: bool)

  const NOBODY := UserInfo("", "", [], map[])

  function Extracted(authenticator: Option<Authenticator>, headers: HeaderMap): Extraction {
    match authenticator
    case None => Extraction(NOBODY, false, false)
    case Some(a) =>
      match a.decide(headers)
      case Error(_) => Extraction(NOBODY, false, true)
      case Answer(ok, user) => if ok && user.Some? then Extraction(user.value, true, false) else Extraction(NOBODY, ok, false)
  }

  /** The authenticator's call: it reads and may rewrite the headers it is given. */
  method Authenticate(a: Authenticator, header: Header) returns (r: Response)
    modifies header
    ensures r == a.decide(old(header.fields)) && header.fields == a.consume(old(header.fields))
  {
    r := a.decide(header.fields);
    header.fields := a.consume(header.fields);
  }

  /** The request keeps its headers whatever the authenticator does to its copy; the user comes back entry for entry. */
  method FromRequest(authenticator: Option<Authenticator>, header: Header) returns (r: Extraction)
    ensures header.fields == old(header.fields)
    ensures r == Extracted(authenticator, header.fields)
  {
    if authenticator.None? {
      return Extraction(NOBODY, false, false);
    }
    var copy := header.Clone();
    var response := Authenticate(authenticator.value, copy);
    if response.Error? {
      return Extraction(NOBODY, false, true);
    }
    if !response.ok || response.user.None? {
      return Extraction(NOBODY, response.ok, false);
    }
    var user := response.user.value;
    var extra: map<bytes, seq<bytes>> := map[];
    var toVisit := user.extra.Keys;
    while toVisit != {}
      invariant toVisit <= user.extra.Keys
      invariant extra == map key | key in user.extra && key !in toVisit :: user.extra[key]
    {
      var key :| key in toVisit;
      toVisit := toVisit - {key};
      extra := extra[key := user.extra[key]];
    }
    assert extra == user.extra;
    return Extraction(UserInfo(user.username, user.uid, user.groups, extra), true, false);
  }
}
