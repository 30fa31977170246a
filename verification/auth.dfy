/** `getHearthAuthHeaders`: the salted challenge-response that yields the
    four `auth-*` headers, and their merge into the request headers. */
module Auth {
  import opened Wrappers
  import opened Text
  import opened Json
  import opened Http

  /** hex(SHA-512(x)): the digest library is not modelled, only used. */
  type HexDigest = string -> string

  /** A hash object fed by successive `update` calls digests the
      concatenation of what it was fed. */
  function Concat(chunks: seq<string>): (r: string) {
    if chunks == [] then "" else chunks[0] + Concat(chunks[1..])
  }

  function Digest(hash: HexDigest, chunks: seq<string>): (r: string) {
    hash(Concat(chunks))
  }

  lemma ConcatSpelled(a: string, b: string, c: string, d: string)
    ensures Concat([a, b]) == a + b
    ensures Concat([c, a, d]) == c + a + d
  {
    assert [a, b][1..] == [b] && [b][1..] == [];
    assert Concat([b]) == b + "" == b;
    assert [c, a, d][1..] == [a, d] && [a, d][1..] == [d];
    assert Concat([d]) == d + "" == d;
    assert Concat([a, d]) == a + d;
    assert Concat([c, a, d]) == c + (a + d);
  }

  const UserKey: string := "auth-username"
  const TsKey: string := "auth-ts"
  const SaltKey: string := "auth-salt"
  const TokenKey: string := "auth-token"
  const ContentType: string := "content-type"

  /** The challenge endpoint: the first `fhir` of the base URL becomes `api`. */
  function AuthUrl(host: string, username: string): (r: string) {
    ReplaceFirst(host, "fhir", "api") + "/authenticate/" + username
  }

  function AuthRequest(host: string, username: string): (r: Request) {
    Request(Get, AuthUrl(host, username), map[], NoBody)
  }

  /** The callback of the challenge request: `die` on a transport error; a
      TypeError when the body has no string `salt` or `ts` to feed the hash
      (the status code is not looked at); otherwise the four headers. */
  function AuthHeaders(resp: Response, username: string, password: string, hash: HexDigest)
    : (r: Result<Headers, Halt>)
    ensures resp.TransportError? ==> r == Err(Fatal)
    ensures r.Ok? <==>
              && resp.Reply? && resp.body.Some?
              && Path(resp.body.value, [Name("salt")]).Some? && Path(resp.body.value, [Name("salt")]).value.Str?
              && Path(resp.body.value, [Name("ts")]).Some? && Path(resp.body.value, [Name("ts")]).value.Str?
    ensures r.Ok? ==>
              var salt := Path(resp.body.value, [Name("salt")]).value.s;
              var ts := Path(resp.body.value, [Name("ts")]).value.s;
              && r.value.Keys == {UserKey, TsKey, SaltKey, TokenKey}
              && r.value[UserKey] == username && r.value[TsKey] == ts && r.value[SaltKey] == salt
              && r.value[TokenKey] == hash(hash(salt + password) + salt + ts)
  {
    match resp
    case TransportError => Err(Fatal)
    case Reply(_, _, None) => Err(Crash)
    case Reply(_, _, Some(b)) =>
      match (Path(b, [Name("salt")]), Path(b, [Name("ts")]))
      case (Some(Str(salt)), Some(Str(ts))) =>
        var passhash := Digest(hash, [salt, password]);
        var token := Digest(hash, [passhash, salt, ts]);
        ConcatSpelled(salt, password, passhash, ts);
        Ok(map[UserKey := username, TsKey := ts, SaltKey := salt, TokenKey := token])
      case _ => Err(Crash)
  }

  /** `_.extend(headers, auth)`: the auth headers are added, the existing
      `content-type` stays. */
  function Extend(base: Headers, auth: Headers): (r: Headers)
    ensures r.Keys == base.Keys + auth.Keys
    ensures forall k :: k in auth ==> r[k] == auth[k]
    ensures forall k :: k in base && k !in auth ==> r[k] == base[k]
  {
    base + auth
  }

  lemma ExtendKeepsContentType(base: Headers, auth: Headers)
    requires ContentType in base && auth.Keys == {UserKey, TsKey, SaltKey, TokenKey}
    ensures Extend(base, auth)[ContentType] == base[ContentType]
    ensures Extend(base, auth).Keys == base.Keys + {UserKey, TsKey, SaltKey, TokenKey}
  {
  }

  /** Only the first `fhir` is replaced: a host name containing `fhir` is
      rewritten there and the path segment is left alone. */
  lemma AuthUrlReplacesFirstOnly(a: string, b: string, username: string)
    requires forall j :: 0 <= j < |a| ==> !OccursAt(a + "fhir" + b, j, "fhir")
    ensures AuthUrl(a + "fhir" + b, username) == a + "api" + b + "/authenticate/" + username
  {
    ReplaceFirstSplits(a, "fhir", b, "api");
  }

  /** A base URL without `fhir` is used as it is. */
  lemma AuthUrlWithoutFhir(host: string, username: string)
    requires forall j :: !OccursAt(host, j, "fhir")
    ensures AuthUrl(host, username) == host + "/authenticate/" + username
  {
    ReplaceFirstAbsent(host, "fhir", "api");
  }

  /** The start of the program: with `enable-auth` the challenge request is
      made and its headers merged in before the scenario runs; otherwise the
      scenario runs with the content type alone. */
  function ScenarioHeaders(enableAuth: bool, host: string, username: string, password: string,
                           hash: HexDigest, server: Server): Result<Headers, Halt>
  {
    var base := map[ContentType := "application/json"];
    if !enableAuth then Ok(base)
    else
      match AuthHeaders(server(AuthRequest(host, username)), username, password, hash)
      case Ok(auth) => Ok(Extend(base, auth))
      case Err(h) => Err(h)
  }

  /** Whichever way the program starts, the scenario's requests keep the JSON
      content type; with auth they carry exactly the four `auth-*` headers
      besides it, and the scenario starts only if the challenge succeeded. */
  lemma ScenarioHeadersFacts(enableAuth: bool, host: string, username: string, password: string,
                             hash: HexDigest, server: Server)
    ensures var r := ScenarioHeaders(enableAuth, host, username, password, hash, server);
            && (!enableAuth ==> r.Ok? && r.value.Keys == {ContentType})
            && (enableAuth ==>
                  (r.Ok? <==> AuthHeaders(server(AuthRequest(host, username)), username, password, hash).Ok?))
            && (enableAuth && r.Ok? ==> r.value.Keys == {ContentType, UserKey, TsKey, SaltKey, TokenKey})
            && (r.Ok? ==> r.value[ContentType] == "application/json")
  {
    if enableAuth {
      var a := AuthHeaders(server(AuthRequest(host, username)), username, password, hash);
      if a.Ok? {
        ExtendKeepsContentType(map[ContentType := "application/json"], a.value);
      }
    }
  }
}
