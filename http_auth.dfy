/**
 * HTTP authentication for the ttyd and Wi-Se endpoints: a 401 answer is retried once,
 * with Basic or with Digest credentials (RFC 2617).
 *
 * MD5 is the uninterpreted function `H` (a string to its lower-case hex digest), the client
 * nonce is a parameter, and `client.Do` is the function `send` from a request to the
 * response it gets, `None` when the transport fails.
 */
module HttpAuth {
  import opened Text
  import opened Wrappers

  // ---------------------------------------------------------------------------------------
  // Parsing `WWW-Authenticate`

  /** The characters trimmed off keys and values. */
  const QuoteOrSpace: set<char> := {'"', ' '}

  /** One `key=value` segment, split at its first `=`, both halves trimmed. */
  function ParseParam(kv: string): (r: Option<(string, string)>)
    ensures r.None? <==> '=' !in kv
  {
    match Cut(kv, '=')
    case None => None
    case Some((k, v)) => Some((Trim(k, QuoteOrSpace), Trim(v, QuoteOrSpace)))
  }

  /** What a parameter gives: the key is the text before the first `=` and the value the text
   *  after it, each with its surrounding quotes and spaces removed. */
  lemma ParseParamPadded(pk: string, key: string, sk: string, pv: string, value: string, sv: string)
    requires '=' !in pk + key + sk
    requires AllIn(pk, QuoteOrSpace) && AllIn(sk, QuoteOrSpace)
    requires AllIn(pv, QuoteOrSpace) && AllIn(sv, QuoteOrSpace)
    requires key == [] || (key[0] !in QuoteOrSpace && key[|key| - 1] !in QuoteOrSpace)
    requires value == [] || (value[0] !in QuoteOrSpace && value[|value| - 1] !in QuoteOrSpace)
    ensures ParseParam(pk + key + sk + "=" + pv + value + sv) == Some((key, value))
  {
    var head, tail := pk + key + sk, pv + value + sv;
    assert pk + key + sk + "=" + pv + value + sv == head + ['='] + tail;
    CutAtFirst(head, '=', tail);
    TrimPadded(pk, key, sk, QuoteOrSpace);
    TrimPadded(pv, value, sv, QuoteOrSpace);
  }

  /** Each segment parsed on its own. */
  function Parsed(segs: seq<string>): (pairs: seq<Option<(string, string)>>)
    ensures |pairs| == |segs|
  {
    seq(|segs|, i requires 0 <= i < |segs| => ParseParam(segs[i]))
  }

  /** The map the first `n` parsed segments fill, in order, a later key overwriting an
   *  earlier one; a segment without `=` is skipped. */
  function Fill(pairs: seq<Option<(string, string)>>, n: nat): map<string, string>
    requires n <= |pairs|
  {
    if n == 0 then map[]
    else
      FillStep(Fill(pairs, n - 1), pairs[n - 1])
  }

  /** The map the first `n` segments fill, parsing each as it comes. */
  function ParamsUpTo(segs: seq<string>, n: nat): map<string, string>
    requires n <= |segs|
  {
    if n == 0 then map[] else FillStep(ParamsUpTo(segs, n - 1), ParseParam(segs[n - 1]))
  }

  /** The map all the segments fill. */
  function ParamsOf(segs: seq<string>): map<string, string>
  {
    ParamsUpTo(segs, |segs|)
  }

  /** Parsing as the segments come or all at once gives the same map. */
  lemma {:induction false} ParamsUpToIsFill(segs: seq<string>, n: nat)
    requires n <= |segs|
    ensures ParamsUpTo(segs, n) == Fill(Parsed(segs), n)
  {
    if n > 0 {
      ParamsUpToIsFill(segs, n - 1);
    }
  }

  /** `digestAuthParams` as a value: no map unless the header's first word is exactly
   *  `Digest` and a space follows it. */
  function DigestParams(header: string): (r: Option<map<string, string>>)
    ensures r.None? <==> Cut(header, ' ').None? || Cut(header, ' ').value.0 != "Digest"
  {
    match Cut(header, ' ')
    case None => None
    case Some((scheme, rest)) => if scheme != "Digest" then None else Some(ParamsOf(Split(rest, ',')))
  }

  /** `digestAuthParams`: splits the parameters at commas and fills the map. */
  method DigestAuthParams(header: string) returns (params: Option<map<string, string>>)
    ensures params == DigestParams(header)
  {
    var s := Cut(header, ' ');
    if s.None? || s.value.0 != "Digest" {
      return None;
    }
    var result := FillParams(Split(s.value.1, ','));
    return Some(result);
  }

  /** The loop of `digestAuthParams`, one segment at a time. */
  method FillParams(segs: seq<string>) returns (result: map<string, string>)
    ensures result == ParamsOf(segs)
  {
    result := map[];
    for i := 0 to |segs|
      invariant result == ParamsUpTo(segs, i)
    {
      var kv := ParseParam(segs[i]);
      if kv.Some? {
        result := result[kv.value.0 := kv.value.1];
      }
    }
  }

  /** One step of the loop: a parsed segment adds or overwrites its key. */
  function FillStep(m: map<string, string>, kv: Option<(string, string)>): map<string, string>
  {
    match kv
    case None => m
    case Some((k, v)) => m[k := v]
  }

  /** A parsed segment that sets the given key. */
  predicate SetsKey(pair: Option<(string, string)>, k: string) {
    pair.Some? && pair.value.0 == k
  }

  /** Every key in the map comes from a segment that sets it. */
  lemma {:induction false} ParamSource(pairs: seq<Option<(string, string)>>, n: nat, k: string) returns (j: nat)
    requires n <= |pairs| && k in Fill(pairs, n)
    ensures j < n && SetsKey(pairs[j], k)
  {
    if SetsKey(pairs[n - 1], k) {
      j := n - 1;
    } else {
      j := ParamSource(pairs, n - 1, k);
    }
  }

  /** Every key a segment sets is in the map. */
  lemma {:induction false} ParamKept(pairs: seq<Option<(string, string)>>, n: nat, j: nat, k: string)
    requires j < n <= |pairs| && SetsKey(pairs[j], k)
    ensures k in Fill(pairs, n)
  {
    if j < n - 1 {
      ParamKept(pairs, n - 1, j, k);
    }
  }

  /** The last segment that names a key decides its value. */
  lemma {:induction false} LastParamWins(pairs: seq<Option<(string, string)>>, n: nat, j: nat, k: string, v: string)
    requires j < n <= |pairs| && pairs[j] == Some((k, v))
    requires forall i :: j < i < n ==> !SetsKey(pairs[i], k)
    ensures k in Fill(pairs, n) && Fill(pairs, n)[k] == v
  {
    if j < n - 1 {
      LastParamWins(pairs, n - 1, j, k, v);
    }
  }

  /** Together, for the header's segments: a key is in the map exactly when some segment
   *  sets it, and the last such segment gives its value. */
  lemma ParamsOfSegments(segs: seq<string>, k: string)
    ensures k in ParamsOf(segs) <==> exists j :: 0 <= j < |segs| && SetsKey(ParseParam(segs[j]), k)
  {
    var pairs := Parsed(segs);
    ParamsUpToIsFill(segs, |segs|);
    if k in ParamsOf(segs) {
      var j := ParamSource(pairs, |segs|, k);
      assert SetsKey(ParseParam(segs[j]), k);
    }
    if j :| 0 <= j < |segs| && SetsKey(ParseParam(segs[j]), k) {
      assert SetsKey(pairs[j], k);
      ParamKept(pairs, |segs|, j, k);
    }
  }

  /** A Go map read: the value, or "" for a missing key. */
  function Lookup(m: map<string, string>, k: string): (r: string)
    ensures k !in m ==> r == ""
    ensures k in m ==> r == m[k]
  {
    if k in m then m[k] else ""
  }

  // ---------------------------------------------------------------------------------------
  // Digest state and the RFC 2617 computations

  /** `Nc` is an `int16`. */
  newtype int16 = x: int | -0x8000 <= x < 0x8000

  /** `d.Nc += 1` on an `int16`: 32767 wraps to -32768. */
  function Int16Inc(x: int16): (r: int16)
    ensures x < 0x7fff ==> r as int == x as int + 1
    ensures x == 0x7fff ==> r == -0x8000
  {
    if x == 0x7fff then -0x8000 else x + 1
  }

  /** `%08x` of an `int16`: at least eight hex digits, or a minus sign and seven. */
  function NcHex(x: int16): (r: string)
    ensures |r| >= 8
    ensures x >= 0 ==> AllHexDigits(r)
    ensures x < 0 ==> r[0] == '-' && AllHexDigits(r[1..])
  {
    if x >= 0 then ZeroPad(NatToHex(x as nat), 8) else "-" + ZeroPad(NatToHex(-(x as int)), 7)
  }

  /** The `nc` field spells the counter itself: read back as hexadecimal, sign included, it
   *  gives the count, so distinct counts are never sent under the same `nc`. */
  lemma NcHexRoundTrip(x: int16)
    ensures ParseHex(NcHex(x)) == Some(x as int)
  {
    var m: nat := if x >= 0 then x as nat else -(x as int);
    var p := ZeroPad(NatToHex(m), if x >= 0 then 8 else 7);
    NatHexRoundTrip(m);
    ZeroPadHex(NatToHex(m), if x >= 0 then 8 else 7);
    if x >= 0 {
      ParseHexDigits(p);
    } else {
      var r := NcHex(x);
      assert r[1..] == p;
      ParseHexNegated(r);
    }
  }

  /** The values of `DigestHeaders`. */
  datatype Digest = Digest(
    realm: string, qop: string, httpMethod: string, nonce: string, opaqueData: string,
    algorithm: string, ha1: string, ha2: string, cnonce: string, path: string,
    nc: int16, username: string, password: string)

  /** A1 for "MD5" (section 3.2.2.2 of RFC 2617). */
  function A1(username: string, realm: string, password: string): string {
    username + ":" + realm + ":" + password
  }

  /** A2 for qop "auth" or none (section 3.2.2.3 of RFC 2617). */
  function A2(verb: string, uri: string): string {
    verb + ":" + uri
  }

  /** KD(secret, data) of section 3.2.1 of RFC 2617. */
  function KD(H: string -> string, secret: string, data: string): string {
    H(secret + ":" + data)
  }

  /** H(A1), with the "MD5-sess" form of A1 (section 3.2.2.2 of RFC 2617). */
  function SessionHA1(H: string -> string, d: Digest): string {
    H(H(A1(d.username, d.realm, d.password)) + ":" + d.nonce + ":" + d.cnonce)
  }

  /** request-digest when qop is present (section 3.2.2.1 of RFC 2617), from H(A1). */
  function RequestDigest(H: string -> string, ha1: string, d: Digest): string {
    KD(H, ha1, d.nonce + ":" + NcHex(d.nc) + ":" + d.cnonce + ":" + d.qop + ":" + H(A2(d.httpMethod, d.path)))
  }

  /** `digestChecksum`: HA1 and HA2 for "MD5" and "MD5-sess"; any other algorithm leaves them. */
  function Checksum(d: Digest, H: string -> string): Digest
  {
    if d.algorithm == "MD5" then
      d.(ha1 := H(d.username + ":" + d.realm + ":" + d.password), ha2 := H(d.httpMethod + ":" + d.path))
    else if d.algorithm == "MD5-sess" then
      var haPre := H(d.username + ":" + d.realm + ":" + d.password);
      d.(ha1 := H(haPre + ":" + d.nonce + ":" + d.cnonce), ha2 := H(d.httpMethod + ":" + d.path))
    else d
  }

  /** The checksum changes nothing but HA1 and HA2, and computes them as RFC 2617 does. */
  lemma ChecksumFollowsRfc(d: Digest, H: string -> string)
    ensures Checksum(d, H).(ha1 := d.ha1, ha2 := d.ha2) == d
    ensures d.algorithm == "MD5" ==>
      Checksum(d, H).ha1 == H(A1(d.username, d.realm, d.password)) &&
      Checksum(d, H).ha2 == H(A2(d.httpMethod, d.path))
    ensures d.algorithm == "MD5-sess" ==>
      Checksum(d, H).ha1 == SessionHA1(H, d) && Checksum(d, H).ha2 == H(A2(d.httpMethod, d.path))
    ensures d.algorithm != "MD5" && d.algorithm != "MD5-sess" ==> Checksum(d, H) == d
  {
  }

  /** The `, opaque="…"` clause, present only for a non-empty opaque value. */
  function OpaqueClause(opaqueData: string): (r: string)
    ensures r == "" <==> opaqueData == ""
    ensures r != "" ==> r == ", opaque=\"" + opaqueData + "\""
  {
    if opaqueData != "" then ", opaque=\"" + opaqueData + "\"" else ""
  }

  /** The `Authorization` value `ApplyAuth` sets. */
  function AuthHeader(d: Digest, response: string): string
  {
    "Digest username=\"" + d.username + "\", realm=\"" + d.realm + "\", nonce=\"" + d.nonce +
    "\", uri=\"" + d.path + "\", cnonce=\"" + d.cnonce + "\", nc=" + NcHex(d.nc) +
    ", qop=" + d.qop + ", response=\"" + response + "\", algorithm=" + d.algorithm +
    OpaqueClause(d.opaqueData)
  }

  /** `ApplyAuth` as a value: the new state and the header. */
  function Applied(d: Digest, H: string -> string, cnonce: string, verb: string, uri: string): (Digest, string)
  {
    var d1 := Checksum(d.(nc := Int16Inc(d.nc), cnonce := cnonce, httpMethod := verb, path := uri), H);
    var response := H(Join([d1.ha1, d1.nonce, NcHex(d1.nc), d1.cnonce, d1.qop, d1.ha2], ':'));
    (d1, AuthHeader(d1, response))
  }

  lemma JoinSix(a: string, b: string, c: string, d: string, e: string, f: string)
    ensures Join([a, b, c, d, e, f], ':') == a + ":" + (b + ":" + c + ":" + d + ":" + e + ":" + f)
  {
    assert [a, b, c, d, e, f][1..] == [b, c, d, e, f];
    assert [b, c, d, e, f][1..] == [c, d, e, f];
    assert [c, d, e, f][1..] == [d, e, f];
    assert [d, e, f][1..] == [e, f];
    assert [e, f][1..] == [f];
    assert Join([f], ':') == f;
    var j2 := Join([e, f], ':');
    assert j2 == e + [':'] + Join([f], ':');
    assert j2 == e + ":" + f;
    var j3 := Join([d, e, f], ':');
    assert j3 == d + ":" + j2;
    assert j3 == d + ":" + e + ":" + f;
    var j4 := Join([c, d, e, f], ':');
    assert j4 == c + ":" + j3;
    assert j4 == c + ":" + d + ":" + e + ":" + f;
    var j5 := Join([b, c, d, e, f], ':');
    assert j5 == b + ":" + j4;
    assert j5 == b + ":" + c + ":" + d + ":" + e + ":" + f;
  }

  /** The response `ApplyAuth` sends is RFC 2617's request-digest for both MD5 algorithms. */
  lemma AppliedResponseIsRequestDigest(d: Digest, H: string -> string, cnonce: string, verb: string, uri: string)
    requires d.algorithm == "MD5" || d.algorithm == "MD5-sess"
    ensures var (d1, header) := Applied(d, H, cnonce, verb, uri);
      var ha1 := if d.algorithm == "MD5" then H(A1(d.username, d.realm, d.password)) else SessionHA1(H, d1);
      header == AuthHeader(d1, RequestDigest(H, ha1, d1))
  {
    var d0 := d.(nc := Int16Inc(d.nc), cnonce := cnonce, httpMethod := verb, path := uri);
    var d1 := Checksum(d0, H);
    ChecksumFollowsRfc(d0, H);
    JoinSix(d1.ha1, d1.nonce, NcHex(d1.nc), d1.cnonce, d1.qop, d1.ha2);
  }

  /** `ApplyAuth` counts requests: the counter goes up by one, and the nonce, path and method
   *  of the request are recorded; only HA1 and HA2 change besides. */
  lemma AppliedState(d: Digest, H: string -> string, cnonce: string, verb: string, uri: string)
    ensures var d1 := Applied(d, H, cnonce, verb, uri).0;
      d1.nc == Int16Inc(d.nc) && d1.cnonce == cnonce && d1.httpMethod == verb && d1.path == uri &&
      d1.(ha1 := d.ha1, ha2 := d.ha2, nc := d.nc, cnonce := d.cnonce, httpMethod := d.httpMethod, path := d.path) == d
  {
    ChecksumFollowsRfc(d.(nc := Int16Inc(d.nc), cnonce := cnonce, httpMethod := verb, path := uri), H);
  }

  /** A fresh counter gives nc=00000001 on the first request. */
  lemma FirstNonceCount()
    ensures Int16Inc(0) == 1 && NcHex(1) == "00000001"
  {
    assert NatToHex(1) == "1";
    assert ZeroPad("1", 8) == seq(7, _ => '0') + "1";
  }

  class DigestHeaders {
    var realm: string
    var qop: string
    var httpMethod: string
    var nonce: string
    var opaqueData: string
    var algorithm: string
    var ha1: string
    var ha2: string
    var cnonce: string
    var path: string
    var nc: int16
    var username: string
    var password: string

    function State(): Digest
      reads this
    {
      Digest(realm, qop, httpMethod, nonce, opaqueData, algorithm, ha1, ha2, cnonce, path, nc, username, password)
    }

    /** The headers `EnsureAuth` fills from the server's parameters and the credentials; a
     *  missing or empty algorithm means "MD5". */
    constructor(params: map<string, string>, uri: string, username: string, password: string)
      ensures State() == InitialDigest(params, uri, username, password)
    {
      path := uri;
      realm := Lookup(params, "realm");
      qop := Lookup(params, "qop");
      nonce := Lookup(params, "nonce");
      opaqueData := Lookup(params, "opaque");
      algorithm := if Lookup(params, "algorithm") == "" then "MD5" else Lookup(params, "algorithm");
      nc := 0;
      this.username := username;
      this.password := password;
      httpMethod := "";
      ha1 := "";
      ha2 := "";
      cnonce := "";
    }

    method DigestChecksum(H: string -> string)
      modifies this
      ensures State() == Checksum(old(State()), H)
    {
      if algorithm == "MD5" {
        ha1 := H(username + ":" + realm + ":" + password);
        ha2 := H(httpMethod + ":" + path);
      } else if algorithm == "MD5-sess" {
        var haPre := H(username + ":" + realm + ":" + password);
        ha1 := H(haPre + ":" + nonce + ":" + cnonce);
        ha2 := H(httpMethod + ":" + path);
      }
    }

    method ApplyAuth(H: string -> string, newCnonce: string, reqMethod: string, uri: string) returns (header: string)
      modifies this
      ensures (State(), header) == Applied(old(State()), H, newCnonce, reqMethod, uri)
    {
      ghost var counted := old(State()).(nc := Int16Inc(nc), cnonce := newCnonce, httpMethod := reqMethod, path := uri);
      nc := Int16Inc(nc);
      cnonce := newCnonce;
      httpMethod := reqMethod;
      path := uri;
      assert State() == counted;
      DigestChecksum(H);
      assert State() == Applied(old(State()), H, newCnonce, reqMethod, uri).0;
      var response := H(Join([ha1, nonce, NcHex(nc), cnonce, qop, ha2], ':'));
      header := AuthHeader(State(), response);
    }
  }

  function InitialDigest(params: map<string, string>, uri: string, username: string, password: string): (d: Digest)
    ensures d.algorithm != ""
    ensures d.nc == 0
    ensures d.algorithm == "MD5" <==> "algorithm" !in params || params["algorithm"] in {"", "MD5"}
  {
    var alg := Lookup(params, "algorithm");
    Digest(Lookup(params, "realm"), Lookup(params, "qop"), "", Lookup(params, "nonce"),
           Lookup(params, "opaque"), if alg == "" then "MD5" else alg, "", "", "", uri, 0, username, password)
  }

  // ---------------------------------------------------------------------------------------
  // EnsureAuth

  /** `url.Userinfo`: a user name and a password that may be unset. */
  datatype Credentials = Credentials(username: string, password: Option<string>)

  /** An HTTP request: method, URL, the user info in the URL, and the Authorization header. */
  datatype Request = Request(httpMethod: string, url: string, requestUri: string, user: Option<Credentials>, authorization: Option<string>)

  /** A response: its status, its `WWW-Authenticate` header and the request it answers. */
  datatype Response = Response(status: int, wwwAuthenticate: string, request: Request)

  datatype AuthError = NoCredentials | NoPassword | NoDigestParams | Unauthorized(status: int) | TransportFailed

  datatype AuthResult =
    | Passed(resp: Response)
    | Rejected(err: AuthError, partial: Option<Response>)
    | NilResponse   // a failed retry leaves `outResp` nil and reading its status panics

  /** What `EnsureAuth` does with the first response: finish, or retry with a request. */
  datatype Decision = Done(result: AuthResult) | Retry(request: Request)

  /** Basic is chosen when the lower-cased header starts with "basic". */
  predicate IsBasic(header: string) {
    HasPrefix(ToLower(header), "basic")
  }

  /** The retry for Basic: a copy of the original request. The credentials go into a copy of
   *  the URL that is never used, so the retry carries none. */
  function BasicRetry(resp: Response, auth: Credentials): Request {
    Request(resp.request.httpMethod, resp.request.url, resp.request.requestUri, resp.request.user, resp.request.authorization)
  }

  /** The retry the Basic branch evidently means to send: the URL with the credentials. */
  function BasicRetryIntended(resp: Response, auth: Credentials): Request {
    resp.request.(user := Some(auth))
  }

  /** The Digest retry: the original request with the Authorization header `ApplyAuth` computes. */
  function DigestRetry(resp: Response, params: map<string, string>, auth: Credentials, H: string -> string, cnonce: string): Request
    requires auth.password.Some?
  {
    var d := InitialDigest(params, resp.request.requestUri, auth.username, auth.password.value);
    var header := Applied(d, H, cnonce, resp.request.httpMethod, resp.request.requestUri).1;
    resp.request.(authorization := Some(header))
  }

  function Decide(resp: Response, auth: Option<Credentials>, H: string -> string, cnonce: string): Decision
  {
    if resp.status != 401 then Done(Passed(resp))
    else if auth.None? then Done(Rejected(NoCredentials, None))
    else if auth.value.password.None? then Done(Rejected(NoPassword, None))
    else if IsBasic(resp.wwwAuthenticate) then Retry(BasicRetry(resp, auth.value))
    else match DigestParams(resp.wwwAuthenticate)
      case None => Done(Rejected(NoDigestParams, None))
      case Some(params) => Retry(DigestRetry(resp, params, auth.value, H, cnonce))
  }

  /** The retry's outcome: a status of 400 or more is an error, returned with the response. */
  function Finish(reply: Option<Response>): (r: AuthResult)
  {
    match reply
    case None => NilResponse
    case Some(out) => if out.status >= 400 then Rejected(Unauthorized(out.status), Some(out)) else Passed(out)
  }

  /** The corrected outcome of a failed retry: the transport's failure, not a panic. */
  function FinishIntended(reply: Option<Response>): (r: AuthResult)
    ensures r != NilResponse
    ensures reply.None? ==> r == Rejected(TransportFailed, None)
    ensures reply.Some? ==> r == Finish(reply)
  {
    match reply
    case None => Rejected(TransportFailed, None)
    case Some(out) => Finish(reply)
  }

  /** A response that is not 401 passes unchanged; a 401 without credentials or without a
   *  password is an error and nothing is retried. */
  lemma DecideWithoutRetry(resp: Response, auth: Option<Credentials>, H: string -> string, cnonce: string)
    ensures resp.status != 401 ==> Decide(resp, auth, H, cnonce) == Done(Passed(resp))
    ensures resp.status == 401 && auth.None? ==> Decide(resp, auth, H, cnonce).Done? && Decide(resp, auth, H, cnonce).result.Rejected?
    ensures resp.status == 401 && auth.Some? && auth.value.password.None? ==>
      Decide(resp, auth, H, cnonce) == Done(Rejected(NoPassword, None))
    ensures Decide(resp, auth, H, cnonce).Done? && resp.status == 401 ==> Decide(resp, auth, H, cnonce).result.Rejected?
  {
  }

  /** The scheme choice: Basic exactly when the header starts with "basic" in any case, and a
   *  Digest retry carries the computed Authorization header. */
  lemma DecideScheme(resp: Response, auth: Credentials, H: string -> string, cnonce: string)
    requires resp.status == 401 && auth.password.Some?
    ensures IsBasic(resp.wwwAuthenticate) ==> Decide(resp, Some(auth), H, cnonce) == Retry(BasicRetry(resp, auth))
    ensures !IsBasic(resp.wwwAuthenticate) ==>
      (Decide(resp, Some(auth), H, cnonce).Retry? <==> DigestParams(resp.wwwAuthenticate).Some?)
    ensures !IsBasic(resp.wwwAuthenticate) && Decide(resp, Some(auth), H, cnonce).Retry? ==>
      Decide(resp, Some(auth), H, cnonce).request.authorization.Some? &&
      Decide(resp, Some(auth), H, cnonce).request.(authorization := resp.request.authorization) == resp.request
  {
  }

  /** As written, the Basic retry is the very request that was refused. */
  lemma BasicRetryCarriesNoCredentials(resp: Response, auth: Credentials)
    ensures BasicRetry(resp, auth) == resp.request
  {
  }

  /** The intended Basic retry carries the credentials in its URL. */
  lemma BasicRetryIntendedCarriesCredentials(resp: Response, auth: Credentials)
    ensures BasicRetryIntended(resp, auth).user == Some(auth)
    ensures BasicRetryIntended(resp, auth).(user := resp.request.user) == resp.request
  {
  }

  /** A retry that reaches the server is an error exactly when its status is 400 or more; one
   *  that does not reach it panics as written. */
  lemma FinishOutcomes(reply: Option<Response>)
    ensures Finish(reply) == NilResponse <==> reply.None?
    ensures reply.Some? ==> (Finish(reply).Passed? <==> reply.value.status < 400)
    ensures reply.Some? && Finish(reply).Passed? ==> Finish(reply).resp == reply.value
  {
  }

  /** `EnsureAuth`, with `client.Do` as `send`: builds the Digest headers in a fresh object and
   *  retries at most once. */
  method EnsureAuth(resp: Response, auth: Option<Credentials>, H: string -> string, cnonce: string,
                    send: Request -> Option<Response>)
    returns (result: AuthResult, sent: Option<Request>)
    ensures Decide(resp, auth, H, cnonce).Done? ==> sent.None? && result == Decide(resp, auth, H, cnonce).result
    ensures Decide(resp, auth, H, cnonce).Retry? ==>
      sent == Some(Decide(resp, auth, H, cnonce).request) && result == Finish(send(sent.value))
  {
    if resp.status != 401 {
      return Passed(resp), None;
    }
    if auth.None? {
      return Rejected(NoCredentials, None), None;
    }
    if auth.value.password.None? {
      return Rejected(NoPassword, None), None;
    }
    var req: Request;
    if IsBasic(resp.wwwAuthenticate) {
      req := BasicRetry(resp, auth.value);
    } else {
      var params := DigestAuthParams(resp.wwwAuthenticate);
      if params.None? {
        return Rejected(NoDigestParams, None), None;
      }
      var d := new DigestHeaders(params.value, resp.request.requestUri, auth.value.username, auth.value.password.value);
      var header := d.ApplyAuth(H, cnonce, resp.request.httpMethod, resp.request.requestUri);
      req := resp.request.(authorization := Some(header));
    }
    sent := Some(req);
    result := Finish(send(req));
  }
}
