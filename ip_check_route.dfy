/**
 * The IP check route (`GET /api/ip-check`): the client address from the
 * forwarding headers, checked against two addresses configured in the
 * server's private environment.
 */
module IpCheckRoute {

  import opened Wrappers
  import Text
  import Json
  import Http

  /** `ALLOWED_IP_1` and `LOCAL_IP`, read from the private environment at build time. */
  datatype Environment = Environment(allowedIp1: string, localIp: string)

  function AllowedIps(env: Environment): seq<string>
  {
    [env.allowedIp1, env.localIp]
  }

  const FallbackIp := "127.0.0.1"

  /** A header value JavaScript treats as true: present and non-empty. */
  predicate Given(v: Option<string>) { v.Some? && v.value != [] }

  /**
   * `getClientIp`: the first hop of `x-forwarded-for`, trimmed; else
   * `x-real-ip` as it is; else the loopback address.
   */
  function ClientIp(forwardedFor: Option<string>, realIp: Option<string>): (r: string)
    ensures Given(forwardedFor) ==> ',' !in r && (r == [] || (!Text.IsJsWhitespace(r[0]) && !Text.IsJsWhitespace(r[|r| - 1])))
    ensures Given(forwardedFor) ==> r == Text.Trim(Text.BeforeFirst(forwardedFor.value, ','))
    ensures !Given(forwardedFor) && Given(realIp) ==> r == realIp.value
    ensures !Given(forwardedFor) && !Given(realIp) ==> r == FallbackIp
  {
    if Given(forwardedFor) then
      var hop := Text.BeforeFirst(forwardedFor.value, ',');
      Text.TrimIsInfix(hop);
      Text.Trim(hop)
    else if Given(realIp) then realIp.value
    else FallbackIp
  }

  /** With `x-forwarded-for: a, rest` the address is `a` trimmed, whatever `x-real-ip` says. */
  lemma {:induction false} FirstHopWins(a: string, rest: string, realIp: Option<string>)
    requires ',' !in a
    ensures ClientIp(Some(a + "," + rest), realIp) == Text.Trim(a)
  {
    FirstBeforeComma(a, rest);
  }

  /** A single-address `x-forwarded-for` header gives that address trimmed, whatever `x-real-ip` says. */
  lemma SingleHop(header: string, realIp: Option<string>)
    requires header != [] && ',' !in header
    ensures ClientIp(Some(header), realIp) == Text.Trim(header)
  {
    assert Text.BeforeFirst(header, ',') == header;
  }

  lemma {:induction false} FirstBeforeComma(a: string, rest: string)
    requires ',' !in a
    ensures Text.BeforeFirst(a + "," + rest, ',') == a
  {
    if a != [] {
      assert (a + "," + rest)[1..] == a[1..] + "," + rest;
      FirstBeforeComma(a[1..], rest);
      assert [a[0]] + a[1..] == a;
    }
  }

  /** `isIpAllowed`: membership in the two configured addresses. */
  predicate IsIpAllowed(ip: string, env: Environment)
  {
    ip in AllowedIps(env)
  }

  /** The answer of `GET`: whether the address is allowed and a fixed message; never the address itself. */
  function Get(forwardedFor: Option<string>, realIp: Option<string>, env: Environment): (r: Http.Response)
    ensures r.status == 200 && r.body.Object? && r.body.fields.Keys == {"allowed", "message"}
    ensures r.body.fields["allowed"] == Json.Bool(ClientIp(forwardedFor, realIp) == env.allowedIp1 ||
                                                  ClientIp(forwardedFor, realIp) == env.localIp)
    ensures r.body.fields["message"] == Json.Str("Accès autorisé") <==> r.body.fields["allowed"] == Json.Bool(true)
    ensures r.body.fields["message"] in {Json.Str("Accès autorisé"), Json.Str("Accès refusé")}
  {
    var allowed := IsIpAllowed(ClientIp(forwardedFor, realIp), env);
    Http.Response(200, Json.Object(map["allowed" := Json.Bool(allowed),
                                       "message" := Json.Str(if allowed then "Accès autorisé" else "Accès refusé")]))
  }
}
