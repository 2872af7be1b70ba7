/**
 * The client-side IP restriction: the caller's public address as an external
 * lookup service reports it, checked against a one-entry allow list. Any
 * failure of the lookup falls back on the allowed address itself.
 */
module IpRestrictionService {

  import opened Wrappers
  import Json

  const AllowedIps := ["198.58.233.16"]
  const FallbackIp := "198.58.233.16"

  /**
   * `ALLOWED_IPS.includes(ip)`. The lookup can hand over any JSON value, and
   * `includes` compares without conversion, so only a listed string matches.
   */
  predicate IsIpAllowed(ip: Json.Value)
  {
    ip.Str? && ip.s in AllowedIps
  }

  /** The one lookup: rejected, or fulfilled with the outcome of `response.json()`. */
  datatype Lookup = Rejected | Fulfilled(body: Result<Json.Value>)

  /**
   * `getClientIp`: `data.ip || data` from the lookup's JSON; anything that
   * throws on the way (no fulfilled lookup, a body that is not JSON, a `null`
   * body whose `ip` cannot be read) gives the fallback address.
   */
  function ClientIp(lookup: Lookup): (r: Json.Value)
    ensures lookup.Rejected? || lookup.body.Failure? || lookup.body.value.Null? ==> r == Json.Str(FallbackIp)
    ensures (lookup.Fulfilled? && lookup.body.Success? && Json.TruthyAccess(Json.Get(lookup.body.value, "ip"))) ==>
              r == lookup.body.value.fields["ip"]
    ensures (lookup.Fulfilled? && lookup.body.Success? && !lookup.body.value.Null? &&
             !Json.TruthyAccess(Json.Get(lookup.body.value, "ip"))) ==> r == lookup.body.value
  {
    match lookup
    case Rejected => Json.Str(FallbackIp)
    case Fulfilled(body) =>
      match body
      case Failure(_) => Json.Str(FallbackIp)
      case Success(data) =>
        var ip := Json.Get(data, "ip");
        if ip.Throws? then Json.Str(FallbackIp)
        else if Json.TruthyAccess(ip) then ip.value
        else data
  }

  /** `checkAccess`: the looked-up address against the allow list. */
  predicate CheckAccess(lookup: Lookup)
  {
    IsIpAllowed(ClientIp(lookup))
  }

  /** The allow list holds exactly one address. */
  lemma AllowedExactly(ip: string)
    ensures IsIpAllowed(Json.Str(ip)) <==> ip == "198.58.233.16"
  {
  }

  /** A failed lookup grants access: the fallback address is the allowed one. */
  lemma FailedLookupGrantsAccess(lookup: Lookup)
    requires lookup.Rejected? || lookup.body.Failure? || lookup.body.value.Null?
    ensures CheckAccess(lookup)
  {
  }

  /** A reply object without a usable `ip` is passed on whole, and an object is never allowed. */
  lemma ObjectWithoutIpDenied(fields: map<string, Json.Value>)
    requires "ip" !in fields || !Json.Truthy(fields["ip"])
    ensures !CheckAccess(Fulfilled(Success(Json.Object(fields))))
  {
  }

  /** A reply naming an address is checked on that address alone. */
  lemma ReportedAddressDecides(ip: string, others: map<string, Json.Value>)
    requires ip != []
    ensures CheckAccess(Fulfilled(Success(Json.Object(others["ip" := Json.Str(ip)])))) <==> ip == "198.58.233.16"
  {
  }
}
