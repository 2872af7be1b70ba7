/**
 * The client-side Communauto service: a single-slot cache of the last good
 * availability response, refreshed after 30 seconds, served stale when a
 * refresh fails, plus the radius and location filters built on top of it.
 */
module CommunautoService {

  import opened Wrappers
  import Text
  import Seqs

  /** Milliseconds during which a cached response is served without refetching. */
  const CacheDuration := 30000
  const ServiceBaseUrl := "/api/communauto"

  datatype Location = Location(latitude: real, longitude: real)

  datatype Vehicle = Vehicle(
    vehicleId: int,
    vehicleNb: int,
    cityId: int,
    vehiclePropulsionTypeId: int,
    vehicleTypeId: int,
    vehicleBodyTypeId: int,
    vehicleTransmissionTypeId: int,
    vehicleTireTypeId: int,
    vehicleAccessories: seq<int>,
    vehicleLocation: Option<Location>,
    satisfiesFilters: bool,
    energyLevelPercentage: Option<int>,
    displayZone: bool)

  datatype CachingInfo = CachingInfo(
    cachingDurationInSec: int,
    servedFromCache: bool,
    cachingExpirationUTCDate: Option<string>,
    hashCode: int)

  /** The `error` member a body may carry: none, a string, or a value of another type. */
  datatype ErrorField = NoError | StringError(message: string) | OtherError

  datatype CommunautoResponse = CommunautoResponse(
    totalNbVehicles: int,
    cachingInfo: CachingInfo,
    vehicles: seq<Vehicle>,
    error: ErrorField)

  /** What the request to the route produced: a rejection, or a status and the parsed body. */
  datatype FetchOutcome =
    | NetworkError(message: string)
    | Reply(status: int, parsed: Result<CommunautoResponse>)

  /** The request the service sends for a city. */
  function RequestUrl(cityId: int): string
  {
    ServiceBaseUrl + "?cityId=" + Text.IntToString(cityId)
  }

  /** The `try` block of a fetch: a usable response, or the message of the Error it throws. */
  function Attempt(outcome: FetchOutcome): (r: Result<CommunautoResponse>)
    ensures r.Success? <==>
              outcome.Reply? && 200 <= outcome.status <= 299 && outcome.parsed.Success? &&
              !outcome.parsed.value.error.StringError?
    ensures r.Success? ==> r == outcome.parsed
  {
    match outcome
    case NetworkError(m) => Failure(m)
    case Reply(status, parsed) =>
      if !(200 <= status <= 299) then Failure("Erreur HTTP: " + Text.IntToString(status))
      else match parsed
        case Failure(m) => Failure(m)
        case Success(data) => if data.error.StringError? then Failure(data.error.message) else Success(data)
  }

  /** The cache slot's contents: the last stored response and when it was fetched. */
  datatype Slot = Slot(cache: Option<CommunautoResponse>, lastFetch: int)

  predicate IsFresh(s: Slot, now: int)
  {
    s.cache.Some? && now - s.lastFetch < CacheDuration
  }

  /**
   * One `getVehicles` call on a slot: the result and the new slot. A fresh
   * slot answers alone; otherwise the fetch decides, and a failed fetch falls
   * back on whatever the slot holds, however old.
   */
  function Serve(s: Slot, now: int, outcome: FetchOutcome): (Result<CommunautoResponse>, Slot)
  {
    if IsFresh(s, now) then (Success(s.cache.value), s)
    else match Attempt(outcome)
      case Success(data) => (Success(data), Slot(Some(data), now))
      case Failure(m) => if s.cache.Some? then (Success(s.cache.value), s) else (Failure(m), s)
  }

  /** A call that does not fail returns exactly what the slot holds afterwards. */
  lemma ReturnedIsCached(s: Slot, now: int, outcome: FetchOutcome)
    ensures var (r, s') := Serve(s, now, outcome); r.Success? ==> s'.cache == Some(r.value)
  {
  }

  /** Only a fetch that succeeded changes the slot, and it records the call's own clock value. */
  lemma OnlySuccessWrites(s: Slot, now: int, outcome: FetchOutcome)
    ensures var (_, s') := Serve(s, now, outcome);
            s' == s || (!IsFresh(s, now) && Attempt(outcome).Success? && s' == Slot(Some(Attempt(outcome).value), now))
  {
  }

  /** A call sequence: the clock value and the fetch outcome of each call. */
  type Calls = seq<(int, FetchOutcome)>

  /** The results of the calls in order, and the final slot. */
  function ServeAll(s: Slot, calls: Calls): (seq<Result<CommunautoResponse>>, Slot)
    decreases |calls|
  {
    if calls == [] then ([], s)
    else
      var (r, s1) := Serve(s, calls[0].0, calls[0].1);
      var (rs, s2) := ServeAll(s1, calls[1..]);
      ([r] + rs, s2)
  }

  /** Nothing in the slot ever carries a string `error` member. */
  predicate NoErrorCached(s: Slot)
  {
    s.cache.Some? ==> !s.cache.value.error.StringError?
  }

  /** Once the slot has been filled, no later call fails and the slot never empties again. */
  lemma {:induction false} FilledNeverFails(s: Slot, calls: Calls)
    requires s.cache.Some?
    decreases |calls|
    ensures var (rs, s') := ServeAll(s, calls);
            |rs| == |calls| && s'.cache.Some? && forall i :: 0 <= i < |rs| ==> rs[i].Success?
  {
    if calls != [] {
      var (r, s1) := Serve(s, calls[0].0, calls[0].1);
      FilledNeverFails(s1, calls[1..]);
    }
  }

  /** A body with a string `error` member is never stored, whatever sequence of calls is made. */
  lemma {:induction false} ErrorBodiesNeverCached(s: Slot, calls: Calls)
    requires NoErrorCached(s)
    decreases |calls|
    ensures NoErrorCached(ServeAll(s, calls).1)
    ensures forall i :: 0 <= i < |ServeAll(s, calls).0| && ServeAll(s, calls).0[i].Success? ==>
              !ServeAll(s, calls).0[i].value.error.StringError?
  {
    if calls != [] {
      var (r, s1) := Serve(s, calls[0].0, calls[0].1);
      ErrorBodiesNeverCached(s1, calls[1..]);
      var (rs, s2) := ServeAll(s1, calls[1..]);
      assert ServeAll(s, calls).0 == [r] + rs;
    }
  }

  /**
   * After a successful refresh at time `t`, every call in the next 30 seconds
   * returns that response, whatever city it asks for and whatever a fetch would give.
   */
  lemma {:induction false} HitsWithinTtl(s: Slot, t: int, outcome: FetchOutcome, later: Calls)
    requires !IsFresh(s, t) && Attempt(outcome).Success?
    requires forall i :: 0 <= i < |later| ==> t <= later[i].0 < t + CacheDuration
    ensures var (_, s1) := Serve(s, t, outcome);
            var (rs, s2) := ServeAll(s1, later);
            s2 == s1 && forall i :: 0 <= i < |rs| ==> rs[i] == Attempt(outcome)
  {
    var (_, s1) := Serve(s, t, outcome);
    HitsFromFreshSlot(s1, later);
  }

  lemma {:induction false} HitsFromFreshSlot(s: Slot, later: Calls)
    requires s.cache.Some?
    requires forall i :: 0 <= i < |later| ==> s.lastFetch <= later[i].0 < s.lastFetch + CacheDuration
    ensures var (rs, s') := ServeAll(s, later);
            s' == s && |rs| == |later| && forall i :: 0 <= i < |rs| ==> rs[i] == Success(s.cache.value)
  {
    if later != [] {
      HitsFromFreshSlot(s, later[1..]);
    }
  }

  /** A vehicle with a location whose latitude and longitude are both non-zero (JavaScript truthiness). */
  predicate HasLocation(v: Vehicle)
  {
    v.vehicleLocation.Some? && v.vehicleLocation.value.latitude != 0.0 && v.vehicleLocation.value.longitude != 0.0
  }

  /** `distance` stands for `calculateDistance` (haversine); it is not modelled. */
  predicate WithinRadius(v: Vehicle, centerLat: real, centerLng: real, radiusKm: real,
                         distance: (real, real, real, real) -> real)
  {
    HasLocation(v) &&
    distance(centerLat, centerLng, v.vehicleLocation.value.latitude, v.vehicleLocation.value.longitude) <= radiusKm
  }

  /** The exact-radius post-filter of a bounding-box query. */
  function InRadius(vehicles: seq<Vehicle>, centerLat: real, centerLng: real, radiusKm: real,
                    distance: (real, real, real, real) -> real): (r: seq<Vehicle>)
    ensures Seqs.IsSubsequence(r, vehicles)
    ensures forall i :: 0 <= i < |r| ==>
              HasLocation(r[i]) &&
              distance(centerLat, centerLng, r[i].vehicleLocation.value.latitude, r[i].vehicleLocation.value.longitude) <= radiusKm
    ensures forall i :: 0 <= i < |vehicles| && WithinRadius(vehicles[i], centerLat, centerLng, radiusKm, distance) ==>
              vehicles[i] in r
    ensures forall v :: multiset(r)[v] ==
              if WithinRadius(v, centerLat, centerLng, radiusKm, distance) then multiset(vehicles)[v] else 0
  {
    Seqs.FilterMultiplicity(vehicles, v => WithinRadius(v, centerLat, centerLng, radiusKm, distance));
    Seqs.Filter(vehicles, v => WithinRadius(v, centerLat, centerLng, radiusKm, distance))
  }

  /** The vehicles that have a usable location, in the provider's order. */
  function WithLocation(vehicles: seq<Vehicle>): (r: seq<Vehicle>)
    ensures Seqs.IsSubsequence(r, vehicles)
    ensures forall i :: 0 <= i < |r| ==> HasLocation(r[i])
    ensures forall i :: 0 <= i < |vehicles| && HasLocation(vehicles[i]) ==> vehicles[i] in r
    ensures forall v :: multiset(r)[v] == if HasLocation(v) then multiset(vehicles)[v] else 0
  {
    Seqs.FilterMultiplicity(vehicles, HasLocation);
    Seqs.Filter(vehicles, HasLocation)
  }

  /** A vehicle at latitude or longitude exactly 0 is never in the radius, however close. */
  lemma ZeroCoordinateDropped(v: Vehicle, centerLat: real, centerLng: real, radiusKm: real,
                              distance: (real, real, real, real) -> real)
    requires v.vehicleLocation.Some? && (v.vehicleLocation.value.latitude == 0.0 || v.vehicleLocation.value.longitude == 0.0)
    ensures v !in InRadius([v], centerLat, centerLng, radiusKm, distance)
  {
  }

  datatype BoundingBox = BoundingBox(minLatitude: real, maxLatitude: real, minLongitude: real, maxLongitude: real)

  class Service {
    var cache: Option<CommunautoResponse>
    var lastFetch: int

    constructor ()
      ensures cache == None && lastFetch == 0
    {
      cache := None;
      lastFetch := 0;
    }

    function State(): Slot
      reads this
    {
      Slot(cache, lastFetch)
    }

    /**
     * `getVehicles(cityId)` at clock value `now`; `outcome` is what the
     * request would produce, and `request` is the request sent, if any.
     */
    method GetVehicles(now: int, cityId: int, outcome: FetchOutcome)
      returns (result: Result<CommunautoResponse>, request: Option<string>)
      modifies this
      ensures (result, State()) == Serve(old(State()), now, outcome)
      ensures IsFresh(old(State()), now) ==>
                result == Success(old(cache).value) && request == None && cache == old(cache) && lastFetch == old(lastFetch)
      ensures !IsFresh(old(State()), now) ==> request == Some(RequestUrl(cityId))
      ensures !IsFresh(old(State()), now) && Attempt(outcome).Success? ==>
                result == Attempt(outcome) && cache == Some(result.value) && lastFetch == now
      ensures !IsFresh(old(State()), now) && Attempt(outcome).Failure? ==>
                cache == old(cache) && lastFetch == old(lastFetch) &&
                result == if old(cache).Some? then Success(old(cache).value) else Attempt(outcome)
    {
      if cache.Some? && now - lastFetch < CacheDuration {
        return Success(cache.value), None;
      }
      request := Some(RequestUrl(cityId));
      var fetched := Attempt(outcome);
      match fetched {
        case Success(data) =>
          cache := Some(data);
          lastFetch := now;
          result := Success(data);
        case Failure(message) =>
          if cache.Some? {
            result := Success(cache.value);
          } else {
            result := Failure(message);
          }
      }
    }

    /** `getVehiclesInArea`: one fetch of the bounding box, never reading or writing the cache. */
    method GetVehiclesInArea(cityId: int, box: BoundingBox, outcome: FetchOutcome)
      returns (result: Result<CommunautoResponse>)
      ensures result.Success? <==> outcome.Reply? && 200 <= outcome.status <= 299 && outcome.parsed.Success? &&
                                   !outcome.parsed.value.error.StringError?
      ensures result.Success? ==> result == outcome.parsed
      ensures result == Attempt(outcome)
    {
      result := Attempt(outcome);
    }

    /**
     * `getVehiclesInRadius`: the area query for the box `boundingBox` gives
     * around the centre, then the exact-radius filter. `boundingBox` stands
     * for `calculateBoundingBox`.
     */
    method GetVehiclesInRadius(cityId: int, centerLat: real, centerLng: real, radiusKm: real,
                               outcome: FetchOutcome,
                               boundingBox: (real, real, real) -> BoundingBox,
                               distance: (real, real, real, real) -> real)
      returns (box: BoundingBox, result: Result<seq<Vehicle>>)
      ensures box == boundingBox(centerLat, centerLng, radiusKm)
      ensures result.Success? <==> Attempt(outcome).Success?
      ensures result.Success? ==> result.value == InRadius(Attempt(outcome).value.vehicles, centerLat, centerLng, radiusKm, distance)
      ensures result.Failure? ==> result.message == Attempt(outcome).message
    {
      box := boundingBox(centerLat, centerLng, radiusKm);
      var response := GetVehiclesInArea(cityId, box, outcome);
      match response {
        case Failure(m) => result := Failure(m);
        case Success(data) => result := Success(InRadius(data.vehicles, centerLat, centerLng, radiusKm, distance));
      }
    }

    /** `getVehiclesWithLocation`: `getVehicles`, then only the vehicles with a usable location. */
    method GetVehiclesWithLocation(now: int, cityId: int, outcome: FetchOutcome)
      returns (result: Result<seq<Vehicle>>, request: Option<string>)
      modifies this
      ensures var (r, s) := Serve(old(State()), now, outcome);
              State() == s && (result.Success? <==> r.Success?) &&
              (r.Success? ==> result.value == WithLocation(r.value.vehicles)) &&
              (r.Failure? ==> result.message == r.message)
    {
      var response;
      response, request := GetVehicles(now, cityId, outcome);
      match response {
        case Failure(m) => result := Failure(m);
        case Success(data) => result := Success(WithLocation(data.vehicles));
      }
    }

    /** `clearCache`: empties the slot, so the next `getVehicles` always fetches. */
    method ClearCache()
      modifies this
      ensures cache == None && lastFetch == 0
      ensures forall now :: !IsFresh(State(), now)
    {
      cache := None;
      lastFetch := 0;
    }
  }

  /** The cache is not keyed by city: a fill for one city answers a request for another. */
  method CityIsNotAKey(data: CommunautoResponse, t: int, other: FetchOutcome)
    returns (first: Result<CommunautoResponse>, second: Result<CommunautoResponse>)
    requires !data.error.StringError?
    ensures first == Success(data) && second == Success(data)
  {
    var service := new Service();
    var request;
    first, request := service.GetVehicles(t, 90, Reply(200, Success(data)));
    second, request := service.GetVehicles(t + CacheDuration - 1, 12, other);
    assert request == None;
  }
}
