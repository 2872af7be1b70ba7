/**
 * The Facebook events service: the events around a point, without the
 * undated ones, with defaults filled in, sorted by start date; four fixed
 * events when there is no token or anything fails; and a relative date.
 */
module FacebookEventsService {

  import opened Wrappers
  import Text
  import Seqs

  datatype PlaceLocation = PlaceLocation(city: Option<string>, country: Option<string>,
                                         latitude: Option<real>, longitude: Option<real>)

  datatype Place = Place(name: Option<string>, location: Option<PlaceLocation>)

  /** An event of the Graph API search; `cover` is the cover's `source`. */
  datatype FacebookEvent = FacebookEvent(
    id: string,
    name: string,
    description: Option<string>,
    startTime: string,
    endTime: Option<string>,
    place: Option<Place>,
    cover: Option<string>,
    attendingCount: Option<int>,
    interestedCount: Option<int>,
    category: Option<string>,
    ticketUri: Option<string>)

  /** An event as the dashboard shows it; dates are epoch milliseconds, distances kilometres. */
  datatype LocalEvent = LocalEvent(
    id: string,
    title: string,
    description: string,
    startDate: int,
    endDate: Option<int>,
    location: string,
    imageUrl: Option<string>,
    attendees: int,
    interested: int,
    category: string,
    ticketUrl: Option<string>,
    distance: Option<real>)

  const NoDescription := "Aucune description disponible"
  const NoPlace := "Lieu non spécifié"
  const DefaultCategory := "Événement"
  const DayMs := 86400000

  /** A string JavaScript treats as true: present and non-empty. */
  predicate Given(v: Option<string>) { v.Some? && v.value != [] }

  /** `v || fallback` on an optional string. */
  function OrDefault(v: Option<string>, fallback: string): (r: string)
    ensures Given(v) ==> r == v.value
    ensures !Given(v) ==> r == fallback
  {
    if Given(v) then v.value else fallback
  }

  /** The place's coordinates when both are present and non-zero, the test `transformEvent` makes. */
  function Coordinates(e: FacebookEvent): Option<(real, real)>
  {
    if e.place.Some? && e.place.value.location.Some? then
      var loc := e.place.value.location.value;
      if loc.latitude.Some? && loc.latitude.value != 0.0 && loc.longitude.Some? && loc.longitude.value != 0.0
      then Some((loc.latitude.value, loc.longitude.value))
      else None
    else None
  }

  /** `event.start_time` is truthy. */
  predicate HasStart(e: FacebookEvent) { e.startTime != [] }

  /**
   * `transformEvent`. `parseDate`
   * stands for `new Date(text).getTime()`, `distanceKm` for the haversine
   * distance from the user's point.
   */
  function TransformEvent(e: FacebookEvent, userLat: real, userLng: real, parseDate: string -> int,
                          distanceKm: (real, real, real, real) -> real): (r: LocalEvent)
    ensures r.id == e.id && r.title == e.name && r.startDate == parseDate(e.startTime)
    ensures r.endDate.Some? <==> Given(e.endTime)
    ensures r.description == OrDefault(e.description, NoDescription)
    ensures r.location == (if e.place.Some? then OrDefault(e.place.value.name, NoPlace) else NoPlace)
    ensures r.attendees == (if e.attendingCount.Some? then e.attendingCount.value else 0)
    ensures r.interested == (if e.interestedCount.Some? then e.interestedCount.value else 0)
    ensures r.category == OrDefault(e.category, DefaultCategory)
    ensures r.imageUrl == e.cover && r.ticketUrl == e.ticketUri
    ensures r.distance.Some? <==> Coordinates(e).Some?
    ensures r.distance.Some? ==>
              r.distance.value == distanceKm(userLat, userLng, Coordinates(e).value.0, Coordinates(e).value.1)
  {
    var coords := Coordinates(e);
    LocalEvent(
      e.id,
      e.name,
      OrDefault(e.description, NoDescription),
      parseDate(e.startTime),
      if Given(e.endTime) then Some(parseDate(e.endTime.value)) else None,
      if e.place.Some? then OrDefault(e.place.value.name, NoPlace) else NoPlace,
      e.cover,
      if e.attendingCount.Some? then e.attendingCount.value else 0,
      if e.interestedCount.Some? then e.interestedCount.value else 0,
      OrDefault(e.category, DefaultCategory),
      e.ticketUri,
      if coords.Some? then Some(distanceKm(userLat, userLng, coords.value.0, coords.value.1)) else None)
  }

  /** An event with no optional field gets every default. */
  lemma BareEventDefaults(id: string, name: string, start: string, userLat: real, userLng: real,
                          parseDate: string -> int, distanceKm: (real, real, real, real) -> real)
    ensures var r := TransformEvent(FacebookEvent(id, name, None, start, None, None, None, None, None, None, None),
                                    userLat, userLng, parseDate, distanceKm);
            r.description == "Aucune description disponible" && r.location == "Lieu non spécifié" &&
            r.attendees == 0 && r.interested == 0 && r.category == "Événement" &&
            r.endDate.None? && r.distance.None?
  {
  }

  /** A coordinate of exactly zero counts as missing: no distance. */
  lemma ZeroCoordinateNoDistance(e: FacebookEvent, userLat: real, userLng: real, parseDate: string -> int,
                                 distanceKm: (real, real, real, real) -> real)
    requires e.place.Some? && e.place.value.location.Some?
    requires e.place.value.location.value.latitude == Some(0.0) || e.place.value.location.value.longitude == Some(0.0)
    ensures TransformEvent(e, userLat, userLng, parseDate, distanceKm).distance.None?
  {
  }

  // ------------------------------------------------------------------ sorting

  function StartDate(e: LocalEvent): int { e.startDate }

  // ---------------------------------------------------------------- the feed

  /** The search request: any failure on the way (HTTP error, network, body), or the events it returned. */
  datatype Search = Failed | Received(data: seq<FacebookEvent>)

  /** The fixed events of `getMockEvents`, each starting at time 0 until it is moved to its day. */
  const Festival := LocalEvent("1", "Festival d'été de Québec", "Le plus grand festival de musique en plein air au Canada",
                               0, None, "Plains of Abraham, Québec",
                               Some("https://images.unsplash.com/photo-1493225457124-a3eb161ffa5f?w=400"),
                               1500, 3200, "Musique", None, Some(2.5))
  const Market := LocalEvent("2", "Marché du Vieux-Port", "Découvrez les produits locaux et artisanaux",
                             0, None, "Marché du Vieux-Port, Québec",
                             Some("https://images.unsplash.com/photo-1556909114-f6e7ad7d3136?w=400"),
                             45, 120, "Marché", None, Some(1.2))
  const Exhibition := LocalEvent("3", "Exposition d'Art Contemporain", "Découvrez les œuvres d'artistes québécois émergents",
                                 0, None, "Musée national des beaux-arts du Québec",
                                 Some("https://images.unsplash.com/photo-1541961017774-22349e4a1262?w=400"),
                                 89, 234, "Art", None, Some(3.8))
  const Race := LocalEvent("4", "Course à pied 5K", "Course matinale dans le parc de la Chute-Montmorency",
                           0, None, "Parc de la Chute-Montmorency",
                           Some("https://images.unsplash.com/photo-1571019613454-1cb2f99b2d8b?w=400"),
                           156, 289, "Sport", None, Some(8.5))

  /** `getMockEvents` at time `nowMs`: the four fixed events 2, 1, 3 and 5 days ahead. */
  function MockEvents(nowMs: int): (r: seq<LocalEvent>)
    ensures |r| == 4
    ensures r[0].startDate == nowMs + 2 * DayMs && r[1].startDate == nowMs + DayMs &&
            r[2].startDate == nowMs + 3 * DayMs && r[3].startDate == nowMs + 5 * DayMs
    ensures forall i :: 0 <= i < 4 ==> r[i].endDate.None? && r[i].ticketUrl.None? && r[i].distance.Some?
  {
    [Festival.(startDate := nowMs + 2 * DayMs), Market.(startDate := nowMs + DayMs),
     Exhibition.(startDate := nowMs + 3 * DayMs), Race.(startDate := nowMs + 5 * DayMs)]
  }

  /** The dated events of the search, transformed, in the order received. */
  function Dated(data: seq<FacebookEvent>, lat: real, lng: real, parseDate: string -> int,
                 distanceKm: (real, real, real, real) -> real): (r: seq<LocalEvent>)
    ensures |r| == |Seqs.Filter(data, HasStart)|
    ensures forall i :: 0 <= i < |r| ==>
              r[i] == TransformEvent(Seqs.Filter(data, HasStart)[i], lat, lng, parseDate, distanceKm)
  {
    Seqs.Map(Seqs.Filter(data, HasStart), (e: FacebookEvent) => TransformEvent(e, lat, lng, parseDate, distanceKm))
  }

  /** `getLocalEvents` at time `nowMs` for the point (`lat`, `lng`). */
  function GetLocalEvents(accessToken: string, search: Search, lat: real, lng: real, nowMs: int,
                          parseDate: string -> int, distanceKm: (real, real, real, real) -> real): (r: seq<LocalEvent>)
    ensures accessToken == [] || search.Failed? ==> r == MockEvents(nowMs)
    ensures accessToken != [] && search.Received? ==>
              Seqs.SortedBy(r, StartDate) &&
              multiset(r) == multiset(Dated(search.data, lat, lng, parseDate, distanceKm))
  {
    if accessToken == [] then MockEvents(nowMs)
    else match search
      case Failed => MockEvents(nowMs)
      case Received(data) => Seqs.SortBy(Dated(data, lat, lng, parseDate, distanceKm), StartDate)
  }

  /** Every event shown from the feed comes from a dated event of it, and as many are shown as are dated. */
  lemma ShownEventsAreDated(accessToken: string, data: seq<FacebookEvent>, lat: real, lng: real, nowMs: int,
                            parseDate: string -> int, distanceKm: (real, real, real, real) -> real)
    requires accessToken != []
    ensures |GetLocalEvents(accessToken, Received(data), lat, lng, nowMs, parseDate, distanceKm)| ==
              |Seqs.Filter(data, HasStart)|
    ensures forall x :: x in GetLocalEvents(accessToken, Received(data), lat, lng, nowMs, parseDate, distanceKm) ==>
              exists e :: e in data && HasStart(e) && x == TransformEvent(e, lat, lng, parseDate, distanceKm)
  {
    var dated := Seqs.Filter(data, HasStart);
    var mapped := Dated(data, lat, lng, parseDate, distanceKm);
    var r := GetLocalEvents(accessToken, Received(data), lat, lng, nowMs, parseDate, distanceKm);
    assert |r| == |multiset(r)| == |multiset(mapped)| == |mapped|;
    forall x | x in r
      ensures exists e :: e in data && HasStart(e) && x == TransformEvent(e, lat, lng, parseDate, distanceKm)
    {
      assert x in multiset(mapped);
      var i :| 0 <= i < |mapped| && mapped[i] == x;
      assert dated[i] in data;
    }
  }

  // ------------------------------------------------------------ the date text

  /**
   * `formatEventDate` at time `nowMs` for an event at `dateMs`; `localeDate`
   * is the `fr-CA` weekday, month and day rendering.
   */
  function FormatEventDate(nowMs: int, dateMs: int, localeDate: string): (r: string)
    ensures 0 <= dateMs - nowMs < DayMs ==> r == "Aujourd'hui"
    ensures DayMs <= dateMs - nowMs < 2 * DayMs ==> r == "Demain"
    ensures (2 * DayMs <= dateMs - nowMs < 7 * DayMs || dateMs < nowMs) ==>
              r == "Dans " + Text.IntToString((dateMs - nowMs) / DayMs) + " jours"
    ensures 7 * DayMs <= dateMs - nowMs ==> r == localeDate
  {
    var diffDays := (dateMs - nowMs) / DayMs;
    if diffDays == 0 then "Aujourd'hui"
    else if diffDays == 1 then "Demain"
    else if diffDays < 7 then "Dans " + Text.IntToString(diffDays) + " jours"
    else localeDate
  }

  /** A date in the past reads "Dans -n jours" with n at least 1. */
  lemma PastDateCountsNegativeDays(nowMs: int, dateMs: int, localeDate: string)
    requires dateMs < nowMs
    ensures (dateMs - nowMs) / DayMs <= -1
    ensures FormatEventDate(nowMs, dateMs, localeDate) == "Dans " + Text.IntToString((dateMs - nowMs) / DayMs) + " jours"
  {
  }

  /** Two to six whole days ahead read "Dans n jours". */
  lemma DaysAhead(nowMs: int, days: int, extraMs: int, localeDate: string)
    requires 2 <= days < 7 && 0 <= extraMs < DayMs
    ensures FormatEventDate(nowMs, nowMs + days * DayMs + extraMs, localeDate) ==
              "Dans " + Text.IntToString(days) + " jours"
  {
    assert (days * DayMs + extraMs) / DayMs == days;
  }
}
