/**
 * The provider URL every Communauto route handler builds from its own query
 * string: the city (default "90") and up to four bounding-box parameters,
 * inserted verbatim, in a fixed order, each only when non-empty.
 */
module ProviderUrl {

  import opened Wrappers
  import Text

  const Endpoint := "https://restapifrontoffice.reservauto.net/api/v2/Vehicle/FreeFloatingAvailability"
  const DefaultCityId := "90"

  /** A decoded query string: its name/value pairs in order. */
  type Query = seq<(string, string)>

  /** `url.searchParams.get(name)`: the first value given for `name`. */
  function SearchParam(q: Query, name: string): (r: Option<string>)
    ensures r.Some? <==> exists i :: 0 <= i < |q| && q[i].0 == name
    ensures r.Some? ==> exists i :: 0 <= i < |q| && q[i] == (name, r.value) && forall j :: 0 <= j < i ==> q[j].0 != name
  {
    if q == [] then None
    else if q[0].0 == name then Some(q[0].1)
    else
      var r := SearchParam(q[1..], name);
      assert r.Some? ==> exists i :: 0 <= i < |q[1..]| && q[1..][i] == (name, r.value) && forall j :: 0 <= j < i ==> q[1..][j].0 != name;
      r
  }

  /** JavaScript truthiness of a `get` result: present and non-empty. */
  predicate Given(v: Option<string>) { v.Some? && v.value != [] }

  /** `url.searchParams.get('cityId') || '90'`. */
  function CityId(q: Query): string
  {
    var v := SearchParam(q, "cityId");
    if Given(v) then v.value else DefaultCityId
  }

  /** The four optional bounding-box parameters, as read from the query. */
  datatype GeoBounds = GeoBounds(
    maxLatitude: Option<string>,
    minLatitude: Option<string>,
    maxLongitude: Option<string>,
    minLongitude: Option<string>)

  function Bounds(q: Query): GeoBounds
  {
    GeoBounds(SearchParam(q, "MaxLatitude"), SearchParam(q, "MinLatitude"),
              SearchParam(q, "MaxLongitude"), SearchParam(q, "MinLongitude"))
  }

  predicate AnyGiven(g: GeoBounds)
  {
    Given(g.maxLatitude) || Given(g.minLatitude) || Given(g.maxLongitude) || Given(g.minLongitude)
  }

  /** `&Name=value` when the value is given, nothing otherwise. */
  function Pair(name: string, v: Option<string>): string
  {
    if Given(v) then "&" + name + "=" + v.value else ""
  }

  /**
   * The URL, read as the base followed by one `&Name=value` per given
   * parameter, in the order MaxLatitude, MinLatitude, MaxLongitude, MinLongitude.
   */
  function Url(cityId: string, g: GeoBounds): string
  {
    Endpoint + "?CityId=" + cityId + GeoSuffix(g)
  }

  function GeoSuffix(g: GeoBounds): string
  {
    Pair("MaxLatitude", g.maxLatitude) + Pair("MinLatitude", g.minLatitude) +
    Pair("MaxLongitude", g.maxLongitude) + Pair("MinLongitude", g.minLongitude)
  }

  /** Appends `Name=value` to the list when the value is given (`if (v) geoParams.push(...)`). */
  function PushIfGiven(ps: seq<string>, name: string, v: Option<string>): (r: seq<string>)
  {
    if Given(v) then ps + [name + "=" + v.value] else ps
  }

  /**
   * The handlers' construction: the base URL, then `&` and the `&`-joined
   * parameter list, but only when the list is not empty.
   */
  method BuildApiUrl(cityId: string, g: GeoBounds) returns (apiUrl: string)
    ensures apiUrl == Url(cityId, g)
    ensures !AnyGiven(g) ==> apiUrl == Endpoint + "?CityId=" + cityId
  {
    apiUrl := Endpoint + "?CityId=" + cityId;
    var geoParams: seq<string> := [];
    geoParams := PushIfGiven(geoParams, "MaxLatitude", g.maxLatitude);
    geoParams := PushIfGiven(geoParams, "MinLatitude", g.minLatitude);
    geoParams := PushIfGiven(geoParams, "MaxLongitude", g.maxLongitude);
    geoParams := PushIfGiven(geoParams, "MinLongitude", g.minLongitude);
    PairsArePrefixed(g);
    assert Text.PrefixEach(geoParams, "&") == GeoSuffix(g);
    if |geoParams| > 0 {
      Text.JoinPrefixed(geoParams, "&");
      ghost var base := apiUrl;
      apiUrl := apiUrl + "&" + Text.Join(geoParams, "&");
      assert apiUrl == base + ("&" + Text.Join(geoParams, "&"));
    } else {
      assert GeoSuffix(g) == [];
    }
  }

  /** The pushed list, each entry prefixed by `&`, is the concatenation of the pairs. */
  lemma PairsArePrefixed(g: GeoBounds)
    ensures var ps := PushIfGiven(PushIfGiven(PushIfGiven(PushIfGiven([], "MaxLatitude", g.maxLatitude),
                        "MinLatitude", g.minLatitude), "MaxLongitude", g.maxLongitude), "MinLongitude", g.minLongitude);
            Text.PrefixEach(ps, "&") == GeoSuffix(g) && (ps == [] <==> !AnyGiven(g))
  {
    var p1 := PushIfGiven([], "MaxLatitude", g.maxLatitude);
    var p2 := PushIfGiven(p1, "MinLatitude", g.minLatitude);
    var p3 := PushIfGiven(p2, "MaxLongitude", g.maxLongitude);
    var p4 := PushIfGiven(p3, "MinLongitude", g.minLongitude);
    assert Text.PrefixEach(p1, "&") == Pair("MaxLatitude", g.maxLatitude);
    PrefixEachPush(p1, "MinLatitude", g.minLatitude);
    PrefixEachPush(p2, "MaxLongitude", g.maxLongitude);
    PrefixEachPush(p3, "MinLongitude", g.minLongitude);
  }

  lemma PrefixEachPush(ps: seq<string>, name: string, v: Option<string>)
    ensures Text.PrefixEach(PushIfGiven(ps, name, v), "&") == Text.PrefixEach(ps, "&") + Pair(name, v)
  {
    if Given(v) {
      PrefixEachAppend(ps, name + "=" + v.value, "&");
    }
  }

  lemma {:induction false} PrefixEachAppend(ps: seq<string>, p: string, sep: string)
    ensures Text.PrefixEach(ps + [p], sep) == Text.PrefixEach(ps, sep) + sep + p
  {
    if ps == [] {
      assert ps + [p] == [p];
    } else {
      assert (ps + [p])[1..] == ps[1..] + [p];
      PrefixEachAppend(ps[1..], p, sep);
    }
  }

  /** A missing or empty `cityId` becomes "90"; any other value is used as given. */
  lemma CityIdDefault(q: Query)
    ensures CityId(q) == DefaultCityId <==> !Given(SearchParam(q, "cityId")) || SearchParam(q, "cityId").value == "90"
    ensures Given(SearchParam(q, "cityId")) ==> CityId(q) == SearchParam(q, "cityId").value
    ensures CityId(q) != []
  {
  }

  /** The URL starts with the endpoint and `?CityId=` followed by the city. */
  lemma UrlStartsWithCity(cityId: string, g: GeoBounds)
    ensures var head := Endpoint + "?CityId=" + cityId;
            |head| <= |Url(cityId, g)| && Url(cityId, g)[..|head|] == head
  {
  }

  /**
   * With no given parameter the URL is the base alone; otherwise the base is
   * followed by `&` and something non-empty, so no `&` is left dangling.
   */
  lemma SuffixOnlyWithBounds(cityId: string, g: GeoBounds)
    ensures var head := Endpoint + "?CityId=" + cityId;
            (|Url(cityId, g)| == |head| <==> !AnyGiven(g)) &&
            (AnyGiven(g) ==> |Url(cityId, g)| > |head| + 1 && Url(cityId, g)[|head|] == '&')
  {
  }

  /** A value "0" is a non-empty string, so it is kept: `&MaxLatitude=0` follows the city. */
  lemma ZeroIsKept(cityId: string)
    ensures Url(cityId, GeoBounds(Some("0"), None, None, None)) == Endpoint + "?CityId=" + cityId + "&MaxLatitude=0"
  {
  }
}
