/**
 * The àVélo bike-share service: one station-status feed, looked up by
 * station id or restricted to the two stations the dashboard shows.
 */
module BikeService {

  import opened Wrappers
  import Seqs

  /** A record of the feed's `data.stations`, with the fields the service reads. */
  datatype BikeStation = BikeStation(
    stationId: string,
    numBikesAvailable: int,
    mechanical: int,
    ebike: int,
    numBikesDisabled: int,
    numDocksAvailable: int,
    numDocksDisabled: int,
    lastReported: int,
    isChargingStation: bool,
    status: string)

  /** What the dashboard shows for a station. */
  datatype StationInfo = StationInfo(
    id: string,
    name: string,
    available: int,
    ebikes: int,
    total: int,
    docksAvailable: int,
    isCharging: bool,
    status: string,
    lastUpdated: string)

  /**
   * One request to the feed: the fetch rejected, or an answer whose status
   * and `data.stations` list are known (`Failure` when the body is not JSON or
   * has no such list, which makes the service's code throw).
   */
  datatype Feed = Unreachable | Answer(status: int, stations: Result<seq<BikeStation>>)

  /** `stationNames`: the configured names, listed in the order `Object.keys` gives. */
  const SelectedIds: seq<string> := ["35", "66"]
  const StationNames: map<string, string> := map["35" := "Place Roger-Lemelin", "66" := "Montmagny"]

  /** The stations of a feed answer the service goes on with: an OK status and a readable list. */
  predicate Usable(feed: Feed)
  {
    feed.Answer? && 200 <= feed.status <= 299 && feed.stations.Success?
  }

  /** `stationNames[id] || "Station " + id`. */
  function StationName(id: string): string
  {
    if id in StationNames then StationNames[id] else "Station " + id
  }

  /**
   * The record built from a station. `formatTime` stands for
   * `toLocaleTimeString('fr-CA', …)` on a millisecond timestamp.
   */
  function ToInfo(s: BikeStation, formatTime: int -> string): (r: StationInfo)
    ensures r.total == s.numBikesAvailable + s.numBikesDisabled + s.numDocksAvailable
    ensures r.id == s.stationId && r.name == StationName(s.stationId)
    ensures r.available == s.numBikesAvailable && r.ebikes == s.ebike && r.docksAvailable == s.numDocksAvailable
    ensures r.isCharging == s.isChargingStation && r.status == s.status
    ensures r.lastUpdated == formatTime(s.lastReported * 1000)
  {
    StationInfo(
      s.stationId,
      StationName(s.stationId),
      s.numBikesAvailable,
      s.ebike,
      s.numBikesAvailable + s.numBikesDisabled + s.numDocksAvailable,
      s.numDocksAvailable,
      s.isChargingStation,
      s.status,
      formatTime(s.lastReported * 1000))
  }

  /** `getStationInfo`: the first station with the id, or null; every failure is null too. */
  function GetStationInfo(stationId: string, feed: Feed, formatTime: int -> string): (r: Option<StationInfo>)
    ensures !Usable(feed) ==> r.None?
    ensures Usable(feed) ==>
              (r.Some? <==> exists i :: 0 <= i < |feed.stations.value| && feed.stations.value[i].stationId == stationId)
    ensures r.Some? ==>
              exists i :: 0 <= i < |feed.stations.value| && r.value == ToInfo(feed.stations.value[i], formatTime) &&
                feed.stations.value[i].stationId == stationId &&
                forall j :: 0 <= j < i ==> feed.stations.value[j].stationId != stationId
  {
    if !Usable(feed) then None
    else
      match Seqs.Find(feed.stations.value, (s: BikeStation) => s.stationId == stationId)
      case None => None
      case Some(station) => Some(ToInfo(station, formatTime))
  }

  predicate IsSelected(s: BikeStation)
  {
    s.stationId in SelectedIds
  }

  /** `getSelectedStations`: the selected stations, in feed order, as records; every failure is `[]`. */
  function GetSelectedStations(feed: Feed, formatTime: int -> string): (r: seq<StationInfo>)
    ensures !Usable(feed) ==> r == []
    ensures Usable(feed) ==>
              var kept := Seqs.Filter(feed.stations.value, IsSelected);
              Seqs.IsSubsequence(kept, feed.stations.value) &&
              |r| == |kept| && forall i :: 0 <= i < |r| ==> r[i] == ToInfo(kept[i], formatTime)
    ensures forall i :: 0 <= i < |r| ==> r[i].id in SelectedIds && r[i].name in StationNames.Values
  {
    if !Usable(feed) then []
    else
      var kept := Seqs.Filter(feed.stations.value, IsSelected);
      Seqs.Map(kept, (s: BikeStation) => ToInfo(s, formatTime))
  }

  /** The two configured ids are exactly the keys of the name table. */
  lemma SelectedAreNamed()
    ensures forall id :: id in SelectedIds <==> id in StationNames
  {
  }

  /** Ids outside the table get a generated name. */
  lemma UnnamedStation(id: string)
    requires id != "35" && id != "66"
    ensures StationName(id) == "Station " + id
  {
  }

  /** A station missing from the feed is reported as null, as is every failure of the feed. */
  lemma MissingStationIsNull(stationId: string, stations: seq<BikeStation>, status: int, formatTime: int -> string)
    requires forall i :: 0 <= i < |stations| ==> stations[i].stationId != stationId
    ensures GetStationInfo(stationId, Answer(status, Success(stations)), formatTime).None?
  {
  }

  /** The selection and the single lookup agree: each selected station is what a lookup by its id returns first. */
  lemma {:induction false} SelectionMatchesLookup(stations: seq<BikeStation>, status: int, formatTime: int -> string)
    requires 200 <= status <= 299
    requires forall i, j :: 0 <= i < j < |stations| ==> stations[i].stationId != stations[j].stationId
    ensures forall k :: 0 <= k < |GetSelectedStations(Answer(status, Success(stations)), formatTime)| ==>
              var info := GetSelectedStations(Answer(status, Success(stations)), formatTime)[k];
              GetStationInfo(info.id, Answer(status, Success(stations)), formatTime) == Some(info)
  {
    var feed := Answer(status, Success(stations));
    var r := GetSelectedStations(feed, formatTime);
    var kept := Seqs.Filter(stations, IsSelected);
    forall k | 0 <= k < |r|
      ensures GetStationInfo(r[k].id, feed, formatTime) == Some(r[k])
    {
      var s := kept[k];
      assert r[k] == ToInfo(s, formatTime);
      var i :| 0 <= i < |stations| && stations[i] == s;
      assert forall j :: 0 <= j < |stations| && j != i ==> stations[j].stationId != s.stationId;
      var got := GetStationInfo(s.stationId, feed, formatTime);
      assert got.Some?;
      var i' :| 0 <= i' < |stations| && got.value == ToInfo(stations[i'], formatTime) && stations[i'].stationId == s.stationId;
      assert i' == i;
    }
  }
}
