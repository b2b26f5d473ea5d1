/** The pure logic of the web map page: the station list shown to the user
    (filter by name, annotate with distance, stable sort by distance), the
    price-to-colour banding of the markers, the expanded price history of the
    active station, and the lookup that re-selects a station after a refresh. */
module StationRanking {
  import opened Common
  import opened Seqs
  import opened Sorting
  import opened Text

  /** One entry of a station's price history. */
  datatype PricePoint = PricePoint(price: real, recordedAt: string)

  /** A station as the backend's station listing delivers it; the optional
      fields are absent (`None`) when undefined or null. */
  datatype Station = Station(
    id: int,
    name: string,
    latitude: real,
    longitude: real,
    latestPrice: Option<real>,
    recordedAt: Option<string>,
    prices: Option<seq<PricePoint>>)

  datatype Location = Location(lat: real, lng: real)

  /** A station together with its distance from the user. */
  datatype RankedStation = RankedStation(station: Station, distance: real)

  /** The distance between two (latitude, longitude) points; the page uses
      the haversine formula, which this model leaves uninterpreted. */
  type DistanceFn = (real, real, real, real) -> real

  function Matcher(searchText: string): Station -> bool {
    (st: Station) => NameMatches(st.name, searchText)
  }

  function DistanceOf(r: RankedStation): real {
    r.distance
  }

  function DistanceFrom(user: Location, st: Station, dist: DistanceFn): real {
    dist(user.lat, user.lng, st.latitude, st.longitude)
  }

  /** Adds the distance from the user to every station, in order. */
  function Annotate(stations: seq<Station>, user: Location, dist: DistanceFn): (r: seq<RankedStation>)
    ensures |r| == |stations|
    ensures forall i :: 0 <= i < |r| ==> r[i] == RankedStation(stations[i], DistanceFrom(user, stations[i], dist))
  {
    if stations == [] then []
    else [RankedStation(stations[0], DistanceFrom(user, stations[0], dist))] + Annotate(stations[1..], user, dist)
  }

  /** The `stationList` of the map page; filtering never adds rows. */
  function StationList(stations: seq<Station>, user: Location, searchText: string, dist: DistanceFn): (r: seq<RankedStation>)
    ensures |r| <= |stations|
  {
    SortBy(Annotate(Filter(stations, Matcher(searchText)), user, dist), DistanceOf)
  }

  lemma {:induction false} AnnotateCount(stations: seq<Station>, user: Location, dist: DistanceFn, st: Station)
    ensures multiset(Annotate(stations, user, dist))[RankedStation(st, DistanceFrom(user, st, dist))]
         == multiset(stations)[st]
    decreases |stations|
  {
    if stations != [] {
      AnnotateCount(stations[1..], user, dist, st);
      assert stations == [stations[0]] + stations[1..];
    }
  }

  /** Every listed station matches the search text and carries its distance
      from the user. */
  lemma StationListElements(stations: seq<Station>, user: Location, searchText: string, dist: DistanceFn)
    ensures forall i :: 0 <= i < |StationList(stations, user, searchText, dist)| ==>
      var r := StationList(stations, user, searchText, dist)[i];
      NameMatches(r.station.name, searchText) && r.station in stations
      && r.distance == DistanceFrom(user, r.station, dist)
  {
    var filtered := Filter(stations, Matcher(searchText));
    var annotated := Annotate(filtered, user, dist);
    var out := StationList(stations, user, searchText, dist);
    forall i | 0 <= i < |out|
      ensures NameMatches(out[i].station.name, searchText) && out[i].station in stations
      ensures out[i].distance == DistanceFrom(user, out[i].station, dist)
    {
      assert out[i] in multiset(annotated);
      var j :| 0 <= j < |annotated| && annotated[j] == out[i];
      assert Matcher(searchText)(filtered[j]);
      FilterCount(stations, Matcher(searchText), filtered[j]);
      assert filtered[j] in multiset(filtered);
    }
  }

  /** Each station that matches appears in the list as often as in the input
      (once when station entries are distinct), annotated with its distance;
      a station that does not match does not appear. */
  lemma StationListCount(stations: seq<Station>, user: Location, searchText: string, dist: DistanceFn, st: Station)
    ensures multiset(StationList(stations, user, searchText, dist))[RankedStation(st, DistanceFrom(user, st, dist))]
         == if NameMatches(st.name, searchText) then multiset(stations)[st] else 0
  {
    var filtered := Filter(stations, Matcher(searchText));
    AnnotateCount(filtered, user, dist, st);
    FilterCount(stations, Matcher(searchText), st);
  }

  /** The list is in non-decreasing order of distance. */
  lemma StationListSorted(stations: seq<Station>, user: Location, searchText: string, dist: DistanceFn)
    ensures forall i, j :: 0 <= i < j < |StationList(stations, user, searchText, dist)| ==>
      StationList(stations, user, searchText, dist)[i].distance
        <= StationList(stations, user, searchText, dist)[j].distance
  {
    SortBySorted(Annotate(Filter(stations, Matcher(searchText)), user, dist), DistanceOf);
  }

  /** Stations at equal distance keep their input order: for every distance
      `d`, the listed stations at distance `d` are the matching input stations
      at distance `d`, in input order. */
  lemma StationListStable(stations: seq<Station>, user: Location, searchText: string, dist: DistanceFn, d: real)
    ensures WithKey(StationList(stations, user, searchText, dist), DistanceOf, d)
         == WithKey(Annotate(Filter(stations, Matcher(searchText)), user, dist), DistanceOf, d)
  {
    SortByStable(Annotate(Filter(stations, Matcher(searchText)), user, dist), DistanceOf, d);
  }

  /** Sortedness and stability pin the list down: any list that is sorted by
      distance and keeps equal-distance stations in input order is the
      station list, so every stable sort the browser may use yields it. */
  lemma StationListUnique(stations: seq<Station>, user: Location, searchText: string, dist: DistanceFn, r: seq<RankedStation>)
    requires SortedBy(r, DistanceOf)
    requires forall d :: WithKey(r, DistanceOf, d)
                      == WithKey(Annotate(Filter(stations, Matcher(searchText)), user, dist), DistanceOf, d)
    ensures r == StationList(stations, user, searchText, dist)
  {
    SortByCharacterized(Annotate(Filter(stations, Matcher(searchText)), user, dist), r, DistanceOf);
  }

  /** An empty search text keeps every station. */
  lemma StationListEmptySearch(stations: seq<Station>, user: Location, dist: DistanceFn)
    ensures StationList(stations, user, "", dist) == SortBy(Annotate(stations, user, dist), DistanceOf)
    ensures |StationList(stations, user, "", dist)| == |stations|
  {
    forall st: Station ensures Matcher("")(st) {
      EmptyQueryMatches(st.name);
    }
    FilterAll(stations, Matcher(""));
  }

  /** No stations, no rows, whatever the location and search text. */
  lemma StationListEmptyInput(user: Location, searchText: string, dist: DistanceFn)
    ensures StationList([], user, searchText, dist) == []
  {
  }

  /** The three-station example: stations at 500, 100 and 300 metres are
      listed nearest first. */
  lemma StationListExample(a: Station, b: Station, c: Station, user: Location, dist: DistanceFn)
    requires DistanceFrom(user, a, dist) == 500.0
    requires DistanceFrom(user, b, dist) == 100.0
    requires DistanceFrom(user, c, dist) == 300.0
    ensures StationList([a, b, c], user, "", dist)
         == [RankedStation(b, 100.0), RankedStation(c, 300.0), RankedStation(a, 500.0)]
  {
    StationListEmptySearch([a, b, c], user, dist);
    var ra, rb, rc := RankedStation(a, 500.0), RankedStation(b, 100.0), RankedStation(c, 300.0);
    assert Annotate([a, b, c], user, dist) == [ra, rb, rc];
    SortThree(ra, rb, rc);
  }

  lemma SortThree(ra: RankedStation, rb: RankedStation, rc: RankedStation)
    requires ra.distance == 500.0 && rb.distance == 100.0 && rc.distance == 300.0
    ensures SortBy([ra, rb, rc], DistanceOf) == [rb, rc, ra]
  {
    assert [ra, rb, rc][1..] == [rb, rc] && [rb, rc][1..] == [rc] && [rc][1..] == [];
    assert SortBy([rc], DistanceOf) == [rc];
    assert SortBy([rb, rc], DistanceOf) == [rb, rc];
    assert Insert(ra, [rc], DistanceOf) == [rc, ra];
    assert Insert(ra, [rb, rc], DistanceOf) == [rb, rc, ra];
  }

  /** The colour of a station's map marker. */
  datatype MarkerColour = Grey | Green | Yellow | Red

  /** `getStationIcon`: the colour band of a station's latest price; the
      marker is grey exactly when there is no price. */
  function StationIcon(price: Option<real>): (r: MarkerColour)
    ensures r == Grey <==> price.None?
  {
    if price.None? then Grey
    else if price.value < 3.5 then Green
    else if price.value < 4.0 then Yellow
    else Red
  }

  /** The colour name that the marker icon URL is built from. */
  function ColourName(c: MarkerColour): string {
    match c
    case Grey => "grey"
    case Green => "green"
    case Yellow => "yellow"
    case Red => "red"
  }

  const IconBase := "http://maps.google.com/mapfiles/ms/icons/"
  const IconSuffix := "-dot.png"

  /** The marker image of a station: the Google Maps dot of its colour. */
  function IconUrl(price: Option<real>): (r: string)
    ensures StartsWith(r, IconBase)
    ensures |r| > |IconSuffix| && r[|r| - |IconSuffix|..] == IconSuffix
  {
    var url := IconBase + ColourName(StationIcon(price)) + IconSuffix;
    assert url[..|IconBase|] == IconBase;
    assert url[|url| - |IconSuffix|..] == IconSuffix;
    url
  }

  /** Two prices get the same marker image exactly when they fall in the
      same colour band, so the image shows the band and nothing else. */
  lemma IconUrlShowsBand(p: Option<real>, q: Option<real>)
    ensures IconUrl(p) == IconUrl(q) <==> StationIcon(p) == StationIcon(q)
  {
    if IconUrl(p) == IconUrl(q) {
      assert |ColourName(StationIcon(p))| == |ColourName(StationIcon(q))|;
    }
  }

  /** Cheap-to-expensive rank of a colour band. */
  function Severity(c: MarkerColour): nat {
    match c
    case Grey => 0
    case Green => 1
    case Yellow => 2
    case Red => 3
  }

  /** Each price falls in exactly one band: no price is grey, below 3.5 is
      green, from 3.5 below 4.0 is yellow, and 4.0 and above is red. */
  lemma StationIconBands(price: Option<real>)
    ensures StationIcon(price) == Grey <==> price.None?
    ensures StationIcon(price) == Green <==> price.Some? && price.value < 3.5
    ensures StationIcon(price) == Yellow <==> price.Some? && 3.5 <= price.value < 4.0
    ensures StationIcon(price) == Red <==> price.Some? && 4.0 <= price.value
  {
  }

  /** A higher price never gets a cheaper colour. */
  lemma StationIconMonotone(p: real, q: real)
    requires p <= q
    ensures Severity(StationIcon(Some(p))) <= Severity(StationIcon(Some(q)))
  {
  }

  const HistoryRows := 5

  /** `selectedStation?.id === station.id`. */
  predicate IsActive(station: Station, selected: Option<Station>) {
    selected.Some? && selected.value.id == station.id
  }

  /** The price rows expanded under a list entry: `None` when nothing is
      shown, otherwise the first five rows of the station's history. */
  function ExpandedHistory(station: Station, selected: Option<Station>): (r: Option<seq<PricePoint>>)
    ensures r.Some? <==> IsActive(station, selected) && station.prices.Some? && |station.prices.value| > 0
    ensures r.Some? ==> |r.value| <= HistoryRows && 0 < |r.value|
    ensures r.Some? ==> |r.value| == if |station.prices.value| < HistoryRows then |station.prices.value| else HistoryRows
    ensures r.Some? ==> r.value == station.prices.value[..|r.value|]
  {
    var count := if station.prices.Some? then |station.prices.value| else 0;
    if IsActive(station, selected) && count > 0 then
      Some(station.prices.value[..if count < HistoryRows then count else HistoryRows])
    else None
  }

  /** `stations.find((s) => s.id === id)`: the first station with the id. */
  function FindById(stations: seq<Station>, id: int): (r: Option<Station>)
    ensures r.None? <==> forall i :: 0 <= i < |stations| ==> stations[i].id != id
    ensures r.Some? ==> exists i :: 0 <= i < |stations| && stations[i] == r.value
                                    && r.value.id == id
                                    && forall j :: 0 <= j < i ==> stations[j].id != id
  {
    if stations == [] then None
    else if stations[0].id == id then Some(stations[0])
    else
      var r := FindById(stations[1..], id);
      if r.Some? then
        var i :| 0 <= i < |stations[1..]| && stations[1..][i] == r.value && r.value.id == id
                 && forall j :: 0 <= j < i ==> stations[1..][j].id != id;
        assert stations[i + 1] == r.value;
        assert forall j :: 0 <= j < i + 1 ==> stations[j].id != id by {
          forall j | 0 <= j < i + 1 ensures stations[j].id != id {
            if j > 0 { assert stations[j] == stations[1..][j - 1]; }
          }
        }
        r
      else
        assert forall i :: 0 <= i < |stations| ==> stations[i].id != id by {
          forall i | 0 <= i < |stations| ensures stations[i].id != id {
            if i > 0 { assert stations[i] == stations[1..][i - 1]; }
          }
        }
        r
  }

  /** The selection after a price confirmation refreshed the stations: the
      first refreshed station with the selected id when there is one, and
      the old selection otherwise. */
  function Reselect(selected: Option<Station>, refreshed: seq<Station>): (r: Option<Station>)
    ensures selected.None? ==> r.None?
    ensures selected.Some? && (exists i :: 0 <= i < |refreshed| && refreshed[i].id == selected.value.id) ==>
              r.Some? && r.value.id == selected.value.id
              && exists i :: 0 <= i < |refreshed| && refreshed[i] == r.value
                             && forall j :: 0 <= j < i ==> refreshed[j].id != selected.value.id
    ensures selected.Some? && (forall i :: 0 <= i < |refreshed| ==> refreshed[i].id != selected.value.id) ==>
              r == selected
  {
    match selected
    case None => None
    case Some(current) =>
      match FindById(refreshed, current.id)
      case Some(refreshedStation) => Some(refreshedStation)
      case None => selected
  }
}
