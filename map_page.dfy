/** The state of the web map page and the handlers that update it: the
    fetched stations, the selected station, the search text and the three
    modal flags. Fetch outcomes are inputs. */
module MapPage {
  import opened Common
  import opened Text
  import opened StationRanking

  /** What a `GET /stations` request produced: the body decoded as a station
      array, whatever the HTTP status (the page never checks it), or a
      failure (network error or a body that is not JSON). */
  datatype FetchOutcome = Fetched(data: seq<Station>) | FetchFailed

  class MapPageState {
    var stations: seq<Station>
    var selected: Option<Station>
    var searchText: string
    var addStationOpen: bool
    var confirmOpen: bool
    var tripOpen: bool

    constructor ()
      ensures stations == [] && selected == None && searchText == ""
      ensures !addStationOpen && !confirmOpen && !tripOpen
    {
      stations := [];
      selected := None;
      searchText := "";
      addStationOpen := false;
      confirmOpen := false;
      tripOpen := false;
    }

    /** The list shown beside the map for the user's position. */
    function ShownStations(user: Location, dist: DistanceFn): (r: seq<RankedStation>)
      reads this
      ensures |r| <= |stations|
      ensures forall i, j :: 0 <= i < j < |r| ==> r[i].distance <= r[j].distance
      ensures forall i :: 0 <= i < |r| ==>
                r[i].station in stations && NameMatches(r[i].station.name, searchText)
                && r[i].distance == DistanceFrom(user, r[i].station, dist)
    {
      StationListSorted(stations, user, searchText, dist);
      StationListElements(stations, user, searchText, dist);
      StationList(stations, user, searchText, dist)
    }

    /** `fetchStations`: stores and returns the fetched array; on failure the
        stored stations stay as they were and the empty array is returned. */
    method FetchStations(outcome: FetchOutcome) returns (data: seq<Station>)
      modifies this`stations
      ensures outcome.Fetched? ==> stations == outcome.data && data == outcome.data
      ensures outcome.FetchFailed? ==> stations == old(stations) && data == []
    {
      match outcome
      case Fetched(d) =>
        stations := d;
        data := d;
      case FetchFailed =>
        data := [];
    }

    method SetSearchText(text: string)
      modifies this`searchText
      ensures searchText == text
    {
      searchText := text;
    }

    /** `handleStationSelect`, and a marker click: selects the station (the
        map pan and zoom are not modelled). */
    method SelectStation(station: Station)
      modifies this`selected
      ensures selected == Some(station)
    {
      selected := Some(station);
    }

    /** Closing the info window clears the selection. */
    method CloseInfoWindow()
      modifies this`selected
      ensures selected == None
    {
      selected := None;
    }

    method ToggleAddStation()
      modifies this`addStationOpen
      ensures addStationOpen == !old(addStationOpen)
    {
      addStationOpen := !addStationOpen;
    }

    method OpenConfirm()
      modifies this`confirmOpen
      ensures confirmOpen
    {
      confirmOpen := true;
    }

    /** The price modal's `onClose`. */
    method CloseConfirm()
      modifies this`confirmOpen
      ensures !confirmOpen
    {
      confirmOpen := false;
    }

    /** The add-station modal's `onCancel`. */
    method CancelAddStation()
      modifies this`addStationOpen
      ensures !addStationOpen
    {
      addStationOpen := false;
    }

    /** The "Plan Trip" button. */
    method OpenTripPlanner()
      modifies this`tripOpen
      ensures tripOpen
    {
      tripOpen := true;
    }

    /** The trip modal's `onClose`. */
    method CloseTripPlanner()
      modifies this`tripOpen
      ensures !tripOpen
    {
      tripOpen := false;
    }

    /** The add-station modal's `onSuccess`: refetch, then close the modal. */
    method OnStationAdded(outcome: FetchOutcome)
      modifies this`stations, this`addStationOpen
      ensures !addStationOpen
      ensures outcome.Fetched? ==> stations == outcome.data
      ensures outcome.FetchFailed? ==> stations == old(stations)
    {
      var _ := FetchStations(outcome);
      addStationOpen := false;
    }

    /** The confirm-price modal's `onSuccess`: close the modal; with no
        selection stop there; otherwise refetch and re-select the refreshed
        station with the same id, keeping the old selection when the
        refreshed array has none. */
    method OnPriceConfirmed(outcome: FetchOutcome)
      modifies this`stations, this`selected, this`confirmOpen
      ensures !confirmOpen
      ensures old(selected).None? ==> stations == old(stations) && selected == None
      ensures old(selected).Some? && outcome.Fetched? ==>
                stations == outcome.data && selected == Reselect(old(selected), outcome.data)
      ensures old(selected).Some? && outcome.FetchFailed? ==>
                stations == old(stations) && selected == old(selected)
    {
      confirmOpen := false;
      if selected.None? {
        return;
      }
      var id := selected.value.id;
      var updated := FetchStations(outcome);
      var found := FindById(updated, id);
      if found.Some? {
        selected := found;
      }
    }
  }
}
