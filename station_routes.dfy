/** The station endpoints of the backend: create a station, list all
    stations with their prices, and record a price for a station. */
module StationRoutes {
  import opened Common
  import opened Db
  import opened Listing

  /** The request body of `POST /stations/`. */
  datatype StationIn = StationIn(name: string, latitude: real, longitude: real)

  datatype StationOut = StationOut(id: int, name: string, latitude: real, longitude: real)

  /** The response of `POST /stations/{station_id}/prices`. */
  datatype PriceCreated = PriceCreated(id: int, stationId: int, price: real, recordedAt: int)

  const StationNotFound := HttpError(404, "Station not found")

  /** `create_station`: inserts one row under the next serial id and returns
      it. */
  method CreateStation(db: Database, s: StationIn) returns (out: StationOut)
    requires db.Valid()
    modifies db`stations, db`nextStationId
    ensures db.Valid()
    ensures out == StationOut(old(db.nextStationId), s.name, s.latitude, s.longitude)
    ensures forall i :: 0 <= i < |old(db.stations)| ==> old(db.stations)[i].id != out.id
    ensures db.stations == old(db.stations) + [StationRow(out.id, s.name, s.latitude, s.longitude)]
  {
    var row := StationRow(db.nextStationId, s.name, s.latitude, s.longitude);
    db.stations := db.stations + [row];
    db.nextStationId := db.nextStationId + 1;
    out := StationOut(row.id, row.name, row.latitude, row.longitude);
  }

  /** `list_stations`: one listing row per station, in ascending id order.
      The loop evaluates the query's per-station subqueries row by row. */
  method ListStations(db: Database) returns (result: seq<StationWithPrice>)
    ensures result == StationListing(db.stations, db.prices)
  {
    result := [];
    var i := 0;
    while i < |db.stations|
      invariant 0 <= i <= |db.stations|
      invariant result == StationListing(db.stations[..i], db.prices)
    {
      assert db.stations[..i + 1] == db.stations[..i] + [db.stations[i]];
      StationListingAppend(db.stations[..i], db.stations[i], db.prices);
      result := result + [Summarize(db.stations[i], db.prices)];
      i := i + 1;
    }
    assert db.stations[..i] == db.stations;
  }

  /** The listing of a consistent database has every station exactly once,
      ordered by ascending id. */
  lemma ListingOrderedById(db: Database)
    requires db.Valid()
    ensures |StationListing(db.stations, db.prices)| == |db.stations|
    ensures forall i, j :: 0 <= i < j < |db.stations| ==>
              StationListing(db.stations, db.prices)[i].id < StationListing(db.stations, db.prices)[j].id
    ensures forall k :: 0 <= k < |db.stations| ==>
              StationListing(db.stations, db.prices)[k] == Summarize(db.stations[k], db.prices)
  {
    StationListingRows(db.stations, db.prices);
  }

  /** `add_price`: a missing station is a 404 and inserts nothing; otherwise
      one price row for the station, stamped with the current time, is
      inserted and returned. */
  method AddPrice(db: Database, stationId: int, price: real, now: int) returns (r: Result<PriceCreated, HttpError>)
    requires db.Valid()
    modifies db`prices, db`nextPriceId
    ensures db.Valid()
    ensures !HasStation(db.stations, stationId) ==>
              r == Err(StationNotFound) && db.prices == old(db.prices) && db.nextPriceId == old(db.nextPriceId)
    ensures HasStation(db.stations, stationId) ==>
              r == Ok(PriceCreated(old(db.nextPriceId), stationId, price, now))
              && db.prices == old(db.prices) + [PriceRow(old(db.nextPriceId), stationId, price, now)]
  {
    if !HasStation(db.stations, stationId) {
      return Err(StationNotFound);
    }
    var row := PriceRow(db.nextPriceId, stationId, price, now);
    db.prices := db.prices + [row];
    db.nextPriceId := db.nextPriceId + 1;
    r := Ok(PriceCreated(row.id, row.stationId, row.price, row.recordedAt));
  }
}
