/** The derived station view both `GET /stations` and `GET /favorites`
    return: each station with its latest price, the time of that price, and
    its whole price history newest first. The SQL computes these per station
    row with correlated subqueries; this module states them as functions of
    the stations and prices tables. */
module Listing {
  import opened Common
  import opened Seqs
  import opened Sorting
  import opened Db

  datatype PriceHistoryItem = PriceHistoryItem(price: real, recordedAt: int)

  datatype StationWithPrice = StationWithPrice(
    id: int,
    name: string,
    latitude: real,
    longitude: real,
    latestPrice: Option<real>,
    recordedAt: Option<int>,
    prices: seq<PriceHistoryItem>)

  /** `WHERE station_id = s.id`. */
  function OfStation(stationId: int): PriceRow -> bool {
    (p: PriceRow) => p.stationId == stationId
  }

  /** Sort key for `ORDER BY recorded_at DESC`: newer rows have smaller keys. */
  function Age(p: PriceRow): real {
    -(p.recordedAt as real)
  }

  /** The station's price rows, newest first; rows with equal timestamps
      keep their insertion order. */
  function History(prices: seq<PriceRow>, stationId: int): seq<PriceRow> {
    SortBy(Filter(prices, OfStation(stationId)), Age)
  }

  function Items(rows: seq<PriceRow>): (r: seq<PriceHistoryItem>)
    ensures |r| == |rows|
    ensures forall i :: 0 <= i < |r| ==> r[i] == PriceHistoryItem(rows[i].price, rows[i].recordedAt)
  {
    if rows == [] then []
    else [PriceHistoryItem(rows[0].price, rows[0].recordedAt)] + Items(rows[1..])
  }

  /** One output row: the latest price and its time come from the newest
      price row, and are absent when the station has no prices. */
  function Summarize(s: StationRow, prices: seq<PriceRow>): (r: StationWithPrice)
    ensures r.id == s.id && r.name == s.name && r.latitude == s.latitude && r.longitude == s.longitude
    ensures r.latestPrice.None? <==> r.prices == []
    ensures r.recordedAt.None? <==> r.prices == []
  {
    var h := History(prices, s.id);
    StationWithPrice(
      s.id, s.name, s.latitude, s.longitude,
      if h == [] then None else Some(h[0].price),
      if h == [] then None else Some(h[0].recordedAt),
      Items(h))
  }

  /** The listing of the given station rows, in their order. */
  function StationListing(stations: seq<StationRow>, prices: seq<PriceRow>): (r: seq<StationWithPrice>)
    ensures |r| == |stations|
  {
    seq(|stations|, i requires 0 <= i < |stations| => Summarize(stations[i], prices))
  }

  /** The history is exactly the station's price rows, each as often as in
      the table, newest first. */
  lemma HistoryProperties(prices: seq<PriceRow>, stationId: int)
    ensures forall p :: multiset(History(prices, stationId))[p]
                          == if p.stationId == stationId then multiset(prices)[p] else 0
    ensures forall i, j :: 0 <= i < j < |History(prices, stationId)| ==>
              History(prices, stationId)[i].recordedAt >= History(prices, stationId)[j].recordedAt
  {
    forall p ensures multiset(History(prices, stationId))[p]
                       == if p.stationId == stationId then multiset(prices)[p] else 0 {
      FilterCount(prices, OfStation(stationId), p);
    }
    SortBySorted(Filter(prices, OfStation(stationId)), Age);
    var h := History(prices, stationId);
    forall i, j | 0 <= i < j < |h| ensures h[i].recordedAt >= h[j].recordedAt {
      assert Age(h[i]) <= Age(h[j]);
    }
  }

  /** A station without price rows has no latest price, no time and an
      empty history. */
  lemma SummarizeWithoutPrices(s: StationRow, prices: seq<PriceRow>)
    requires forall i :: 0 <= i < |prices| ==> prices[i].stationId != s.id
    ensures Summarize(s, prices).latestPrice.None? && Summarize(s, prices).recordedAt.None?
    ensures Summarize(s, prices).prices == []
  {
    HistoryProperties(prices, s.id);
  }

  /** With price rows, the latest price and time belong to a price row of
      the station whose time is the greatest among that station's rows, and
      the history lists the first of the newest rows first. */
  lemma SummarizeLatest(s: StationRow, prices: seq<PriceRow>, k: nat)
    requires k < |prices| && prices[k].stationId == s.id
    ensures Summarize(s, prices).latestPrice.Some? && Summarize(s, prices).recordedAt.Some?
    ensures exists i :: 0 <= i < |prices| && prices[i].stationId == s.id
                        && prices[i].price == Summarize(s, prices).latestPrice.value
                        && prices[i].recordedAt == Summarize(s, prices).recordedAt.value
    ensures forall i :: 0 <= i < |prices| && prices[i].stationId == s.id ==>
              prices[i].recordedAt <= Summarize(s, prices).recordedAt.value
    ensures Summarize(s, prices).prices[0]
         == PriceHistoryItem(Summarize(s, prices).latestPrice.value, Summarize(s, prices).recordedAt.value)
  {
    HistoryProperties(prices, s.id);
    var h := History(prices, s.id);
    assert multiset(h)[prices[k]] > 0;
    assert h != [];
    assert h[0] in multiset(h);
    assert h[0] in prices;
    var i0 :| 0 <= i0 < |prices| && prices[i0] == h[0];
    forall i | 0 <= i < |prices| && prices[i].stationId == s.id
      ensures prices[i].recordedAt <= h[0].recordedAt
    {
      assert multiset(h)[prices[i]] > 0;
      assert prices[i] in h;
      var j :| 0 <= j < |h| && h[j] == prices[i];
    }
  }

  /** The listing has one row per given station, in the given order, with
      that station's columns. */
  lemma StationListingRows(stations: seq<StationRow>, prices: seq<PriceRow>)
    ensures forall i :: 0 <= i < |stations| ==>
              var r := StationListing(stations, prices)[i];
              r.id == stations[i].id && r.name == stations[i].name
              && r.latitude == stations[i].latitude && r.longitude == stations[i].longitude
              && r == Summarize(stations[i], prices)
  {
  }

  lemma StationListingAppend(stations: seq<StationRow>, s: StationRow, prices: seq<PriceRow>)
    ensures StationListing(stations + [s], prices) == StationListing(stations, prices) + [Summarize(s, prices)]
  {
  }
}
