/** The favourites endpoints of the backend, for the user id that
    authentication resolved: add a favourite, remove one, and list the
    user's favourite stations with their prices. Database failures are
    inputs. */
module FavoriteRoutes {
  import opened Common
  import opened Seqs
  import opened Db
  import opened Listing

  /** `{"ok": True, "station_id": station_id}`. */
  datatype Ack = Ack(ok: bool, stationId: int)

  const SaveFailed := HttpError(500, "Could not save favorite")
  const RemoveFailed := HttpError(500, "Could not remove favorite")
  const FavoriteNotFound := HttpError(404, "Favorite not found")

  function DbError(message: string): HttpError {
    HttpError(500, "DB error: " + message)
  }

  /** `add_favorite`: inserts the pair; an existing pair is left as it is
      (`ON CONFLICT DO NOTHING`) and still answered ok; a failed insert is
      rolled back and answered 500. */
  method AddFavorite(db: Database, userId: int, stationId: int, insertFails: bool) returns (r: Result<Ack, HttpError>)
    modifies db`favorites
    ensures insertFails ==> r == Err(SaveFailed) && db.favorites == old(db.favorites)
    ensures !insertFails ==>
              r == Ok(Ack(true, stationId)) && db.favorites == old(db.favorites) + {FavoriteRow(userId, stationId)}
  {
    if insertFails {
      return Err(SaveFailed);
    }
    db.favorites := db.favorites + {FavoriteRow(userId, stationId)};
    r := Ok(Ack(true, stationId));
  }

  /** `remove_favorite`: deletes the user's pair for the station only;
      deleting nothing is a 404, a failed delete a 500, and both roll back. */
  method RemoveFavorite(db: Database, userId: int, stationId: int, deleteFails: bool) returns (r: Result<Ack, HttpError>)
    modifies db`favorites
    ensures deleteFails ==> r == Err(RemoveFailed) && db.favorites == old(db.favorites)
    ensures !deleteFails && FavoriteRow(userId, stationId) !in old(db.favorites) ==>
              r == Err(FavoriteNotFound) && db.favorites == old(db.favorites)
    ensures !deleteFails && FavoriteRow(userId, stationId) in old(db.favorites) ==>
              r == Ok(Ack(true, stationId)) && db.favorites == old(db.favorites) - {FavoriteRow(userId, stationId)}
  {
    if deleteFails {
      return Err(RemoveFailed);
    }
    var pair := FavoriteRow(userId, stationId);
    if pair !in db.favorites {
      return Err(FavoriteNotFound);
    }
    db.favorites := db.favorites - {pair};
    r := Ok(Ack(true, stationId));
  }

  /** `JOIN favorites f ON f.station_id = s.id WHERE f.user_id = ...`. */
  function FavoredBy(favorites: set<FavoriteRow>, userId: int): StationRow -> bool {
    (s: StationRow) => FavoriteRow(userId, s.id) in favorites
  }

  /** The user's favourite stations, in table order. */
  function FavoriteStations(db: Database, userId: int): (r: seq<StationRow>)
    reads db
    ensures |r| <= |db.stations|
    ensures forall i :: 0 <= i < |r| ==> FavoriteRow(userId, r[i].id) in db.favorites
  {
    Filter(db.stations, FavoredBy(db.favorites, userId))
  }

  /** `list_favorites`: the listing of the user's favourite stations; a
      failed query is a 500 carrying the database's message. */
  method ListFavorites(db: Database, userId: int, queryError: Option<string>) returns (r: Result<seq<StationWithPrice>, HttpError>)
    ensures queryError.Some? ==> r == Err(DbError(queryError.value))
    ensures queryError.None? ==> r == Ok(StationListing(FavoriteStations(db, userId), db.prices))
  {
    if queryError.Some? {
      return Err(DbError(queryError.value));
    }
    var result: seq<StationWithPrice> := [];
    var i := 0;
    while i < |db.stations|
      invariant 0 <= i <= |db.stations|
      invariant result == StationListing(Filter(db.stations[..i], FavoredBy(db.favorites, userId)), db.prices)
    {
      var s := db.stations[i];
      assert db.stations[..i + 1] == db.stations[..i] + [s];
      FilterAppend(db.stations[..i], s, FavoredBy(db.favorites, userId));
      if FavoriteRow(userId, s.id) in db.favorites {
        StationListingAppend(Filter(db.stations[..i], FavoredBy(db.favorites, userId)), s, db.prices);
        result := result + [Summarize(s, db.prices)];
      }
      i := i + 1;
    }
    assert db.stations[..i] == db.stations;
    r := Ok(result);
  }

  /** The favourites listing of a consistent database holds exactly the
      stations the user marked, each once, in ascending id order. */
  lemma FavoriteListingContents(db: Database, userId: int)
    requires db.Valid()
    ensures forall i :: 0 <= i < |FavoriteStations(db, userId)| ==>
              FavoriteStations(db, userId)[i] in db.stations
              && FavoriteRow(userId, FavoriteStations(db, userId)[i].id) in db.favorites
    ensures forall s :: s in db.stations && FavoriteRow(userId, s.id) in db.favorites ==>
              multiset(FavoriteStations(db, userId))[s] == 1
    ensures forall i, j :: 0 <= i < j < |FavoriteStations(db, userId)| ==>
              FavoriteStations(db, userId)[i].id < FavoriteStations(db, userId)[j].id
  {
    var fav := FavoriteStations(db, userId);
    var p := FavoredBy(db.favorites, userId);
    FilterIsSubsequence(db.stations, p);
    forall i | 0 <= i < |fav| ensures fav[i] in db.stations {
      FilterCount(db.stations, p, fav[i]);
      assert fav[i] in multiset(fav);
    }
    forall s | s in db.stations && FavoriteRow(userId, s.id) in db.favorites
      ensures multiset(fav)[s] == 1
    {
      FilterCount(db.stations, p, s);
      DistinctOnce(db.stations, s);
    }
    SubsequenceIncreasing(fav, db.stations);
  }

  /** In a table with strictly increasing ids a row occurs once. */
  lemma DistinctOnce(stations: seq<StationRow>, s: StationRow)
    requires forall i, j :: 0 <= i < j < |stations| ==> stations[i].id < stations[j].id
    requires s in stations
    ensures multiset(stations)[s] == 1
    decreases |stations|
  {
    assert stations == [stations[0]] + stations[1..];
    if stations[0] == s {
      assert s !in stations[1..];
    } else {
      DistinctOnce(stations[1..], s);
    }
  }

  /** A subsequence of a table with strictly increasing ids has strictly
      increasing ids. */
  lemma {:induction false} SubsequenceIncreasing(a: seq<StationRow>, b: seq<StationRow>)
    requires IsSubsequence(a, b)
    requires forall i, j :: 0 <= i < j < |b| ==> b[i].id < b[j].id
    ensures forall i, j :: 0 <= i < j < |a| ==> a[i].id < a[j].id
    ensures forall i :: 0 <= i < |a| ==> a[i] in b
    decreases |b|
  {
    if a != [] {
      if a[0] == b[0] && IsSubsequence(a[1..], b[1..]) {
        SubsequenceIncreasing(a[1..], b[1..]);
        forall i, j | 0 <= i < j < |a| ensures a[i].id < a[j].id {
          if i == 0 {
            assert a[j] == a[1..][j - 1] && a[j] in b[1..];
            var k :| 0 <= k < |b[1..]| && b[1..][k] == a[j];
            assert b[k + 1] == a[j];
          } else {
            assert a[i] == a[1..][i - 1] && a[j] == a[1..][j - 1];
          }
        }
        forall i | 0 <= i < |a| ensures a[i] in b {
          if i > 0 { assert a[i] == a[1..][i - 1]; }
        }
      } else {
        SubsequenceIncreasing(a, b[1..]);
      }
    }
  }
}
