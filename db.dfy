/** The backend's tables, held in memory. Each table with a serial key keeps
    the next key to hand out; rows are kept in insertion order. The
    favourites table is a set because it carries a unique (user, station)
    constraint. */
module Db {
  import opened Common

  datatype StationRow = StationRow(id: int, name: string, latitude: real, longitude: real)

  /** A price observation; `recordedAt` is the database's timestamp at insert. */
  datatype PriceRow = PriceRow(id: int, stationId: int, price: real, recordedAt: int)

  /** A user; `lastLogin` is `None` until a login updates it. */
  datatype UserRow = UserRow(id: int, firebaseUid: string, email: string, lastLogin: Option<int>)

  datatype FavoriteRow = FavoriteRow(userId: int, stationId: int)

  class Database {
    var stations: seq<StationRow>
    var prices: seq<PriceRow>
    var users: seq<UserRow>
    var favorites: set<FavoriteRow>
    var nextStationId: int
    var nextPriceId: int
    var nextUserId: int

    /** Serial keys only grow, so stations are in ascending id order and
        every key is below its counter; at most one user has a given
        Firebase uid, because users are only inserted after a lookup missed
        (requests are taken one at a time). */
    ghost predicate Valid()
      reads this
    {
      && (forall i, j :: 0 <= i < j < |stations| ==> stations[i].id < stations[j].id)
      && (forall i :: 0 <= i < |stations| ==> stations[i].id < nextStationId)
      && (forall i :: 0 <= i < |prices| ==> prices[i].id < nextPriceId)
      && (forall i :: 0 <= i < |users| ==> users[i].id < nextUserId)
      && (forall i, j :: 0 <= i < j < |users| ==>
            users[i].firebaseUid != users[j].firebaseUid && users[i].id != users[j].id)
    }

    constructor ()
      ensures Valid()
      ensures stations == [] && prices == [] && users == [] && favorites == {}
    {
      stations := [];
      prices := [];
      users := [];
      favorites := {};
      nextStationId := 1;
      nextPriceId := 1;
      nextUserId := 1;
    }
  }

  /** `SELECT 1 FROM stations WHERE id = ...` finds a row. */
  predicate HasStation(stations: seq<StationRow>, id: int) {
    exists i :: 0 <= i < |stations| && stations[i].id == id
  }

  /** `SELECT ... FROM users WHERE firebase_uid = ...` then `fetchone()`:
      the index of the first user with that uid. */
  function FindUser(users: seq<UserRow>, uid: string): (r: Option<nat>)
    ensures r.None? <==> forall i :: 0 <= i < |users| ==> users[i].firebaseUid != uid
    ensures r.Some? ==> r.value < |users| && users[r.value].firebaseUid == uid
                        && forall j :: 0 <= j < r.value ==> users[j].firebaseUid != uid
  {
    if users == [] then None
    else if users[0].firebaseUid == uid then Some(0)
    else
      match FindUser(users[1..], uid)
      case None =>
        assert forall i :: 0 <= i < |users| ==> users[i].firebaseUid != uid by {
          forall i | 0 <= i < |users| ensures users[i].firebaseUid != uid {
            if i > 0 { assert users[i] == users[1..][i - 1]; }
          }
        }
        None
      case Some(k) =>
        assert forall j :: 0 <= j < k + 1 ==> users[j].firebaseUid != uid by {
          forall j | 0 <= j < k + 1 ensures users[j].firebaseUid != uid {
            if j > 0 { assert users[j] == users[1..][j - 1]; }
          }
        }
        Some(k + 1)
  }

  /** After appending a user whose uid was absent, the lookup finds the new
      row. */
  lemma FindUserAfterInsert(users: seq<UserRow>, row: UserRow)
    requires FindUser(users, row.firebaseUid).None?
    ensures FindUser(users + [row], row.firebaseUid) == Some(|users|)
  {
    var uid := row.firebaseUid;
    assert (users + [row])[|users|] == row;
    assert forall i :: 0 <= i < |users| ==> (users + [row])[i].firebaseUid != uid;
  }

  /** Updating a user's login time keeps the lookup's answer. */
  lemma FindUserAfterTouch(users: seq<UserRow>, uid: string, k: nat, now: int)
    requires FindUser(users, uid) == Some(k)
    ensures FindUser(users[k := users[k].(lastLogin := Some(now))], uid) == Some(k)
  {
    var updated := users[k := users[k].(lastLogin := Some(now))];
    assert forall j :: 0 <= j < k ==> updated[j].firebaseUid != uid;
    assert updated[k].firebaseUid == uid;
  }
}
