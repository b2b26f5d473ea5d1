/** Authentication in the main backend: parsing the `Authorization: Bearer`
    header, resolving a Firebase ID token to the internal user id (creating
    the user on first sight), and the explicit registration endpoint. Token
    verification is an oracle: it maps a token to its claims or to the
    error message of the exception it raised. */
module AuthRoutes {
  import opened Common
  import opened Text
  import opened Db

  /** The claims of a verified token; `email` is absent when the token has
      none. */
  datatype Claims = Claims(uid: string, email: Option<string>)

  type Verifier = string -> Result<Claims, string>

  const BearerPrefix := "Bearer "
  const InvalidHeader := HttpError(401, "Invalid auth header")
  const TokenRequired := HttpError(400, "Token required.")
  const RegisteredMessage := "User registered or already exists."

  /** `decoded.get("email", "")`. */
  function EmailOf(c: Claims): string {
    if c.email.Some? then c.email.value else ""
  }

  /** The index of the first `c` in `s`. */
  function IndexOf(s: string, c: char): (r: Option<nat>)
    ensures r.None? ==> c !in s
    ensures r.Some? ==> r.value < |s| && s[r.value] == c && c !in s[..r.value]
  {
    if s == [] then None
    else if s[0] == c then Some(0)
    else
      match IndexOf(s[1..], c)
      case None => None
      case Some(k) =>
        assert s[..k + 1] == [s[0]] + s[1..][..k];
        Some(k + 1)
  }

  /** `authorization.split(" ", 1)[1]`: the text after the first space; the
      index fails (a server error) when there is no space. */
  function AfterFirstSpace(s: string): (r: Result<string, HttpError>)
    ensures r.Ok? <==> ' ' in s
    ensures r.Ok? ==> exists k :: 0 <= k < |s| && s[k] == ' ' && ' ' !in s[..k] && r.value == s[k + 1..]
    ensures r.Err? ==> r.error.status == 500
  {
    match IndexOf(s, ' ')
    case Some(k) => Ok(s[k + 1..])
    case None => Err(HttpError(500, "Internal Server Error"))
  }

  /** The header check of `get_current_user_id`: a header that does not
      start with "Bearer " is rejected; otherwise the token is everything
      after the prefix, spaces included. */
  function ParseBearer(authorization: string): (r: Result<string, HttpError>)
    ensures r.Err? <==> !StartsWith(authorization, BearerPrefix)
    ensures r.Err? ==> r.error == InvalidHeader
    ensures r.Ok? ==> authorization == BearerPrefix + r.value
  {
    if !StartsWith(authorization, BearerPrefix) then Err(InvalidHeader)
    else
      assert authorization[6] == ' ' && ' ' !in authorization[..6] by {
        assert authorization[..7] == BearerPrefix;
        assert authorization[..6] == "Bearer";
      }
      assert IndexOf(authorization, ' ') == Some(6);
      assert authorization == authorization[..7] + authorization[7..];
      AfterFirstSpace(authorization)
  }

  /** "Bearer a b" carries the token "a b". */
  lemma ParseBearerKeepsSpaces()
    ensures ParseBearer("Bearer a b") == Ok("a b")
  {
    assert StartsWith("Bearer a b", BearerPrefix);
    var r := ParseBearer("Bearer a b");
    assert "Bearer a b" == BearerPrefix + r.value;
  }

  /** `get_current_user_id`. A bad header or a failed verification answers
      401 and touches no table. A known uid returns its id and updates only
      its `last_login`; an unknown uid inserts one user (email defaulting to
      "") and returns the new id. */
  method GetCurrentUserId(db: Database, authorization: string, verify: Verifier, now: int)
    returns (r: Result<int, HttpError>)
    requires db.Valid()
    modifies db`users, db`nextUserId
    ensures db.Valid()
    ensures ParseBearer(authorization).Err? ==>
              r == Err(InvalidHeader) && db.users == old(db.users) && db.nextUserId == old(db.nextUserId)
    ensures ParseBearer(authorization).Ok? && verify(ParseBearer(authorization).value).Err? ==>
              r == Err(HttpError(401, "Invalid token: " + verify(ParseBearer(authorization).value).error))
              && db.users == old(db.users) && db.nextUserId == old(db.nextUserId)
    ensures ParseBearer(authorization).Ok? && verify(ParseBearer(authorization).value).Ok? ==>
              var claims := verify(ParseBearer(authorization).value).value;
              match FindUser(old(db.users), claims.uid)
              case Some(k) =>
                r == Ok(old(db.users)[k].id)
                && db.users == old(db.users)[k := old(db.users)[k].(lastLogin := Some(now))]
                && db.nextUserId == old(db.nextUserId)
              case None =>
                r == Ok(old(db.nextUserId))
                && db.users == old(db.users) + [UserRow(old(db.nextUserId), claims.uid, EmailOf(claims), None)]
                && db.nextUserId == old(db.nextUserId) + 1
  {
    var header := ParseBearer(authorization);
    if header.Err? {
      return Err(header.error);
    }
    var decoded := verify(header.value);
    if decoded.Err? {
      return Err(HttpError(401, "Invalid token: " + decoded.error));
    }
    var claims := decoded.value;
    r := FindOrCreateUser(db, claims, now, true);
  }

  /** The lookup-then-update-or-insert on the users table shared by the
      login and registration paths; `touch` says whether a found user gets
      its `last_login` updated. Returns the user's id. */
  method FindOrCreateUser(db: Database, claims: Claims, now: int, touch: bool) returns (r: Result<int, HttpError>)
    requires db.Valid()
    modifies db`users, db`nextUserId
    ensures db.Valid()
    ensures match FindUser(old(db.users), claims.uid)
      case Some(k) =>
        r == Ok(old(db.users)[k].id)
        && db.users == (if touch then old(db.users)[k := old(db.users)[k].(lastLogin := Some(now))] else old(db.users))
        && db.nextUserId == old(db.nextUserId)
      case None =>
        r == Ok(old(db.nextUserId))
        && db.users == old(db.users) + [UserRow(old(db.nextUserId), claims.uid, EmailOf(claims), None)]
        && db.nextUserId == old(db.nextUserId) + 1
  {
    var found := FindUser(db.users, claims.uid);
    if found.Some? {
      var k := found.value;
      if touch {
        db.users := db.users[k := db.users[k].(lastLogin := Some(now))];
      }
      r := Ok(db.users[k].id);
    } else {
      var row := UserRow(db.nextUserId, claims.uid, EmailOf(claims), None);
      db.users := db.users + [row];
      db.nextUserId := db.nextUserId + 1;
      r := Ok(row.id);
    }
  }

  /** Verification at two instants agrees on who the token belongs to:
      whenever both succeed, they name the same uid. */
  predicate SameHolder(verify1: Verifier, verify2: Verifier, token: string) {
    verify1(token).Ok? && verify2(token).Ok? ==> verify1(token).value.uid == verify2(token).value.uid
  }

  /** Two logins with the same header. Token verification may answer
      differently at the two instants (`verify1`, `verify2`): the token may
      have expired in between, or the signing keys may be unreachable. Each
      login succeeds exactly when its own verification does; when both
      succeed and the token names the same uid both times, they resolve to
      the same id, and together they add at most one user row. */
  method LoginTwice(db: Database, authorization: string, verify1: Verifier, verify2: Verifier, now1: int, now2: int)
    returns (first: Result<int, HttpError>, second: Result<int, HttpError>)
    requires db.Valid()
    modifies db`users, db`nextUserId
    ensures db.Valid()
    ensures ParseBearer(authorization).Err? ==> first == Err(InvalidHeader) && second == Err(InvalidHeader)
    ensures ParseBearer(authorization).Ok? ==>
              var token := ParseBearer(authorization).value;
              (first.Ok? <==> verify1(token).Ok?) && (second.Ok? <==> verify2(token).Ok?)
              && (first.Ok? && second.Ok? && SameHolder(verify1, verify2, token) ==> second == first)
    ensures ParseBearer(authorization).Err? || SameHolder(verify1, verify2, ParseBearer(authorization).value) ==>
              |db.users| <= |old(db.users)| + 1
    ensures |db.users| <= |old(db.users)| + 2
  {
    first := GetCurrentUserId(db, authorization, verify1, now1);
    ghost var usersBetween := db.users;
    if first.Ok? {
      var claims := verify1(ParseBearer(authorization).value).value;
      match FindUser(old(db.users), claims.uid) {
        case Some(k) =>
          FindUserAfterTouch(old(db.users), claims.uid, k, now1);
        case None =>
          FindUserAfterInsert(old(db.users), usersBetween[|old(db.users)|]);
          assert usersBetween == old(db.users) + [usersBetween[|old(db.users)|]];
      }
    }
    second := GetCurrentUserId(db, authorization, verify2, now2);
  }

  /** `register_user` of the main backend. A missing or empty token answers
      400 before any table access. A failed verification, or a database
      failure, answers 401 with the error text and leaves the tables
      unchanged (nothing was committed). Otherwise a known uid gets its
      `last_login` updated and an unknown uid is inserted. */
  method RegisterUser(db: Database, token: Option<string>, verify: Verifier, dbFailure: Option<string>, now: int)
    returns (r: Result<string, HttpError>)
    requires db.Valid()
    modifies db`users, db`nextUserId
    ensures db.Valid()
    ensures (token.None? || token.value == "") ==>
              r == Err(TokenRequired) && db.users == old(db.users) && db.nextUserId == old(db.nextUserId)
    ensures token.Some? && token.value != "" && verify(token.value).Err? ==>
              r == Err(HttpError(401, "Invalid token. " + verify(token.value).error))
              && db.users == old(db.users) && db.nextUserId == old(db.nextUserId)
    ensures token.Some? && token.value != "" && verify(token.value).Ok? && dbFailure.Some? ==>
              r == Err(HttpError(401, "Invalid token. " + dbFailure.value))
              && db.users == old(db.users) && db.nextUserId == old(db.nextUserId)
    ensures token.Some? && token.value != "" && verify(token.value).Ok? && dbFailure.None? ==>
              r == Ok(RegisteredMessage)
              && var claims := verify(token.value).value;
                 match FindUser(old(db.users), claims.uid)
                 case Some(k) =>
                   db.users == old(db.users)[k := old(db.users)[k].(lastLogin := Some(now))]
                   && db.nextUserId == old(db.nextUserId)
                 case None =>
                   db.users == old(db.users) + [UserRow(old(db.nextUserId), claims.uid, EmailOf(claims), None)]
                   && db.nextUserId == old(db.nextUserId) + 1
  {
    if token.None? || token.value == "" {
      return Err(TokenRequired);
    }
    var decoded := verify(token.value);
    if decoded.Err? {
      return Err(HttpError(401, "Invalid token. " + decoded.error));
    }
    if dbFailure.Some? {
      return Err(HttpError(401, "Invalid token. " + dbFailure.value));
    }
    var _ := FindOrCreateUser(db, decoded.value, now, true);
    r := Ok(RegisteredMessage);
  }
}
