/** The registration endpoint of the older backend: the same token check
    as the main backend, but an existing user is left as it is (no
    `last_login` update). */
module LegacyAuthRoutes {
  import opened Common
  import opened Db
  import opened AuthRoutes

  /** `register_user` of the older backend. A missing or empty token
      answers 400; a failed verification or database failure answers 401
      with the error text and changes nothing; otherwise the user is
      inserted only when its uid is unknown. */
  method RegisterUser(db: Database, token: Option<string>, verify: Verifier, dbFailure: Option<string>)
    returns (r: Result<string, HttpError>)
    requires db.Valid()
    modifies db`users, db`nextUserId
    ensures db.Valid()
    ensures (token.None? || token.value == "") ==>
              r == Err(TokenRequired) && db.users == old(db.users) && db.nextUserId == old(db.nextUserId)
    ensures token.Some? && token.value != "" && verify(token.value).Err? ==>
              r == Err(HttpError(401, "Invalid token. " + verify(token.value).error))
              && db.users == old(db.users) && db.nextUserId == old(db.nextUserId)
    ensures token.Some? && token.value != "" && verify(token.value).Ok? && dbFailure.Some? ==>
              r == Err(HttpError(401, "Invalid token. " + dbFailure.value))
              && db.users == old(db.users) && db.nextUserId == old(db.nextUserId)
    ensures token.Some? && token.value != "" && verify(token.value).Ok? && dbFailure.None? ==>
              r == Ok(RegisteredMessage)
              && var claims := verify(token.value).value;
                 if FindUser(old(db.users), claims.uid).Some? then
                   db.users == old(db.users) && db.nextUserId == old(db.nextUserId)
                 else
                   db.users == old(db.users) + [UserRow(old(db.nextUserId), claims.uid, EmailOf(claims), None)]
                   && db.nextUserId == old(db.nextUserId) + 1
  {
    if token.None? || token.value == "" {
      return Err(TokenRequired);
    }
    var decoded := verify(token.value);
    if decoded.Err? {
      return Err(HttpError(401, "Invalid token. " + decoded.error));
    }
    if dbFailure.Some? {
      return Err(HttpError(401, "Invalid token. " + dbFailure.value));
    }
    var _ := FindOrCreateUser(db, decoded.value, 0, false);
    r := Ok(RegisteredMessage);
  }

  /** Registering twice with the same token. Verification and the database
      may behave differently at the two calls (`verify1`/`failure1` and
      `verify2`/`failure2`). Each registration succeeds exactly when the
      token is non-empty and its own verification and database access
      succeed. After a successful first registration, a second one that
      fails or names the same uid (`SameHolder`) leaves exactly the users
      table the first produced: the old table, plus the new user when the
      uid was unknown. */
  method RegisterTwice(db: Database, token: string, verify1: Verifier, failure1: Option<string>,
                       verify2: Verifier, failure2: Option<string>)
    returns (first: Result<string, HttpError>, second: Result<string, HttpError>)
    requires db.Valid()
    modifies db`users, db`nextUserId
    ensures db.Valid()
    ensures first.Ok? <==> token != "" && verify1(token).Ok? && failure1.None?
    ensures second.Ok? <==> token != "" && verify2(token).Ok? && failure2.None?
    ensures first.Ok? && second.Ok? ==> first == second
    ensures token != "" && verify1(token).Ok? && failure1.None? && SameHolder(verify1, verify2, token) ==>
              var claims := verify1(token).value;
              db.users == (if FindUser(old(db.users), claims.uid).Some? then old(db.users)
                           else old(db.users) + [UserRow(old(db.nextUserId), claims.uid, EmailOf(claims), None)])
    ensures SameHolder(verify1, verify2, token) ==> |db.users| <= |old(db.users)| + 1
    ensures |db.users| <= |old(db.users)| + 2
  {
    first := RegisterUser(db, Some(token), verify1, failure1);
    ghost var between := db.users;
    if first.Ok? {
      var claims := verify1(token).value;
      if FindUser(old(db.users), claims.uid).None? {
        FindUserAfterInsert(old(db.users), between[|old(db.users)|]);
        assert between == old(db.users) + [between[|old(db.users)|]];
      }
    }
    second := RegisterUser(db, Some(token), verify2, failure2);
  }
}
