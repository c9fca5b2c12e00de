/**
 * The database the operations change in place: the users, events and
 * revoked-token tables and the enrollment relation. Revoking a token,
 * rotating a refresh token, registering a user and creating an event are
 * methods that append rows; nothing here deletes a revoked token.
 */
module Store {
  import opened Common
  import opened Models
  import opened IntText
  import opened Tokens
  import opened AuthDependencies
  import opened UserSchemas
  import opened EventSchemas
  import opened Authorizers

  /** The number of rows holding `token`. */
  function Count(rows: seq<string>, token: string): nat {
    if rows == [] then 0 else (if rows[0] == token then 1 else 0) + Count(rows[1..], token)
  }

  /** The unique constraint on revoked_tokens.hash. */
  ghost predicate NoDuplicates(rows: seq<string>) {
    forall i, j :: 0 <= i < j < |rows| ==> rows[i] != rows[j]
  }

  /** Under the unique constraint, a revoked token has exactly one row. */
  lemma {:induction false} CountOfStoredToken(rows: seq<string>, token: string)
    requires NoDuplicates(rows) && token in rows
    ensures Count(rows, token) == 1
  {
    if rows[0] == token {
      assert token !in rows[1..] by {
        forall k | 0 <= k < |rows| - 1 ensures rows[1..][k] != token {
          assert rows[1..][k] == rows[k + 1];
        }
      }
      CountAbsent(rows[1..], token);
    } else {
      assert token in rows[1..] by {
        var k :| 0 <= k < |rows| && rows[k] == token;
        assert rows[1..][k - 1] == token;
      }
      assert NoDuplicates(rows[1..]) by {
        forall i, j | 0 <= i < j < |rows| - 1 ensures rows[1..][i] != rows[1..][j] {
          assert rows[1..][i] == rows[i + 1] && rows[1..][j] == rows[j + 1];
        }
      }
      CountOfStoredToken(rows[1..], token);
    }
  }

  /** A token with no row is counted zero times. */
  lemma {:induction false} CountAbsent(rows: seq<string>, token: string)
    requires token !in rows
    ensures Count(rows, token) == 0
  {
    if rows != [] {
      assert rows[0] != token;
      assert token !in rows[1..] by {
        forall k | 0 <= k < |rows| - 1 ensures rows[1..][k] != token {
          assert rows[1..][k] == rows[k + 1];
        }
      }
      CountAbsent(rows[1..], token);
    }
  }

  class Database {
    var users: seq<User>
    var events: seq<Event>
    var enrollments: Enrollments
    var revoked: seq<string>
    /** The next values of the users and events id sequences. */
    var nextUserId: int
    var nextEventId: int

    /**
     * The table constraints: unique user ids and usernames, unique event ids,
     * ids below their sequence's next value, unique revoked tokens, and every
     * event owned by a stored organizer.
     */
    ghost predicate Valid()
      reads this
    {
      && UniqueUserIds(users) && UniqueUsernames(users)
      && (forall u :: u in users ==> u.id < nextUserId)
      && UniqueEventIds(events)
      && (forall e :: e in events ==> e.id < nextEventId)
      && (forall e :: e in events ==> exists u :: u in users && u.id == e.organizerId && u.role == Organizer)
      && NoDuplicates(revoked)
    }

    /** An empty database. */
    constructor ()
      ensures Valid()
      ensures users == [] && events == [] && enrollments == {} && revoked == []
    {
      users, events, enrollments, revoked := [], [], {}, [];
      nextUserId, nextEventId := 1, 1;
    }

    /**
     * `revoke_token` behind `validate_token_revoke`: a token that already has
     * a row is left alone; otherwise one row is added. Either way the token
     * ends up with exactly one row.
     */
    method RevokeToken(token: string)
      requires Valid()
      modifies this`revoked
      ensures Valid()
      ensures revoked == if token in old(revoked) then old(revoked) else old(revoked) + [token]
      ensures Count(revoked, token) == 1
    {
      if token in revoked {
        CountOfStoredToken(revoked, token);
        return;
      }
      revoked := revoked + [token];
      assert NoDuplicates(revoked) by {
        forall i, j | 0 <= i < j < |revoked| ensures revoked[i] != revoked[j] {
          if j == |revoked| - 1 {
            assert revoked[i] in old(revoked);
          }
        }
      }
      CountOfStoredToken(revoked, token);
    }

    /**
     * `refresh_token`: validate the presented refresh token, revoke the old
     * access token it embeds and the refresh token itself, and issue a new pair
     * for the user id in the old access payload. If that id is not an integer,
     * `int()` raises before the commit and the two new rows are rolled back.
     */
    method RefreshToken(cfg: Config, c: Codec, refreshToken: string, now: int)
      returns (r: Result<TokenPair>)
      requires Valid()
      modifies this`revoked
      ensures Valid()
      ensures ValidateRefresh(cfg, c, old(revoked), refreshToken, now).Err? ==>
        r == Err(InvalidToken) && revoked == old(revoked)
      ensures ValidateRefresh(cfg, c, old(revoked), refreshToken, now).Ok? ==>
        var data := ValidateRefresh(cfg, c, old(revoked), refreshToken, now).value;
        var oldAccessToken := data.refreshPayload.sub;
        match ParseInt(data.accessPayload.sub)
        case None => r == Err(SubjectNotInteger) && revoked == old(revoked)
        case Some(userId) =>
          && r == Ok(Issue(cfg, c, userId, now))
          && revoked == old(revoked) + [oldAccessToken]
                        + (if refreshToken == oldAccessToken then [] else [refreshToken])
      ensures old(revoked) <= revoked
      ensures r.Ok? ==> refreshToken in revoked && refreshToken !in old(revoked)
    {
      var validated := ValidateRefresh(cfg, c, revoked, refreshToken, now);
      if validated.Err? {
        return Err(validated.error);
      }
      var data := validated.value;
      var before := revoked;
      RevokeToken(data.refreshPayload.sub);
      RevokeToken(data.receivedRefreshToken);
      var userId := ParseInt(data.accessPayload.sub);
      if userId.None? {
        revoked := before;
        return Err(SubjectNotInteger);
      }
      r := Ok(Issue(cfg, c, userId.value, now));
    }

    /**
     * `create_user` behind `validate_user_create`: a taken username is refused
     * and nothing is written; otherwise one user row is added, holding the
     * hash of the password, and returned.
     */
    method CreateUser(ctx: PasswordContext, params: CreateUserParams) returns (r: Result<User>)
      requires Valid()
      modifies this`users, this`nextUserId
      ensures Valid()
      ensures FindUserByUsername(old(users), params.username).Some? ==>
        r == Err(UsernameAlreadyExists) && users == old(users) && nextUserId == old(nextUserId)
      ensures FindUserByUsername(old(users), params.username).None? ==>
        && r == Ok(User(old(nextUserId), params.username, ctx.hash(params.password), params.role))
        && users == old(users) + [r.value]
        && nextUserId == old(nextUserId) + 1
    {
      if FindUserByUsername(users, params.username).Some? {
        return Err(UsernameAlreadyExists);
      }
      var user := User(nextUserId, params.username, ctx.hash(params.password), params.role);
      users := users + [user];
      nextUserId := nextUserId + 1;
      assert UniqueUserIds(users) && UniqueUsernames(users) by {
        forall i, j | 0 <= i < j < |users|
          ensures users[i].id != users[j].id && users[i].username != users[j].username
        {
          if j == |users| - 1 {
            assert users[i] in old(users);
          }
        }
      }
      assert forall e :: e in events ==> exists u :: u in users && u.id == e.organizerId && u.role == Organizer by {
        forall e | e in events
          ensures exists u :: u in users && u.id == e.organizerId && u.role == Organizer
        {
          var u :| u in old(users) && u.id == e.organizerId && u.role == Organizer;
          assert u in users;
        }
      }
      r := Ok(user);
    }

    /**
     * `create_event` behind the organizer-role check: a participant is refused
     * and nothing is written; otherwise one event row is added, owned by the
     * current user, with the fields copied from the request, and returned.
     */
    method CreateEvent(currentUser: User, params: CreateEventParams) returns (r: Result<Event>)
      requires Valid() && currentUser in users
      modifies this`events, this`nextEventId
      ensures Valid()
      ensures currentUser.role != Organizer ==>
        r == Err(UserNotOrganizer) && events == old(events) && nextEventId == old(nextEventId)
      ensures currentUser.role == Organizer ==>
        && r == Ok(Event(old(nextEventId), params.title, params.description, params.price,
                         params.maxCapacity, params.eventDate, currentUser.id))
        && events == old(events) + [r.value]
        && nextEventId == old(nextEventId) + 1
    {
      var guard := CurrentUserIsOrganizer(currentUser);
      if guard.Fail? {
        return Err(guard.error);
      }
      var event := Event(nextEventId, params.title, params.description, params.price,
                         params.maxCapacity, params.eventDate, currentUser.id);
      events := events + [event];
      nextEventId := nextEventId + 1;
      assert UniqueEventIds(events) by {
        forall i, j | 0 <= i < j < |events| ensures events[i].id != events[j].id {
          if j == |events| - 1 {
            assert events[i] in old(events);
          }
        }
      }
      r := Ok(event);
    }
  }

  /** Revoking the same token twice leaves exactly one row for it, and the second call writes nothing. */
  method RevokeTwice(db: Database, token: string)
    requires db.Valid()
    modifies db`revoked
    ensures db.Valid()
    ensures db.revoked == if token in old(db.revoked) then old(db.revoked) else old(db.revoked) + [token]
    ensures Count(db.revoked, token) == 1
  {
    db.RevokeToken(token);
    ghost var afterFirst := db.revoked;
    db.RevokeToken(token);
    assert db.revoked == afterFirst;
  }

  /** A refresh token is single-use: once it has been redeemed, presenting it again fails. */
  method RefreshTwice(db: Database, cfg: Config, c: Codec, refreshToken: string, now: int, later: int)
    returns (first: Result<TokenPair>, second: Result<TokenPair>)
    requires db.Valid()
    modifies db`revoked
    ensures first.Ok? ==> second == Err(InvalidToken)
  {
    first := db.RefreshToken(cfg, c, refreshToken, now);
    second := db.RefreshToken(cfg, c, refreshToken, later);
  }

  /**
   * Once a string is in the revoked table it stays rejected: after any further
   * rows are appended it neither authenticates nor passes refresh validation.
   */
  lemma RevocationIsPermanent(
    cfg: Config, c: Codec, revoked: seq<string>, more: seq<string>, users: seq<User>, token: string, now: int)
    requires token in revoked
    ensures Authenticate(cfg, c, revoked + more, users, token, now) == Err(InvalidToken)
    ensures ValidateRefresh(cfg, c, revoked + more, token, now) == Err(InvalidToken)
  {
    RevokedTokenAlwaysRejected(cfg, c, revoked + more, users, token, now);
  }

  /** The presented refresh token passes validation and its old access token names user `id`. */
  ghost predicate RefreshesFor(cfg: Config, c: Codec, revoked: seq<string>, refreshToken: string, now: int, id: int) {
    && ValidateRefresh(cfg, c, revoked, refreshToken, now).Ok?
    && ParseInt(ValidateRefresh(cfg, c, revoked, refreshToken, now).value.accessPayload.sub) == Some(id)
  }

  /**
   * Rotating a refresh token and then presenting the new access token: the
   * new access token authenticates as the stored user the old pair was
   * issued for, as long as the new string is not itself already revoked.
   */
  method RefreshThenAuthenticate(db: Database, cfg: Config, c: Codec, refreshToken: string, now: int)
    returns (pair: Result<TokenPair>, user: Result<User>)
    requires db.Valid() && Sound(c) && cfg.accessTtlMinutes >= 0
    modifies db`revoked
    ensures db.Valid()
    ensures pair.Ok? <==> exists id :: RefreshesFor(cfg, c, old(db.revoked), refreshToken, now, id)
    ensures pair.Ok? && pair.value.accessToken !in db.revoked ==>
      forall u :: u in db.users && RefreshesFor(cfg, c, old(db.revoked), refreshToken, now, u.id) ==>
        user == Ok(u)
  {
    ghost var validated := ValidateRefresh(cfg, c, db.revoked, refreshToken, now);
    pair := db.RefreshToken(cfg, c, refreshToken, now);
    if validated.Ok? && ParseInt(validated.value.accessPayload.sub).Some? {
      assert RefreshesFor(cfg, c, old(db.revoked), refreshToken, now,
                          ParseInt(validated.value.accessPayload.sub).value);
    }
    if pair.Err? {
      user := Err(pair.error);
      return;
    }
    user := Authenticate(cfg, c, db.revoked, db.users, pair.value.accessToken, now);
    forall u | u in db.users && RefreshesFor(cfg, c, old(db.revoked), refreshToken, now, u.id)
                 && pair.value.accessToken !in db.revoked
      ensures user == Ok(u)
    {
      IssuedAccessTokenAuthenticates(cfg, c, db.revoked, db.users, u, now, now);
    }
  }

  /** A user just registered can log in with the password given at registration. */
  lemma {:induction false} RegisteredUserCanLogIn(
    ctx: PasswordContext, users: seq<User>, u: User, password: string)
    requires VerifiesOwnHash(ctx)
    requires forall v :: v in users ==> v.username != u.username
    requires u.hashedPassword == ctx.hash(password)
    ensures UserIdFromCredentials(ctx, users + [u], u.username, password) == Ok(u.id)
  {
    FindUserByUsernameAppend(users, u, u.username);
  }

  /** An event just created is found by its id and passes its creator's ownership check. */
  lemma CreatedEventIsOwnedByCreator(events: seq<Event>, creator: User, e: Event)
    requires forall x :: x in events ==> x.id != e.id
    requires e.organizerId == creator.id && creator.role == Organizer
    ensures GetEventById(events + [e], e.id) == Ok(e)
    ensures OwnEventChecks(events + [e], creator, e.id) == Ok(e)
  {
    FindEventByIdAppend(events, e, e.id);
  }
}
