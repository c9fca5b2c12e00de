/**
 * The read-only checks of the authentication layer: logging in with a
 * username and password, resolving a bearer access token to a user, and
 * validating a refresh token. Each reads a snapshot of the users table and of
 * the revoked-token table and changes nothing.
 */
module AuthDependencies {
  import opened Common
  import opened Models
  import opened IntText
  import opened Tokens

  /** The password context: `hash` and `verify` of the bcrypt scheme. */
  datatype PasswordContext = PasswordContext(
    hash: string -> string,
    verify: (string, string) -> bool)

  /** A password verifies against the hash made from it. */
  ghost predicate VerifiesOwnHash(ctx: PasswordContext) {
    forall password :: ctx.verify(password, ctx.hash(password))
  }

  /** `__is_revoked`: the token string has a row in the revoked-token table. */
  predicate IsRevoked(revoked: seq<string>, token: string) {
    token in revoked
  }

  /** `__is_expired`: strictly past its expiry time. */
  predicate IsExpired(p: Payload, now: int) {
    p.expiresAt < now
  }

  /** `get_user_id_from_credentials`. */
  function UserIdFromCredentials(
    ctx: PasswordContext, users: seq<User>, username: string, password: string): (r: Result<int>)
    ensures r.Ok? ==> exists u :: u in users && u.username == username && u.id == r.value
                                 && ctx.verify(password, u.hashedPassword)
    ensures (forall u :: u in users ==> u.username != username) ==> r == Err(InvalidCredentials)
    ensures r.Err? ==> r.error == InvalidCredentials
  {
    match FindUserByUsername(users, username)
    case Some(u) =>
      if ctx.verify(password, u.hashedPassword) then Ok(u.id) else Err(InvalidCredentials)
    case None => Err(InvalidCredentials)
  }

  /**
   * Under the unique username constraint, a login succeeds exactly when the
   * stored user of that name verifies the password, and yields that user's id.
   */
  lemma CredentialsAcceptExactlyStoredPairs(
    ctx: PasswordContext, users: seq<User>, u: User, password: string)
    requires UniqueUsernames(users) && u in users
    ensures UserIdFromCredentials(ctx, users, u.username, password) ==
              if ctx.verify(password, u.hashedPassword) then Ok(u.id) else Err(InvalidCredentials)
  {
    FindStoredUserByUsername(users, u);
  }

  /**
   * `authenticate_user_from_token`: revoked, then decode, then expired, then
   * the user lookup. `int(sub)` raising ValueError is not among the caught
   * exceptions, so that outcome stays distinct (SubjectNotInteger).
   */
  function Authenticate(
    cfg: Config, c: Codec, revoked: seq<string>, users: seq<User>, token: string, now: int)
    : (r: Result<User>)
    ensures IsRevoked(revoked, token) ==> r == Err(InvalidToken)
    ensures c.decode(token, cfg.accessKey).None? ==> r == Err(InvalidToken)
    ensures r.Ok? ==>
      && !IsRevoked(revoked, token)
      && c.decode(token, cfg.accessKey).Some?
      && !IsExpired(c.decode(token, cfg.accessKey).value, now)
      && ParseInt(c.decode(token, cfg.accessKey).value.sub) == Some(r.value.id)
      && r.value in users
    ensures r.Ok? <==>
      && !IsRevoked(revoked, token)
      && c.decode(token, cfg.accessKey).Some?
      && !IsExpired(c.decode(token, cfg.accessKey).value, now)
      && ParseInt(c.decode(token, cfg.accessKey).value.sub).Some?
      && exists u :: u in users && Some(u.id) == ParseInt(c.decode(token, cfg.accessKey).value.sub)
    ensures r.Err? ==> r.error == InvalidToken || r.error == SubjectNotInteger
    ensures
      && !IsRevoked(revoked, token)
      && c.decode(token, cfg.accessKey).Some?
      && !IsExpired(c.decode(token, cfg.accessKey).value, now)
      && ParseInt(c.decode(token, cfg.accessKey).value.sub).None?
      ==> r == Err(SubjectNotInteger)
    ensures r == Err(SubjectNotInteger) ==>
      && !IsRevoked(revoked, token)
      && c.decode(token, cfg.accessKey).Some?
      && !IsExpired(c.decode(token, cfg.accessKey).value, now)
      && ParseInt(c.decode(token, cfg.accessKey).value.sub).None?
  {
    if IsRevoked(revoked, token) then Err(InvalidToken)
    else match c.decode(token, cfg.accessKey)
      case None => Err(InvalidToken)
      case Some(payload) =>
        if IsExpired(payload, now) then Err(InvalidToken)
        else match ParseInt(payload.sub)
          case None => Err(SubjectNotInteger)
          case Some(id) =>
            match FindUserById(users, id)
            case None => Err(InvalidToken)
            case Some(user) => Ok(user)
  }

  /** A token naming a user id that no stored user has is rejected. */
  lemma UnknownSubjectRejected(
    cfg: Config, c: Codec, revoked: seq<string>, users: seq<User>, token: string, now: int, id: int)
    requires c.decode(token, cfg.accessKey).Some?
    requires ParseInt(c.decode(token, cfg.accessKey).value.sub) == Some(id)
    requires forall u :: u in users ==> u.id != id
    ensures Authenticate(cfg, c, revoked, users, token, now) == Err(InvalidToken)
  {
  }

  /**
   * Any token that is not revoked, decodes under the access key, has not
   * expired and whose subject names a stored user authenticates as exactly
   * that user.
   */
  lemma AcceptsStoredSubject(
    cfg: Config, c: Codec, revoked: seq<string>, users: seq<User>, token: string, now: int, u: User)
    requires !IsRevoked(revoked, token) && UniqueUserIds(users) && u in users
    requires c.decode(token, cfg.accessKey).Some?
    requires !IsExpired(c.decode(token, cfg.accessKey).value, now)
    requires ParseInt(c.decode(token, cfg.accessKey).value.sub) == Some(u.id)
    ensures Authenticate(cfg, c, revoked, users, token, now) == Ok(u)
  {
    FindStoredUserById(users, u);
  }

  /**
   * Expiry is strict: a token is still accepted at the very second it expires
   * and rejected one second later.
   */
  lemma ExpiryIsStrict(
    cfg: Config, c: Codec, revoked: seq<string>, users: seq<User>, token: string, u: User)
    requires !IsRevoked(revoked, token) && UniqueUserIds(users) && u in users
    requires c.decode(token, cfg.accessKey).Some?
    requires ParseInt(c.decode(token, cfg.accessKey).value.sub) == Some(u.id)
    ensures Authenticate(cfg, c, revoked, users, token,
                         c.decode(token, cfg.accessKey).value.expiresAt) == Ok(u)
    ensures Authenticate(cfg, c, revoked, users, token,
                         c.decode(token, cfg.accessKey).value.expiresAt + 1) == Err(InvalidToken)
  {
    AcceptsStoredSubject(cfg, c, revoked, users, token,
                         c.decode(token, cfg.accessKey).value.expiresAt, u);
  }

  /** A freshly issued access token authenticates as the user it was issued for. */
  lemma IssuedAccessTokenAuthenticates(
    cfg: Config, c: Codec, revoked: seq<string>, users: seq<User>, u: User, issuedAt: int, now: int)
    requires Sound(c) && UniqueUserIds(users) && u in users
    requires Issue(cfg, c, u.id, issuedAt).accessToken !in revoked
    requires now <= Issue(cfg, c, u.id, issuedAt).accessExpiresAt
    ensures Authenticate(cfg, c, revoked, users, Issue(cfg, c, u.id, issuedAt).accessToken, now) == Ok(u)
  {
    IssuedSubjectIsUserId(cfg, c, u.id, issuedAt);
    FindStoredUserById(users, u);
  }

  /** With distinct secrets, a refresh token is never accepted as a bearer access token. */
  lemma RefreshTokenIsNotAnAccessToken(
    cfg: Config, c: Codec, revoked: seq<string>, users: seq<User>, userId: int, issuedAt: int, now: int)
    requires Sound(c) && cfg.accessKey != cfg.refreshKey
    ensures Authenticate(cfg, c, revoked, users, Issue(cfg, c, userId, issuedAt).refreshToken, now)
              == Err(InvalidToken)
  {
    KeysSeparateTokenKinds(cfg, c, userId, issuedAt);
  }

  /** DataFromRefreshToken: both payloads and the refresh token as received. */
  datatype RefreshData = RefreshData(
    accessPayload: Payload,
    refreshPayload: Payload,
    receivedRefreshToken: string)

  /**
   * `get_payload_from_refresh_token`: the refresh token is not revoked,
   * decodes under the refresh key and has not expired; its subject (the old
   * access token) is not revoked and decodes under the access key. The access
   * payload's own expiry is not compared with `now`.
   */
  function ValidateRefresh(
    cfg: Config, c: Codec, revoked: seq<string>, refreshToken: string, now: int)
    : (r: Result<RefreshData>)
    ensures r.Err? ==> r.error == InvalidToken
    ensures IsRevoked(revoked, refreshToken) ==> r.Err?
    ensures c.decode(refreshToken, cfg.refreshKey).None? ==> r.Err?
    ensures r.Ok? <==>
      && !IsRevoked(revoked, refreshToken)
      && c.decode(refreshToken, cfg.refreshKey).Some?
      && !IsExpired(c.decode(refreshToken, cfg.refreshKey).value, now)
      && !IsRevoked(revoked, c.decode(refreshToken, cfg.refreshKey).value.sub)
      && c.decode(c.decode(refreshToken, cfg.refreshKey).value.sub, cfg.accessKey).Some?
    ensures r.Ok? ==>
      && r.value.receivedRefreshToken == refreshToken
      && c.decode(refreshToken, cfg.refreshKey) == Some(r.value.refreshPayload)
      && c.decode(r.value.refreshPayload.sub, cfg.accessKey) == Some(r.value.accessPayload)
  {
    if IsRevoked(revoked, refreshToken) then Err(InvalidToken)
    else match c.decode(refreshToken, cfg.refreshKey)
      case None => Err(InvalidToken)
      case Some(refreshPayload) =>
        if IsExpired(refreshPayload, now) then Err(InvalidToken)
        else if IsRevoked(revoked, refreshPayload.sub) then Err(InvalidToken)
        else match c.decode(refreshPayload.sub, cfg.accessKey)
          case None => Err(InvalidToken)
          case Some(accessPayload) => Ok(RefreshData(accessPayload, refreshPayload, refreshToken))
  }

  /**
   * A pair issued by the service passes refresh validation until the refresh
   * token expires, provided neither token has been revoked, and the embedded
   * access payload names the user the pair was issued for.
   */
  lemma IssuedPairPassesRefreshValidation(
    cfg: Config, c: Codec, revoked: seq<string>, userId: int, issuedAt: int, now: int)
    requires Sound(c)
    requires Issue(cfg, c, userId, issuedAt).refreshToken !in revoked
    requires Issue(cfg, c, userId, issuedAt).accessToken !in revoked
    requires now <= Issue(cfg, c, userId, issuedAt).refreshExpiresAt
    ensures ValidateRefresh(cfg, c, revoked, Issue(cfg, c, userId, issuedAt).refreshToken, now).Ok?
    ensures ParseInt(ValidateRefresh(cfg, c, revoked, Issue(cfg, c, userId, issuedAt).refreshToken, now)
                       .value.accessPayload.sub) == Some(userId)
  {
    IssuedSubjectIsUserId(cfg, c, userId, issuedAt);
  }

  /**
   * Refresh validation never looks at the embedded access token's expiry: once
   * the access token has expired it no longer authenticates, yet its refresh
   * token is still accepted until the refresh token's own expiry.
   */
  lemma RefreshIgnoresAccessExpiry(
    cfg: Config, c: Codec, revoked: seq<string>, users: seq<User>, userId: int, issuedAt: int, now: int)
    requires Sound(c)
    requires Issue(cfg, c, userId, issuedAt).refreshToken !in revoked
    requires Issue(cfg, c, userId, issuedAt).accessToken !in revoked
    requires Issue(cfg, c, userId, issuedAt).accessExpiresAt < now
    requires now <= Issue(cfg, c, userId, issuedAt).refreshExpiresAt
    ensures Authenticate(cfg, c, revoked, users, Issue(cfg, c, userId, issuedAt).accessToken, now)
              == Err(InvalidToken)
    ensures ValidateRefresh(cfg, c, revoked, Issue(cfg, c, userId, issuedAt).refreshToken, now).Ok?
  {
    IssuedPairPassesRefreshValidation(cfg, c, revoked, userId, issuedAt, now);
  }

  /** Revocation is checked before anything else: a revoked string fails both checks under any codec and at any time. */
  lemma RevokedTokenAlwaysRejected(
    cfg: Config, c: Codec, revoked: seq<string>, users: seq<User>, token: string, now: int)
    requires token in revoked
    ensures Authenticate(cfg, c, revoked, users, token, now) == Err(InvalidToken)
    ensures ValidateRefresh(cfg, c, revoked, token, now) == Err(InvalidToken)
  {
  }
}
