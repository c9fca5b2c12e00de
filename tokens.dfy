/**
 * The token codec and the issuing of an access/refresh pair
 * (`generate_jtw_data`). Signing is abstract: a codec encodes a payload under
 * a secret key and decodes a string under a key, yielding the payload or
 * failing. Time is an integer count of seconds.
 */
module Tokens {
  import opened Common
  import opened IntText

  /** RepresentPayload: the expiry time and the subject of a token. */
  datatype Payload = Payload(expiresAt: int, sub: string)

  /** `jwt.encode(payload, key)` and `jwt.decode(token, key)`; a failed decode is None. */
  datatype Codec = Codec(
    encode: (Payload, string) -> string,
    decode: (string, string) -> Option<Payload>)

  /**
   * What the signature scheme guarantees: a token decodes, under the key that
   * signed it, to the payload it was made from, and fails under any other key.
   */
  ghost predicate Sound(c: Codec) {
    && (forall p, key :: c.decode(c.encode(p, key), key) == Some(p))
    && (forall p, key, other :: key != other ==> c.decode(c.encode(p, key), other) == None)
  }

  /** The two secrets and the two lifetimes, in minutes. */
  datatype Config = Config(
    accessKey: string,
    refreshKey: string,
    accessTtlMinutes: int,
    refreshTtlMinutes: int)

  /** RepresentJWT: the two tokens and their expiry times. */
  datatype TokenPair = TokenPair(
    accessToken: string,
    accessExpiresAt: int,
    refreshToken: string,
    refreshExpiresAt: int)

  /** `_create_payload`: the subject and an expiry `minutes` after `now`. */
  function CreatePayload(subject: string, minutes: int, now: int): (p: Payload)
    ensures p.sub == subject && p.expiresAt - now == 60 * minutes
  {
    Payload(now + 60 * minutes, subject)
  }

  /**
   * `generate_jtw_data`: an access token whose subject is the user id, and a
   * refresh token whose subject is that access-token string itself.
   */
  function Issue(cfg: Config, c: Codec, userId: int, now: int): (r: TokenPair)
    ensures r.accessExpiresAt == now + 60 * cfg.accessTtlMinutes
    ensures r.refreshExpiresAt == now + 60 * cfg.refreshTtlMinutes
    ensures Sound(c) ==>
      c.decode(r.accessToken, cfg.accessKey) == Some(Payload(r.accessExpiresAt, ShowInt(userId)))
    ensures Sound(c) ==>
      c.decode(r.refreshToken, cfg.refreshKey) == Some(Payload(r.refreshExpiresAt, r.accessToken))
  {
    var accessPayload := CreatePayload(ShowInt(userId), cfg.accessTtlMinutes, now);
    var accessToken := c.encode(accessPayload, cfg.accessKey);
    var refreshPayload := CreatePayload(accessToken, cfg.refreshTtlMinutes, now);
    var refreshToken := c.encode(refreshPayload, cfg.refreshKey);
    TokenPair(accessToken, accessPayload.expiresAt, refreshToken, refreshPayload.expiresAt)
  }

  /** The subject of an issued access token reads back, with `int(sub)`, as the user id. */
  lemma IssuedSubjectIsUserId(cfg: Config, c: Codec, userId: int, now: int)
    requires Sound(c)
    ensures c.decode(Issue(cfg, c, userId, now).accessToken, cfg.accessKey).Some?
    ensures ParseInt(c.decode(Issue(cfg, c, userId, now).accessToken, cfg.accessKey).value.sub)
              == Some(userId)
  {
    ParseShow(userId);
  }

  /** With distinct secrets, neither token of a pair decodes under the other token's key. */
  lemma KeysSeparateTokenKinds(cfg: Config, c: Codec, userId: int, now: int)
    requires Sound(c) && cfg.accessKey != cfg.refreshKey
    ensures c.decode(Issue(cfg, c, userId, now).refreshToken, cfg.accessKey).None?
    ensures c.decode(Issue(cfg, c, userId, now).accessToken, cfg.refreshKey).None?
  {
  }
}
