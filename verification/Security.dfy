/** Issuing, verifying, rotating and revoking session tokens. */
module Security {
  import opened Sequences
  import opened TokenStore

  const NINETY_DAYS: int := 60 * 60 * 24 * 90

  // ---------- the protocol as functions of the store ----------

  /** The empty string stands for an absent family or fingerprint, as truthiness does. */
  function BuildClaims(
    settings: Settings, cache: Cache, subject: string, typ: TokenType, familyId: string, fingerprint: string,
    jti: string): Claims
  {
    var iat := cache.Timestamp();
    Claims(subject, iat, iat + settings.Ttl(typ), jti, typ,
           if familyId != "" then Some(familyId) else None,
           if fingerprint != "" then Some(settings.digest(fingerprint)) else None)
  }

  function Pair(
    settings: Settings, cache: Cache, subject: string, familyId: string, fingerprint: string,
    accessJti: string, refreshJti: string): TokenPair
  {
    TokenPair(BuildClaims(settings, cache, subject, Access, "", fingerprint, accessJti),
              BuildClaims(settings, cache, subject, Refresh, familyId, fingerprint, refreshJti))
  }

  /** Section 4.1.4 of RFC 7519: a token is not accepted on or after its expiration time. */
  function Decode(cache: Cache, token: Token): Result<Claims, AuthError> {
    if token.Forged? || token.claims.exp as real <= cache.now then Err(InvalidToken) else Ok(token.claims)
  }

  function Verify(settings: Settings, cache: Cache, token: Token, fingerprint: string): Result<Claims, AuthError> {
    var decoded := Decode(cache, token);
    if decoded.Err? then decoded
    else
      var c := decoded.value;
      var after := cache.Get(RevokeAfter(c.sub));
      if c.jti == "" then Err(MissingJti)
      else if cache.Exists(Revoked(c.jti)) then Err(TokenRevoked)
      else if after.Some? && c.iat <= after.value then Err(GloballyRevoked)
      else if fingerprint != "" && c.fp != Some(settings.digest(fingerprint)) then Err(FingerprintMismatch)
      else Ok(c)
  }

  function AtLeastOne(n: int): int {
    if n <= 0 then 1 else n
  }

  function Revoke(cache: Cache, jti: string, expiresIn: int): Cache {
    cache.Put(Revoked(jti), 1, AtLeastOne(expiresIn))
  }

  function RevokeAll(cache: Cache, user: string): Cache {
    cache.Put(RevokeAfter(user), cache.Timestamp(), NINETY_DAYS)
  }

  /** `str(family_id)` of a missing family is the word "None". */
  function FamilyText(fid: Option<string>): string {
    if fid.Some? then fid.value else "None"
  }

  predicate Truthy(fid: Option<string>) {
    fid.Some? && fid.value != ""
  }

  datatype Rotation = Rotation(cache: Cache, outcome: Result<TokenPair, AuthError>)

  function Rotate(
    settings: Settings, cache: Cache, token: Token, fingerprint: string, accessJti: string, refreshJti: string): Rotation
  {
    var verified := Verify(settings, cache, token, fingerprint);
    if verified.Err? then Rotation(cache, Err(verified.error))
    else
      var c := verified.value;
      if c.typ != Refresh then Rotation(cache, Err(NotRefreshToken))
      else if cache.Exists(Used(c.jti)) then
        Rotation(if Truthy(c.fid) then cache.Put(FamilyRevoked(c.fid.value), 1, settings.RefreshTtl()) else cache,
                 Err(ReuseDetected))
      else if Truthy(c.fid) && cache.Exists(FamilyRevoked(c.fid.value)) then Rotation(cache, Err(FamilyIsRevoked))
      else
        var ttl := AtLeastOne(c.exp - cache.Timestamp());
        Rotation(Revoke(cache.Put(Used(c.jti), 1, ttl), c.jti, ttl),
                 Ok(Pair(settings, cache, c.sub, FamilyText(c.fid), fingerprint, accessJti, refreshJti)))
  }

  // ---------- the operations on the shared store ----------

  method VerifyToken(redis: Redis, settings: Settings, token: Token, fingerprint: string)
    returns (r: Result<Claims, AuthError>)
    ensures r == Verify(settings, redis.View(), token, fingerprint)
  {
    r := Decode(redis.View(), token);
    if r.Err? {
      return;
    }
    var payload := r.value;
    if payload.jti == "" {
      return Err(MissingJti);
    }
    var revoked := redis.Exists(Revoked(payload.jti));
    if revoked {
      return Err(TokenRevoked);
    }
    var revokeAfter := redis.Get(RevokeAfter(payload.sub));
    if revokeAfter.Some? && payload.iat <= revokeAfter.value {
      return Err(GloballyRevoked);
    }
    if fingerprint != "" {
      if payload.fp != Some(settings.digest(fingerprint)) {
        return Err(FingerprintMismatch);
      }
    }
    return Ok(payload);
  }

  method RevokeToken(redis: Redis, jti: string, expiresIn: int)
    modifies redis`entries
    ensures redis.View() == Revoke(old(redis.View()), jti, expiresIn)
  {
    var seconds := expiresIn;
    if seconds <= 0 {
      seconds := 1;
    }
    redis.Set(Revoked(jti), 1, seconds);
  }

  method RevokeAllUserTokens(redis: Redis, user: string)
    modifies redis`entries
    ensures redis.View() == RevokeAll(old(redis.View()), user)
  {
    redis.Set(RevokeAfter(user), redis.View().Timestamp(), NINETY_DAYS);
  }

  /** The identifiers are the fresh uuids the call draws. */
  method RotateRefreshToken(
    redis: Redis, settings: Settings, token: Token, fingerprint: string, accessJti: string, refreshJti: string)
    returns (r: Result<TokenPair, AuthError>)
    modifies redis`entries
    ensures Rotation(redis.View(), r) == Rotate(settings, old(redis.View()), token, fingerprint, accessJti, refreshJti)
  {
    var verified := VerifyToken(redis, settings, token, fingerprint);
    if verified.Err? {
      return Err(verified.error);
    }
    var payload := verified.value;
    if payload.typ != Refresh {
      return Err(NotRefreshToken);
    }
    var used := redis.Exists(Used(payload.jti));
    if used {
      if Truthy(payload.fid) {
        redis.Set(FamilyRevoked(payload.fid.value), 1, settings.RefreshTtl());
      }
      return Err(ReuseDetected);
    }
    if Truthy(payload.fid) {
      var familyRevoked := redis.Exists(FamilyRevoked(payload.fid.value));
      if familyRevoked {
        return Err(FamilyIsRevoked);
      }
    }
    var ttl := AtLeastOne(payload.exp - redis.View().Timestamp());
    redis.Set(Used(payload.jti), 1, ttl);
    RevokeToken(redis, payload.jti, ttl);
    var family := FamilyText(payload.fid);
    r := Ok(Pair(settings, redis.View(), payload.sub, family, fingerprint, accessJti, refreshJti));
  }

  method CreateTokenPair(
    redis: Redis, settings: Settings, subject: string, fingerprint: string,
    familyId: string, accessJti: string, refreshJti: string) returns (pair: TokenPair)
    requires familyId != ""
    ensures pair == Pair(settings, redis.View(), subject, familyId, fingerprint, accessJti, refreshJti)
    ensures pair.refresh.fid == Some(familyId) && pair.access.fid.None?
    ensures pair.access.sub == pair.refresh.sub == subject && pair.access.fp == pair.refresh.fp
  {
    var access := BuildClaims(settings, redis.View(), subject, Access, "", fingerprint, accessJti);
    var refresh := BuildClaims(settings, redis.View(), subject, Refresh, familyId, fingerprint, refreshJti);
    pair := TokenPair(access, refresh);
  }
}
