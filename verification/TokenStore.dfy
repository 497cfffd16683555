/** The expiring key store behind the session protocol, and the claims its tokens carry. */
module TokenStore {
  import opened Sequences

  datatype Key =
    | Revoked(jti: string)            // jwt:revoked:{jti}
    | RevokeAfter(user: string)       // jwt:user:revoke_after:{user_id}
    | Used(jti: string)               // jwt:refresh:used:{jti}
    | FamilyRevoked(fid: string)      // jwt:refresh:family:revoked:{family_id}

  datatype Entry = Entry(value: int, expiresAt: real)

  /** The store at one moment: an entry exists until its expiry time. */
  datatype Cache = Cache(now: real, entries: map<Key, Entry>) {
    predicate Exists(k: Key) {
      k in entries && now < entries[k].expiresAt
    }

    function Get(k: Key): Option<int> {
      if Exists(k) then Some(entries[k].value) else None
    }

    /** `SET k value EX seconds` */
    function Put(k: Key, value: int, seconds: int): Cache {
      this.(entries := entries[k := Entry(value, now + seconds as real)])
    }

    /** `int(datetime.now(timezone.utc).timestamp())` */
    function Timestamp(): int {
      now.Floor
    }
  }

  /** The shared store object; its clock is the wall clock. */
  class Redis {
    var now: real
    var entries: map<Key, Entry>

    constructor (now: real)
      ensures View() == Cache(now, map[])
    {
      this.now, entries := now, map[];
    }

    function View(): Cache
      reads this
    {
      Cache(now, entries)
    }

    method Exists(k: Key) returns (found: bool)
      ensures found == View().Exists(k)
    {
      found := k in entries && now < entries[k].expiresAt;
    }

    method Get(k: Key) returns (value: Option<int>)
      ensures value == View().Get(k)
    {
      if k in entries && now < entries[k].expiresAt {
        value := Some(entries[k].value);
      } else {
        value := None;
      }
    }

    method Set(k: Key, value: int, seconds: int)
      modifies this`entries
      ensures View() == old(View()).Put(k, value, seconds)
    {
      entries := entries[k := Entry(value, now + seconds as real)];
    }
  }

  datatype TokenType = Access | Refresh

  datatype Claims = Claims(
    sub: string, iat: int, exp: int, jti: string, typ: TokenType, fid: Option<string>, fp: Option<string>)

  /** A bearer token: claims the service has signed, or anything else. */
  datatype Token = Signed(claims: Claims) | Forged

  datatype TokenPair = TokenPair(access: Claims, refresh: Claims)

  datatype AuthError =
    | InvalidToken | MissingJti | TokenRevoked | GloballyRevoked | FingerprintMismatch
    | NotRefreshToken | ReuseDetected | FamilyIsRevoked

  /** Configured lifetimes and the fingerprint digest. */
  datatype Settings = Settings(accessMinutes: int, refreshDays: int, digest: string -> string) {
    predicate Valid() {
      accessMinutes > 0 && refreshDays > 0
    }

    function AccessTtl(): int {
      60 * accessMinutes
    }

    function RefreshTtl(): int {
      86400 * refreshDays
    }

    function Ttl(typ: TokenType): int {
      if typ == Access then AccessTtl() else RefreshTtl()
    }
  }
}
