/** Which tokens are accepted and when, what a token says, and for how long each marker stands. */
module TokenLaws {
  import opened Sequences
  import opened TokenStore
  import opened Security
  import opened SessionProtocol

  /** A marker that has been written and has not run out. */
  predicate Standing(cache: Cache, k: Key) {
    k in cache.entries && cache.now < cache.entries[k].expiresAt
  }

  predicate Bound(settings: Settings, c: Claims, fingerprint: string) {
    fingerprint == "" || c.fp == Some(settings.digest(fingerprint))
  }

  predicate RevokedWithUser(cache: Cache, c: Claims) {
    Standing(cache, RevokeAfter(c.sub)) && c.iat <= cache.entries[RevokeAfter(c.sub)].value
  }

  /**
   A token of either type is accepted exactly when it is signed, unexpired, has an id, no standing revocation of
   its own or of its user at or after its issue, and matches the fingerprint, if one is given.
   */
  lemma TokenAcceptedIff(settings: Settings, cache: Cache, token: Token, fingerprint: string)
    ensures Verify(settings, cache, token, fingerprint).Ok? <==>
              (&& token.Signed? && cache.now < token.claims.exp as real && token.claims.jti != ""
               && !Standing(cache, Revoked(token.claims.jti)) && !RevokedWithUser(cache, token.claims)
               && Bound(settings, token.claims, fingerprint))
    ensures Verify(settings, cache, token, fingerprint).Ok? ==>
              Verify(settings, cache, token, fingerprint).value == token.claims
  {
  }

  /** A refusal names the first of these conditions that fails. */
  lemma RefusalNamesTheFirstFailure(settings: Settings, cache: Cache, token: Token, fingerprint: string)
    requires Verify(settings, cache, token, fingerprint).Err?
    ensures var e := Verify(settings, cache, token, fingerprint).error;
            && (e == InvalidToken <==> token.Forged? || token.claims.exp as real <= cache.now)
            && (e == MissingJti <==> e != InvalidToken && token.claims.jti == "")
            && (e == TokenRevoked <==> e !in {InvalidToken, MissingJti} && Standing(cache, Revoked(token.claims.jti)))
            && (e == GloballyRevoked <==>
                  e !in {InvalidToken, MissingJti, TokenRevoked} && RevokedWithUser(cache, token.claims))
            && (e == FingerprintMismatch <==> e !in {InvalidToken, MissingJti, TokenRevoked, GloballyRevoked})
  {
  }

  // ---------- what a token says ----------

  /** Both tokens of a pair: subject, whole-second issue time, configured lifetimes, fingerprint, and family on one only. */
  lemma PairSays(
    settings: Settings, cache: Cache, subject: string, familyId: string, fingerprint: string, a: string, r: string)
    ensures var pair := Pair(settings, cache, subject, familyId, fingerprint, a, r);
            && pair.access.sub == subject && pair.refresh.sub == subject
            && pair.access.iat as real <= cache.now < (pair.access.iat + 1) as real
            && pair.refresh.iat == pair.access.iat
            && pair.access.exp - pair.access.iat == 60 * settings.accessMinutes
            && pair.refresh.exp - pair.refresh.iat == 24 * 60 * 60 * settings.refreshDays
            && pair.access.jti == a && pair.refresh.jti == r
            && pair.access.typ == Access && pair.refresh.typ == Refresh
            && pair.access.fid == None && (familyId != "" ==> pair.refresh.fid == Some(familyId))
            && pair.access.fp == pair.refresh.fp
            && pair.access.fp == (if fingerprint == "" then None else Some(settings.digest(fingerprint)))
  {
  }

  // ---------- rotation ----------

  predicate FamilyRefused(cache: Cache, c: Claims) {
    c.fid.Some? && c.fid.value != "" && Standing(cache, FamilyRevoked(c.fid.value))
  }

  /** Which answer a rotation gives to a token that verifies. */
  lemma RotationAnswers(settings: Settings, cache: Cache, token: Token, fingerprint: string, a: string, r: string)
    requires Verify(settings, cache, token, fingerprint).Ok?
    ensures var c, outcome := token.claims, Rotate(settings, cache, token, fingerprint, a, r).outcome;
            && (outcome == Err(NotRefreshToken) <==> c.typ == Access)
            && (outcome == Err(ReuseDetected) <==> c.typ == Refresh && Standing(cache, Used(c.jti)))
            && (outcome == Err(FamilyIsRevoked) <==>
                  c.typ == Refresh && !Standing(cache, Used(c.jti)) && FamilyRefused(cache, c))
            && (outcome.Ok? <==> c.typ == Refresh && !Standing(cache, Used(c.jti)) && !FamilyRefused(cache, c))
  {
    hide Verify;
    TokenAcceptedIff(settings, cache, token, fingerprint);
  }

  lemma RefusedTokenIsNotRotated(settings: Settings, cache: Cache, token: Token, fingerprint: string, a: string, r: string)
    requires Verify(settings, cache, token, fingerprint).Err?
    ensures Rotate(settings, cache, token, fingerprint, a, r)
              == Rotation(cache, Err(Verify(settings, cache, token, fingerprint).error))
  {
  }

  /** A rotated token hands subject, family and the given fingerprint on to both new tokens, issued now. */
  lemma RotationHandsOn(settings: Settings, cache: Cache, token: Token, fingerprint: string, a: string, r: string)
    requires Rotate(settings, cache, token, fingerprint, a, r).outcome.Ok?
    ensures var c, pair := token.claims, Rotate(settings, cache, token, fingerprint, a, r).outcome.value;
            && pair.access.sub == c.sub && pair.refresh.sub == c.sub
            && (c.fid.Some? && c.fid.value != "" ==> pair.refresh.fid == c.fid)
            && pair.access.jti == a && pair.refresh.jti == r
            && pair.access.typ == Access && pair.refresh.typ == Refresh
            && pair.access.fp == pair.refresh.fp
            && pair.access.fp == (if fingerprint == "" then None else Some(settings.digest(fingerprint)))
            && pair.refresh.exp - pair.refresh.iat == 24 * 60 * 60 * settings.refreshDays
            && pair.refresh.iat as real <= cache.now < (pair.refresh.iat + 1) as real
  {
    RotationFacts(settings, cache, token, fingerprint, a, r);
    PairSays(settings, cache, token.claims.sub, FamilyText(token.claims.fid), fingerprint, a, r);
    hide Rotate, Pair;
  }

  /** How long what a rotation writes will stand: until the token expires, or for the lifetime of a refresh token. */
  lemma RotationMarkersStand(settings: Settings, cache: Cache, token: Token, fingerprint: string, a: string, r: string)
    ensures var c, rotation := token.claims, Rotate(settings, cache, token, fingerprint, a, r);
            && (rotation.outcome.Ok? ==>
                  && rotation.cache.entries[Used(c.jti)].expiresAt
                       == cache.now + (c.exp - cache.now.Floor) as real
                  && rotation.cache.entries[Revoked(c.jti)].expiresAt
                       == cache.now + (c.exp - cache.now.Floor) as real)
            && (rotation.outcome == Err(ReuseDetected) && c.fid.Some? && c.fid.value != "" ==>
                  FamilyRevoked(c.fid.value) in rotation.cache.entries
                  && rotation.cache.entries[FamilyRevoked(c.fid.value)].expiresAt
                       == cache.now + (24 * 60 * 60 * settings.refreshDays) as real)
    requires token.Signed?
  {
  }

  // ---------- revoking one token ----------

  /** No action of the run writes the revocation marker of this token. */
  ghost predicate LeavesMarker(run: seq<Action>, jti: string) {
    forall i :: 0 <= i < |run| ==> !WritesMarker(run[i], jti)
  }

  predicate WritesMarker(a: Action, jti: string) {
    || (a.RevokeOne? && a.jti == jti)
    || (a.RotateToken? && a.token.Signed? && a.token.claims.jti == jti)
  }

  predicate SameEntry(c: Cache, d: Cache, k: Key) {
    (k in c.entries <==> k in d.entries) && (k in c.entries ==> c.entries[k] == d.entries[k])
  }

  lemma StepLeavesMarker(settings: Settings, st: State, a: Action, jti: string)
    requires !WritesMarker(a, jti)
    ensures SameEntry(st.cache, Next(settings, st, a).cache, Revoked(jti))
  {
    if a.RotateToken? {
      hide Rotate;
      if Rotate(settings, st.cache, a.token, a.fingerprint, a.accessJti, a.refreshJti).outcome.Ok? {
        RotationFacts(settings, st.cache, a.token, a.fingerprint, a.accessJti, a.refreshJti);
      } else {
        RefusalFacts(settings, st.cache, a.token, a.fingerprint, a.accessJti, a.refreshJti);
      }
    }
  }

  lemma {:induction false} RunLeavesMarker(settings: Settings, st: State, run: seq<Action>, jti: string)
    requires LeavesMarker(run, jti)
    ensures SameEntry(st.cache, Run(settings, st, run).cache, Revoked(jti))
    decreases run
  {
    if run != [] {
      StepLeavesMarker(settings, st, run[0], jti);
      hide Next;
      RunLeavesMarker(settings, Next(settings, st, run[0]), run[1..], jti);
    }
  }

  /** After `revoke_token`, the marker stands for exactly the seconds asked for, one at least, unless it is written again. */
  lemma RevocationStands(settings: Settings, st: State, jti: string, seconds: int, run: seq<Action>)
    requires LeavesMarker(run, jti)
    ensures var later := Run(settings, Next(settings, st, RevokeOne(jti, seconds)), run);
            Standing(later.cache, Revoked(jti)) <==>
              later.cache.now < st.cache.now + (if seconds <= 0 then 1 else seconds) as real
  {
    RunLeavesMarker(settings, Next(settings, st, RevokeOne(jti, seconds)), run, jti);
  }

  /** So for that long a token with this id, of either type, is refused whatever else is done. */
  lemma RevokedTokenIsRefused(
    settings: Settings, st: State, c: Claims, seconds: int, run: seq<Action>, fingerprint: string)
    requires LeavesMarker(run, c.jti)
    requires Run(settings, Next(settings, st, RevokeOne(c.jti, seconds)), run).cache.now
               < st.cache.now + (if seconds <= 0 then 1 else seconds) as real
    ensures Verify(settings, Run(settings, Next(settings, st, RevokeOne(c.jti, seconds)), run).cache,
                   Signed(c), fingerprint).Err?
  {
    hide Verify, Next;
    RevocationStands(settings, st, c.jti, seconds, run);
    TokenAcceptedIff(settings, Run(settings, Next(settings, st, RevokeOne(c.jti, seconds)), run).cache, Signed(c), fingerprint);
  }
}
