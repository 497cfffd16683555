/**
 Every serial run of the session protocol: issuing, rotating, revoking one token for any time,
 revoking all tokens of a user, and the passing of time. The state keeps the history the service
 itself does not: the tokens minted, the rotations that succeeded, and the revocations asked for.
 Identifiers are uuids, taken to be fresh; tokens cannot be forged.
 */
module SessionProtocol {
  import opened Sequences
  import opened TokenStore
  import opened Security

  datatype State = State(
    cache: Cache,
    minted: seq<Claims>,         // every token ever issued, in order
    rotated: seq<string>,        // jti of every successful rotation, in order
    burned: set<string>,         // families in which a replay was detected
    banned: map<string, int>)    // users revoked, with the time of the last revocation

  datatype Action =
    | Issue(subject: string, fingerprint: string, familyId: string, accessJti: string, refreshJti: string)
    | RotateToken(token: Token, fingerprint: string, accessJti: string, refreshJti: string)
    | RevokeOne(jti: string, expiresIn: int)
    | RevokeUser(user: string)
    | Wait(seconds: real)

  ghost predicate Fresh(st: State, jti: string) {
    jti != "" && forall c :: c in st.minted ==> c.jti != jti
  }

  ghost predicate FreshFamily(st: State, fid: string) {
    fid != "" && forall c :: c in st.minted ==> c.fid != Some(fid)
  }

  ghost predicate Enabled(st: State, a: Action) {
    match a
    case Issue(_, _, familyId, accessJti, refreshJti) =>
      Fresh(st, accessJti) && Fresh(st, refreshJti) && accessJti != refreshJti && FreshFamily(st, familyId)
    case RotateToken(token, _, accessJti, refreshJti) =>
      && Fresh(st, accessJti) && Fresh(st, refreshJti) && accessJti != refreshJti
      && (token.Signed? ==> token.claims in st.minted)
    case Wait(seconds) => seconds >= 0.0
    case _ => true
  }

  function Next(settings: Settings, st: State, a: Action): State {
    match a
    case Issue(subject, fingerprint, familyId, accessJti, refreshJti) =>
      var pair := Pair(settings, st.cache, subject, familyId, fingerprint, accessJti, refreshJti);
      st.(minted := st.minted + [pair.access, pair.refresh])
    case RotateToken(token, fingerprint, accessJti, refreshJti) =>
      var r := Rotate(settings, st.cache, token, fingerprint, accessJti, refreshJti);
      if r.outcome.Ok? then
        AfterRotation(st, r, token)
      else if r.outcome.error == ReuseDetected && token.Signed? && Truthy(token.claims.fid) then
        st.(cache := r.cache, burned := st.burned + {token.claims.fid.value})
      else st.(cache := r.cache)
    case RevokeOne(jti, expiresIn) =>
      st.(cache := Revoke(st.cache, jti, expiresIn))
    case RevokeUser(user) =>
      st.(cache := RevokeAll(st.cache, user), banned := st.banned[user := st.cache.Timestamp()])
    case Wait(seconds) =>
      st.(cache := st.cache.(now := st.cache.now + seconds))
  }

  function AfterRotation(st: State, r: Rotation, token: Token): State
    requires r.outcome.Ok?
  {
    if token.Forged? then st
    else
      st.(cache := r.cache, minted := st.minted + [r.outcome.value.access, r.outcome.value.refresh],
          rotated := st.rotated + [token.claims.jti])
  }

  function Start(now: real): State {
    State(Cache(now, map[]), [], [], {}, map[])
  }

  ghost predicate Valid(settings: Settings, st: State, run: seq<Action>)
    decreases run
  {
    run != [] ==> Enabled(st, run[0]) && Valid(settings, Next(settings, st, run[0]), run[1..])
  }

  function Run(settings: Settings, st: State, run: seq<Action>): State
    decreases run
  {
    if run == [] then st else Run(settings, Next(settings, st, run[0]), run[1..])
  }

  ghost predicate Reachable(settings: Settings, st: State) {
    exists now: real, run: seq<Action> :: Valid(settings, Start(now), run) && Run(settings, Start(now), run) == st
  }

  // ---------- the invariant ----------

  ghost predicate MintedOk(settings: Settings, st: State) {
    && (forall i, j :: 0 <= i < j < |st.minted| ==> st.minted[i].jti != st.minted[j].jti)
    && (forall c :: c in st.minted ==>
          && c.jti != ""
          && c.exp == c.iat + settings.Ttl(c.typ)
          && c.iat <= st.cache.Timestamp()
          && (c.typ == Refresh <==> c.fid.Some?)
          && (c.fid.Some? ==> c.fid.value != ""))
  }

  /** The used-marker of a rotated token lives at least as long as the token. */
  ghost predicate UsedOk(st: State) {
    && (forall i, j :: 0 <= i < j < |st.rotated| ==> st.rotated[i] != st.rotated[j])
    && (forall j :: j in st.rotated ==> !Fresh(st, j))
    && (forall j :: Used(j) in st.cache.entries <==> j in st.rotated)
    && (forall c :: c in st.minted && c.jti in st.rotated ==>
          c.exp as real <= st.cache.entries[Used(c.jti)].expiresAt)
  }

  ghost predicate SameFamily(c: Claims, d: Claims) {
    c.fid.Some? && c.fid == d.fid
  }

  ghost predicate HasSuccessor(minted: seq<Claims>, i: nat)
    requires i < |minted|
  {
    exists j :: i < j < |minted| && SameFamily(minted[i], minted[j])
  }

  /** In each family every token but the newest has been rotated, and the newest has not. */
  ghost predicate ChainOk(st: State) {
    && (forall i, j :: 0 <= i < j < |st.minted| && SameFamily(st.minted[i], st.minted[j]) ==>
          st.minted[i].jti in st.rotated)
    && (forall i :: 0 <= i < |st.minted| && st.minted[i].jti in st.rotated ==> HasSuccessor(st.minted, i))
  }

  /** A family marker lives at least as long as every token of its family. */
  ghost predicate BurnedOk(st: State) {
    && (forall f :: f in st.burned ==> FamilyRevoked(f) in st.cache.entries && f != "" && !FreshFamily(st, f))
    && (forall f :: FamilyRevoked(f) in st.cache.entries ==> f in st.burned)
    && (forall c :: c in st.minted && c.fid.Some? && c.fid.value in st.burned ==>
          c.exp as real <= st.cache.entries[FamilyRevoked(c.fid.value)].expiresAt)
  }

  /** A user marker never moves back in time and lives for ninety days from its value. */
  ghost predicate BannedOk(st: State) {
    && (forall u :: u in st.banned ==>
          RevokeAfter(u) in st.cache.entries && st.banned[u] <= st.cache.entries[RevokeAfter(u)].value)
    && (forall u :: RevokeAfter(u) in st.cache.entries ==>
          var e := st.cache.entries[RevokeAfter(u)];
          e.value <= st.cache.Timestamp() && (e.value + NINETY_DAYS) as real <= e.expiresAt)
  }

  ghost predicate SubjectsOk(st: State) {
    forall c, d :: c in st.minted && d in st.minted && SameFamily(c, d) ==> c.sub == d.sub
  }

  ghost predicate Inv(settings: Settings, st: State) {
    MintedOk(settings, st) && UsedOk(st) && ChainOk(st) && BurnedOk(st) && BannedOk(st) && SubjectsOk(st)
  }

  // ---------- what a successful rotation is ----------

  /** The facts a rotation that succeeds has checked, and all it writes. */
  lemma RotationFacts(
    settings: Settings, cache: Cache, token: Token, fingerprint: string, accessJti: string, refreshJti: string)
    requires Rotate(settings, cache, token, fingerprint, accessJti, refreshJti).outcome.Ok?
    ensures token.Signed?
    ensures var c := token.claims;
            var r := Rotate(settings, cache, token, fingerprint, accessJti, refreshJti);
            && c.typ == Refresh && cache.now < c.exp as real
            && !cache.Exists(Used(c.jti)) && !cache.Exists(Revoked(c.jti))
            && (Truthy(c.fid) ==> !cache.Exists(FamilyRevoked(c.fid.value)))
            && (fingerprint != "" ==> c.fp == Some(settings.digest(fingerprint)))
            && r.outcome.value == Pair(settings, cache, c.sub, FamilyText(c.fid), fingerprint, accessJti, refreshJti)
            && r.cache.now == cache.now
            && r.cache.entries.Keys == cache.entries.Keys + {Used(c.jti), Revoked(c.jti)}
            && (forall k :: k in cache.entries && k != Used(c.jti) && k != Revoked(c.jti) ==>
                  r.cache.entries[k] == cache.entries[k])
            && c.exp as real <= r.cache.entries[Used(c.jti)].expiresAt
            && r.cache.entries[Used(c.jti)].expiresAt == r.cache.entries[Revoked(c.jti)].expiresAt
  {
  }

  /** A rotation that fails writes nothing, except the family marker when it detects a replay. */
  lemma RefusalFacts(
    settings: Settings, cache: Cache, token: Token, fingerprint: string, accessJti: string, refreshJti: string)
    requires Rotate(settings, cache, token, fingerprint, accessJti, refreshJti).outcome.Err?
    ensures var r := Rotate(settings, cache, token, fingerprint, accessJti, refreshJti);
            if r.outcome.error == ReuseDetected && token.Signed? && Truthy(token.claims.fid) then
              r.cache == cache.Put(FamilyRevoked(token.claims.fid.value), 1, settings.RefreshTtl())
            else r.cache == cache
  {
  }

  // ---------- preservation, one action at a time ----------

  /** `s` is `st` with one more access token and one more refresh token of family `f`. */
  ghost predicate Mints(settings: Settings, st: State, s: State, access: Claims, refresh: Claims, f: string) {
    && s.minted == st.minted + [access, refresh]
    && s.cache.now == st.cache.now
    && Fresh(st, access.jti) && Fresh(st, refresh.jti) && access.jti != refresh.jti
    && access.typ == Access && refresh.typ == Refresh
    && access.fid == None && refresh.fid == Some(f) && f != ""
    && access.iat == refresh.iat == st.cache.Timestamp()
    && access.exp == access.iat + settings.AccessTtl() && refresh.exp == refresh.iat + settings.RefreshTtl()
  }

  lemma MintKeepsMintedOk(settings: Settings, st: State, s: State, access: Claims, refresh: Claims, f: string)
    requires MintedOk(settings, st) && Mints(settings, st, s, access, refresh, f)
    ensures MintedOk(settings, s)
  {
    var n := |st.minted|;
    forall i, j | 0 <= i < j < |s.minted| ensures s.minted[i].jti != s.minted[j].jti {
      if i < n {
        assert s.minted[i] in st.minted;
      }
    }
  }

  lemma NewFamilyKeepsChain(settings: Settings, st: State, s: State, access: Claims, refresh: Claims, f: string)
    requires MintedOk(settings, st) && UsedOk(st) && ChainOk(st)
    requires Mints(settings, st, s, access, refresh, f) && FreshFamily(st, f) && s.rotated == st.rotated
    ensures ChainOk(s)
  {
    hide HasSuccessor, Fresh;
    var n := |st.minted|;
    forall i, j | 0 <= i < j < |s.minted| && SameFamily(s.minted[i], s.minted[j])
      ensures s.minted[i].jti in s.rotated
    {
      assert i < n ==> s.minted[i] in st.minted;
    }
    MintedAreNew(settings, st, s, access, refresh, f);
    forall i | 0 <= i < |s.minted| && s.minted[i].jti in s.rotated ensures HasSuccessor(s.minted, i) {
      SuccessorStays(st.minted, s.minted, i);
    }
  }

  lemma SuccessorStays(minted: seq<Claims>, more: seq<Claims>, i: nat)
    requires minted <= more && i < |minted| && HasSuccessor(minted, i)
    ensures HasSuccessor(more, i)
  {
    var j :| i < j < |minted| && SameFamily(minted[i], minted[j]);
    assert SameFamily(more[i], more[j]);
  }

  lemma MintedAreNew(settings: Settings, st: State, s: State, access: Claims, refresh: Claims, f: string)
    requires UsedOk(st) && Mints(settings, st, s, access, refresh, f)
    ensures access.jti !in st.rotated && refresh.jti !in st.rotated
  {
  }

  lemma SuccessorKeepsChain(
    settings: Settings, st: State, s: State, access: Claims, refresh: Claims, f: string, k: nat)
    requires MintedOk(settings, st) && UsedOk(st) && ChainOk(st)
    requires Mints(settings, st, s, access, refresh, f)
    requires k < |st.minted| && st.minted[k].fid == Some(f) && st.minted[k].jti !in st.rotated
    requires s.rotated == st.rotated + [st.minted[k].jti]
    ensures ChainOk(s)
  {
    hide HasSuccessor, Fresh, UsedOk;
    var n := |st.minted|;
    forall i, j | 0 <= i < j < |s.minted| && SameFamily(s.minted[i], s.minted[j])
      ensures s.minted[i].jti in s.rotated
    {
      if j >= n && i != k {
        assert j == n + 1 && i < n;
        assert SameFamily(st.minted[i], st.minted[k]) && SameFamily(st.minted[k], st.minted[i]);
      }
    }
    MintedAreNew(settings, st, s, access, refresh, f);
    MintKeepsMintedOk(settings, st, s, access, refresh, f);
    forall i | 0 <= i < |s.minted| && s.minted[i].jti in s.rotated ensures HasSuccessor(s.minted, i) {
      if i == k {
        assert SameFamily(s.minted[k], s.minted[n + 1]);
        FirstSuccessor(s.minted, k, n + 1);
      } else {
        assert s.minted[i].jti != s.minted[k].jti;
        SuccessorStays(st.minted, s.minted, i);
      }
    }
  }

  lemma FirstSuccessor(minted: seq<Claims>, i: nat, j: nat)
    requires i < j < |minted| && SameFamily(minted[i], minted[j])
    ensures HasSuccessor(minted, i)
  {
  }

  lemma IssueKeepsInv(settings: Settings, st: State, a: Action)
    requires Inv(settings, st) && a.Issue? && Enabled(st, a)
    ensures Inv(settings, Next(settings, st, a))
  {
    var s := Next(settings, st, a);
    var pair := Pair(settings, st.cache, a.subject, a.familyId, a.fingerprint, a.accessJti, a.refreshJti);
    assert Mints(settings, st, s, pair.access, pair.refresh, a.familyId);
    MintKeepsMintedOk(settings, st, s, pair.access, pair.refresh, a.familyId);
    NewFamilyKeepsChain(settings, st, s, pair.access, pair.refresh, a.familyId);
    hide MintedOk, ChainOk, Pair, Next;
    MintKeepsMarkers(settings, st, s, pair.access, pair.refresh, a.familyId);
  }

  /** A new family touches no marker. */
  lemma MintKeepsMarkers(settings: Settings, st: State, s: State, access: Claims, refresh: Claims, f: string)
    requires UsedOk(st) && BurnedOk(st) && BannedOk(st) && SubjectsOk(st)
    requires Mints(settings, st, s, access, refresh, f) && FreshFamily(st, f)
    requires s == st.(minted := s.minted)
    ensures UsedOk(s) && BurnedOk(s) && BannedOk(s) && SubjectsOk(s)
  {
    forall j | Fresh(s, j) ensures Fresh(st, j) {
    }
    forall g | FreshFamily(s, g) ensures FreshFamily(st, g) {
    }
  }

  lemma RevokeOneKeepsInv(settings: Settings, st: State, a: Action)
    requires Inv(settings, st) && a.RevokeOne?
    ensures Inv(settings, Next(settings, st, a))
  {
  }

  lemma RevokeUserKeepsInv(settings: Settings, st: State, a: Action)
    requires Inv(settings, st) && a.RevokeUser?
    ensures Inv(settings, Next(settings, st, a))
  {
  }

  lemma WaitKeepsInv(settings: Settings, st: State, a: Action)
    requires Inv(settings, st) && a.Wait? && Enabled(st, a)
    ensures Inv(settings, Next(settings, st, a))
  {
  }

  lemma RefusalKeepsInv(settings: Settings, st: State, a: Action)
    requires settings.Valid() && Inv(settings, st) && a.RotateToken? && Enabled(st, a)
    requires Rotate(settings, st.cache, a.token, a.fingerprint, a.accessJti, a.refreshJti).outcome.Err?
    ensures Inv(settings, Next(settings, st, a))
  {
    hide Rotate;
    RefusalFacts(settings, st.cache, a.token, a.fingerprint, a.accessJti, a.refreshJti);
  }

  lemma RotationKeepsUsed(settings: Settings, st: State, s: State, access: Claims, refresh: Claims, c: Claims)
    requires MintedOk(settings, st) && UsedOk(st) && c in st.minted && c.fid.Some? && c.jti !in st.rotated
    requires Mints(settings, st, s, access, refresh, c.fid.value)
    requires s.rotated == st.rotated + [c.jti]
    requires s.cache.entries.Keys == st.cache.entries.Keys + {Used(c.jti), Revoked(c.jti)}
    requires forall k :: k in st.cache.entries && k != Used(c.jti) && k != Revoked(c.jti) ==>
               s.cache.entries[k] == st.cache.entries[k]
    requires c.exp as real <= s.cache.entries[Used(c.jti)].expiresAt
    ensures UsedOk(s)
  {
    forall j | Fresh(s, j) ensures Fresh(st, j) {
    }
    assert !Fresh(st, c.jti);
    forall d | d in s.minted && d.jti in s.rotated
      ensures d.exp as real <= s.cache.entries[Used(d.jti)].expiresAt
    {
      assert d in st.minted;
      if d.jti == c.jti {
        assert d == c;
      }
    }
  }

  lemma RotationKeepsBurned(settings: Settings, st: State, s: State, access: Claims, refresh: Claims, c: Claims)
    requires BurnedOk(st) && BannedOk(st) && c in st.minted && c.fid.Some? && c.fid.value !in st.burned
    requires Mints(settings, st, s, access, refresh, c.fid.value)
    requires s.cache.entries.Keys == st.cache.entries.Keys + {Used(c.jti), Revoked(c.jti)}
    requires forall k :: k in st.cache.entries && k != Used(c.jti) && k != Revoked(c.jti) ==>
               s.cache.entries[k] == st.cache.entries[k]
    requires s.burned == st.burned && s.banned == st.banned
    ensures BurnedOk(s) && BannedOk(s)
  {
    forall g | FreshFamily(s, g) ensures FreshFamily(st, g) {
    }
  }

  lemma RotationKeepsSubjects(settings: Settings, st: State, s: State, access: Claims, refresh: Claims, c: Claims)
    requires SubjectsOk(st) && c in st.minted && c.fid.Some? && refresh.sub == c.sub
    requires Mints(settings, st, s, access, refresh, c.fid.value)
    ensures SubjectsOk(s)
  {
    assert forall d :: d in st.minted && SameFamily(d, refresh) ==> SameFamily(d, c);
  }

  /** A token that can still rotate has never rotated, and its family has never been burned. */
  lemma RotationIsFirstUse(
    settings: Settings, st: State, token: Token, fingerprint: string, accessJti: string, refreshJti: string)
    requires Inv(settings, st) && (token.Signed? ==> token.claims in st.minted)
    requires Rotate(settings, st.cache, token, fingerprint, accessJti, refreshJti).outcome.Ok?
    ensures token.Signed? && token.claims.fid.Some? && token.claims.fid.value != ""
    ensures token.claims.jti !in st.rotated
    ensures token.claims.fid.value !in st.burned
  {
    hide Rotate;
    RotationFacts(settings, st.cache, token, fingerprint, accessJti, refreshJti);
  }

  lemma RotationKeepsInv(settings: Settings, st: State, a: Action)
    requires Inv(settings, st) && a.RotateToken? && Enabled(st, a)
    requires Rotate(settings, st.cache, a.token, a.fingerprint, a.accessJti, a.refreshJti).outcome.Ok?
    ensures Inv(settings, Next(settings, st, a))
  {
    hide Rotate, ChainOk, BurnedOk, BannedOk, SubjectsOk, UsedOk, MintedOk;
    RotationFacts(settings, st.cache, a.token, a.fingerprint, a.accessJti, a.refreshJti);
    RotationIsFirstUse(settings, st, a.token, a.fingerprint, a.accessJti, a.refreshJti);
    var s, c := Next(settings, st, a), a.token.claims;
    var pair := Rotate(settings, st.cache, a.token, a.fingerprint, a.accessJti, a.refreshJti).outcome.value;
    assert Mints(settings, st, s, pair.access, pair.refresh, c.fid.value);
    MintKeepsMintedOk(settings, st, s, pair.access, pair.refresh, c.fid.value);
    RotationKeepsUsed(settings, st, s, pair.access, pair.refresh, c);
    RotationKeepsBurned(settings, st, s, pair.access, pair.refresh, c);
    RotationKeepsSubjects(settings, st, s, pair.access, pair.refresh, c);
    var k :| 0 <= k < |st.minted| && st.minted[k] == c;
    SuccessorKeepsChain(settings, st, s, pair.access, pair.refresh, c.fid.value, k);
  }

  lemma StepKeepsInv(settings: Settings, st: State, a: Action)
    requires settings.Valid() && Inv(settings, st) && Enabled(st, a)
    ensures Inv(settings, Next(settings, st, a))
  {
    match a
    case Issue(_, _, _, _, _) => IssueKeepsInv(settings, st, a);
    case RotateToken(token, fingerprint, accessJti, refreshJti) =>
      if Rotate(settings, st.cache, token, fingerprint, accessJti, refreshJti).outcome.Ok? {
        RotationKeepsInv(settings, st, a);
      } else {
        RefusalKeepsInv(settings, st, a);
      }
    case RevokeOne(_, _) => RevokeOneKeepsInv(settings, st, a);
    case RevokeUser(_) => RevokeUserKeepsInv(settings, st, a);
    case Wait(_) => WaitKeepsInv(settings, st, a);
  }
}
