/** What holds in every reachable state of the session protocol, and for ever after an event. */
module SessionLaws {
  import opened Sequences
  import opened TokenStore
  import opened Security
  import opened SessionProtocol

  // ---------- reachability ----------

  lemma {:induction false} RunKeepsInv(settings: Settings, st: State, run: seq<Action>)
    requires settings.Valid() && Inv(settings, st) && Valid(settings, st, run)
    ensures Inv(settings, Run(settings, st, run))
    decreases run
  {
    if run != [] {
      StepKeepsInv(settings, st, run[0]);
      RunKeepsInv(settings, Next(settings, st, run[0]), run[1..]);
    }
  }

  lemma ReachableHasInv(settings: Settings, st: State)
    requires settings.Valid() && Reachable(settings, st)
    ensures Inv(settings, st)
  {
    var now: real, run: seq<Action> :| Valid(settings, Start(now), run) && Run(settings, Start(now), run) == st;
    RunKeepsInv(settings, Start(now), run);
  }

  // ---------- history only grows ----------

  ghost predicate Extends(st: State, later: State) {
    && st.cache.now <= later.cache.now
    && st.minted <= later.minted
    && (forall j :: j in st.rotated ==> j in later.rotated)
    && st.burned <= later.burned
    && (forall u :: u in st.banned ==> u in later.banned && st.banned[u] <= later.banned[u])
  }

  lemma StepExtends(settings: Settings, st: State, a: Action)
    requires Inv(settings, st) && Enabled(st, a)
    ensures Extends(st, Next(settings, st, a))
  {
    if a.RotateToken? {
      var r := Rotate(settings, st.cache, a.token, a.fingerprint, a.accessJti, a.refreshJti);
      if r.outcome.Ok? {
        RotationFacts(settings, st.cache, a.token, a.fingerprint, a.accessJti, a.refreshJti);
      } else {
        RefusalFacts(settings, st.cache, a.token, a.fingerprint, a.accessJti, a.refreshJti);
      }
      hide Rotate;
    }
  }

  lemma {:induction false} RunExtends(settings: Settings, st: State, run: seq<Action>)
    requires settings.Valid() && Inv(settings, st) && Valid(settings, st, run)
    ensures Extends(st, Run(settings, st, run))
    decreases run
  {
    if run != [] {
      StepExtends(settings, st, run[0]);
      StepKeepsInv(settings, st, run[0]);
      RunExtends(settings, Next(settings, st, run[0]), run[1..]);
    }
  }

  // ---------- single use ----------

  /** No refresh token is rotated twice in any run. */
  lemma EachTokenRotatesAtMostOnce(settings: Settings, st: State)
    requires settings.Valid() && Reachable(settings, st)
    ensures forall i, j :: 0 <= i < j < |st.rotated| ==> st.rotated[i] != st.rotated[j]
  {
    ReachableHasInv(settings, st);
  }

  /** Once rotated, a token is refused for ever, whatever is done in between. */
  lemma RotatedIsRefusedForEver(
    settings: Settings, st: State, c: Claims, run: seq<Action>, fingerprint: string, a: string, r: string)
    requires settings.Valid() && Reachable(settings, st) && c in st.minted && c.jti in st.rotated
    requires Valid(settings, st, run)
    ensures Rotate(settings, Run(settings, st, run).cache, Signed(c), fingerprint, a, r).outcome.Err?
  {
    ReachableHasInv(settings, st);
    RunKeepsInv(settings, st, run);
    RunExtends(settings, st, run);
    var later := Run(settings, st, run);
    hide Rotate;
    if Rotate(settings, later.cache, Signed(c), fingerprint, a, r).outcome.Ok? {
      RotationIsFirstUse(settings, later, Signed(c), fingerprint, a, r);
    }
  }

  // ---------- a family is one chain ----------

  ghost predicate InFamily(st: State, i: int, f: string) {
    0 <= i < |st.minted| && st.minted[i].fid == Some(f)
  }

  /** Each family has exactly one refresh token never rotated, and it is the newest; all share one subject. */
  lemma FamilyIsOneChain(settings: Settings, st: State, f: string) returns (newest: nat)
    requires settings.Valid() && Reachable(settings, st) && !FreshFamily(st, f) && f != ""
    ensures InFamily(st, newest, f) && st.minted[newest].jti !in st.rotated
    ensures forall i :: InFamily(st, i, f) ==> i <= newest
    ensures forall i :: InFamily(st, i, f) && i != newest ==> st.minted[i].jti in st.rotated
    ensures forall i :: InFamily(st, i, f) ==>
              st.minted[i].typ == Refresh && st.minted[i].sub == st.minted[newest].sub
  {
    ReachableHasInv(settings, st);
    assert exists i :: InFamily(st, i, f) by {
      var c :| c in st.minted && c.fid == Some(f);
      var i :| 0 <= i < |st.minted| && st.minted[i] == c;
      assert InFamily(st, i, f);
    }
    newest := LastOfFamily(st, f, |st.minted|);
    forall i | InFamily(st, i, f) && i != newest ensures st.minted[i].jti in st.rotated {
      assert SameFamily(st.minted[i], st.minted[newest]);
    }
    assert !HasSuccessor(st.minted, newest) by {
      forall j | newest < j < |st.minted| ensures !SameFamily(st.minted[newest], st.minted[j]) {
        assert !InFamily(st, j, f);
      }
    }
    forall i | InFamily(st, i, f)
      ensures st.minted[i].typ == Refresh && st.minted[i].sub == st.minted[newest].sub
    {
      assert st.minted[i] in st.minted && st.minted[newest] in st.minted;
      assert SameFamily(st.minted[i], st.minted[newest]);
    }
  }

  lemma {:induction false} LastOfFamily(st: State, f: string, n: nat) returns (last: nat)
    requires n <= |st.minted| && exists i :: InFamily(st, i, f) && i < n
    ensures InFamily(st, last, f) && forall i :: InFamily(st, i, f) && i < n ==> i <= last
  {
    if InFamily(st, n - 1, f) {
      last := n - 1;
    } else {
      last := LastOfFamily(st, f, n - 1);
    }
  }

  // ---------- fingerprint binding ----------

  ghost predicate BindingOk(st: State) {
    forall c, d :: c in st.minted && d in st.minted && SameFamily(c, d) ==> c.fp == d.fp
  }

  ghost predicate NoEmptyFingerprint(run: seq<Action>) {
    forall i :: 0 <= i < |run| && run[i].RotateToken? ==> run[i].fingerprint != ""
  }

  /** A rotation hands on the fingerprint of its token exactly when it names one, or there was none to hand on. */
  lemma RotationKeepsBindingIff(
    settings: Settings, cache: Cache, token: Token, fingerprint: string, a: string, r: string)
    requires Rotate(settings, cache, token, fingerprint, a, r).outcome.Ok?
    ensures (Rotate(settings, cache, token, fingerprint, a, r).outcome.value.refresh.fp == token.claims.fp)
              <==> (fingerprint != "" || token.claims.fp.None?)
  {
    RotationFacts(settings, cache, token, fingerprint, a, r);
  }

  lemma StepKeepsBinding(settings: Settings, st: State, a: Action)
    requires settings.Valid() && Inv(settings, st) && BindingOk(st) && Enabled(st, a)
    requires a.RotateToken? ==> a.fingerprint != ""
    ensures BindingOk(Next(settings, st, a))
  {
    hide Rotate;
    if a.RotateToken? {
      if Rotate(settings, st.cache, a.token, a.fingerprint, a.accessJti, a.refreshJti).outcome.Ok? {
        RotationKeepsBinding(settings, st, a);
      }
    } else {
      hide Inv;
    }
  }

  lemma RotationKeepsBinding(settings: Settings, st: State, a: Action)
    requires settings.Valid() && Inv(settings, st) && BindingOk(st) && Enabled(st, a)
    requires a.RotateToken? && a.fingerprint != ""
    requires Rotate(settings, st.cache, a.token, a.fingerprint, a.accessJti, a.refreshJti).outcome.Ok?
    ensures BindingOk(Next(settings, st, a))
  {
    hide Rotate, Inv;
    var pair := Rotate(settings, st.cache, a.token, a.fingerprint, a.accessJti, a.refreshJti).outcome.value;
    RotationFacts(settings, st.cache, a.token, a.fingerprint, a.accessJti, a.refreshJti);
    RotationIsFirstUse(settings, st, a.token, a.fingerprint, a.accessJti, a.refreshJti);
    HandedOnBinding(st, Next(settings, st, a), a.token.claims, pair.access, pair.refresh);
  }

  /** A pair of the family and fingerprint of a minted token keeps the binding. */
  lemma HandedOnBinding(st: State, s: State, c: Claims, access: Claims, refresh: Claims)
    requires BindingOk(st) && c in st.minted && c.fid.Some?
    requires s.minted == st.minted + [access, refresh]
    requires access.fid.None? && refresh.fid == c.fid && refresh.fp == c.fp
    ensures BindingOk(s)
  {
    assert forall d :: d in st.minted && SameFamily(d, refresh) ==> SameFamily(d, c);
  }

  lemma {:induction false} RunKeepsBinding(settings: Settings, st: State, run: seq<Action>)
    requires settings.Valid() && Inv(settings, st) && BindingOk(st) && Valid(settings, st, run) && NoEmptyFingerprint(run)
    ensures BindingOk(Run(settings, st, run))
    decreases run
  {
    if run != [] {
      StepKeepsInv(settings, st, run[0]);
      StepKeepsBinding(settings, st, run[0]);
      RunKeepsBinding(settings, Next(settings, st, run[0]), run[1..]);
    }
  }

  /** As long as every rotation names a fingerprint, a family keeps the fingerprint it was issued with. */
  lemma FamilyKeepsItsFingerprint(settings: Settings, now: real, run: seq<Action>)
    requires settings.Valid() && Valid(settings, Start(now), run) && NoEmptyFingerprint(run)
    ensures BindingOk(Run(settings, Start(now), run))
  {
    RunKeepsBinding(settings, Start(now), run);
  }

  // ---------- family revocation ----------

  lemma StepMintsNothingInBurnedFamily(settings: Settings, st: State, a: Action, f: string)
    requires settings.Valid() && Inv(settings, st) && Enabled(st, a) && f in st.burned
    ensures forall c :: c in Next(settings, st, a).minted && c.fid == Some(f) ==> c in st.minted
  {
    if a.RotateToken? {
      var r := Rotate(settings, st.cache, a.token, a.fingerprint, a.accessJti, a.refreshJti);
      if r.outcome.Ok? {
        RotationFacts(settings, st.cache, a.token, a.fingerprint, a.accessJti, a.refreshJti);
        RotationIsFirstUse(settings, st, a.token, a.fingerprint, a.accessJti, a.refreshJti);
        hide Rotate, Inv;
      }
    }
  }

  lemma {:induction false} BurnedFamilyNeverGrows(settings: Settings, st: State, run: seq<Action>, f: string)
    requires settings.Valid() && Inv(settings, st) && Valid(settings, st, run) && f in st.burned
    ensures forall c :: c in Run(settings, st, run).minted && c.fid == Some(f) ==> c in st.minted
    decreases run
  {
    if run != [] {
      var next := Next(settings, st, run[0]);
      StepMintsNothingInBurnedFamily(settings, st, run[0], f);
      StepExtends(settings, st, run[0]);
      StepKeepsInv(settings, st, run[0]);
      BurnedFamilyNeverGrows(settings, next, run[1..], f);
    }
  }

  /** Once a replay burned a family, no rotation in it succeeds again and it gains no member. */
  lemma FamilyRevocationIsPermanent(
    settings: Settings, st: State, run: seq<Action>, f: string,
    token: Token, fingerprint: string, a: string, r: string)
    requires settings.Valid() && Reachable(settings, st) && Valid(settings, st, run) && f in st.burned
    requires token.Signed? && token.claims in Run(settings, st, run).minted && token.claims.fid == Some(f)
    ensures token.claims in st.minted
    ensures Rotate(settings, Run(settings, st, run).cache, token, fingerprint, a, r).outcome.Err?
  {
    ReachableHasInv(settings, st);
    BurnedFamilyNeverGrows(settings, st, run, f);
    RunKeepsInv(settings, st, run);
    RunExtends(settings, st, run);
    var later := Run(settings, st, run);
    hide Rotate;
    if Rotate(settings, later.cache, token, fingerprint, a, r).outcome.Ok? {
      RotationIsFirstUse(settings, later, token, fingerprint, a, r);
    }
  }

  // ---------- when a replay is detected ----------

  /** A token that was rotated and still verifies is met with the replay alarm; any other answer means it did not verify. */
  lemma ReplayIsDetectedIffItVerifies(
    settings: Settings, st: State, c: Claims, fingerprint: string, a: string, r: string)
    requires settings.Valid() && Reachable(settings, st) && c in st.minted && c.jti in st.rotated
    ensures (Rotate(settings, st.cache, Signed(c), fingerprint, a, r).outcome == Err(ReuseDetected))
              <==> (Verify(settings, st.cache, Signed(c), fingerprint).Ok?)
  {
    hide Inv, Reachable;
    ReachableHasInv(settings, st);
    RotatedAreRefreshTokens(settings, st, c);
    MarkedUntilExpiry(settings, st, c);
  }

  lemma MarkedUntilExpiry(settings: Settings, st: State, c: Claims)
    requires Inv(settings, st) && c in st.minted && c.jti in st.rotated
    ensures c.jti != "" && (st.cache.now < c.exp as real ==> st.cache.Exists(Used(c.jti)))
  {
    assert UsedOk(st) && MintedOk(settings, st);
    hide Inv;
  }

  lemma RotatedAreRefreshTokens(settings: Settings, st: State, c: Claims)
    requires Inv(settings, st) && c in st.minted && c.jti in st.rotated
    ensures c.typ == Refresh
  {
    var i :| 0 <= i < |st.minted| && st.minted[i] == c;
    assert HasSuccessor(st.minted, i);
  }

  ghost predicate NoSingleRevocation(run: seq<Action>) {
    forall i :: 0 <= i < |run| ==> !run[i].RevokeOne?
  }

  /** The revocation marker written with the used-marker has not been shortened, and no family is burned. */
  ghost predicate Shadowed(st: State) {
    && (forall j :: j in st.rotated ==>
          && Used(j) in st.cache.entries && Revoked(j) in st.cache.entries
          && st.cache.entries[Used(j)].expiresAt <= st.cache.entries[Revoked(j)].expiresAt)
    && st.burned == {}
    && (forall f :: FamilyRevoked(f) !in st.cache.entries)
  }

  lemma StepKeepsShadow(settings: Settings, st: State, a: Action)
    requires settings.Valid() && Inv(settings, st) && Shadowed(st) && Enabled(st, a) && !a.RevokeOne?
    ensures Shadowed(Next(settings, st, a))
  {
    hide Rotate;
    if a.RotateToken? {
      if Rotate(settings, st.cache, a.token, a.fingerprint, a.accessJti, a.refreshJti).outcome.Ok? {
        RotationKeepsShadow(settings, st, a);
      } else {
        hide Rotate, Shadowed;
        ShadowHidesReplay(settings, st, a);
        RefusalFacts(settings, st.cache, a.token, a.fingerprint, a.accessJti, a.refreshJti);
      }
    } else {
      hide Inv;
    }
  }

  lemma RotationKeepsShadow(settings: Settings, st: State, a: Action)
    requires Shadowed(st) && Enabled(st, a) && a.RotateToken?
    requires Rotate(settings, st.cache, a.token, a.fingerprint, a.accessJti, a.refreshJti).outcome.Ok?
    ensures Shadowed(Next(settings, st, a))
  {
    hide Rotate, Enabled;
    RotationFacts(settings, st.cache, a.token, a.fingerprint, a.accessJti, a.refreshJti);
  }

  /** Whoever meets a used-marker has met the revocation marker before. */
  lemma ShadowHidesReplay(settings: Settings, st: State, a: Action)
    requires Inv(settings, st) && Shadowed(st) && a.RotateToken?
    ensures Rotate(settings, st.cache, a.token, a.fingerprint, a.accessJti, a.refreshJti).outcome != Err(ReuseDetected)
  {
    assert UsedOk(st);
    hide Inv, MintedOk, ChainOk, BurnedOk, BannedOk, SubjectsOk;
  }

  lemma {:induction false} RunKeepsShadow(settings: Settings, st: State, run: seq<Action>)
    requires settings.Valid() && Inv(settings, st) && Shadowed(st) && Valid(settings, st, run) && NoSingleRevocation(run)
    ensures Shadowed(Run(settings, st, run))
    decreases run
  {
    if run != [] {
      StepKeepsInv(settings, st, run[0]);
      StepKeepsShadow(settings, st, run[0]);
      RunKeepsShadow(settings, Next(settings, st, run[0]), run[1..]);
    }
  }

  /**
   Rotation revokes its token for as long as it marks it used, so as long as nobody calls
   `revoke_token` a replay is always refused as revoked, and no family is ever revoked.
   */
  lemma ReplayAlarmNeedsSingleRevocation(settings: Settings, now: real, run: seq<Action>)
    requires settings.Valid() && Valid(settings, Start(now), run) && NoSingleRevocation(run)
    ensures Run(settings, Start(now), run).burned == {}
  {
    RunKeepsShadow(settings, Start(now), run);
  }

  lemma LapsedReplayBurnsFamily(
    settings: Settings, st: State, c: Claims, fingerprint: string, a: string, r: string)
    requires Inv(settings, st) && c in st.minted && c.jti in st.rotated
    requires st.cache.now < c.exp as real && RevokeAfter(c.sub) !in st.cache.entries
    requires !st.cache.Exists(Revoked(c.jti))
    requires fingerprint == "" || c.fp == Some(settings.digest(fingerprint))
    ensures c.fid.Some? && c.fid.value in Next(settings, st, RotateToken(Signed(c), fingerprint, a, r)).burned
  {
    RotatedAreRefreshTokens(settings, st, c);
    assert MintedOk(settings, st) && UsedOk(st);
    assert st.cache.Exists(Used(c.jti));
    hide UsedOk, MintedOk, ChainOk, BurnedOk, BannedOk, SubjectsOk;
    assert Verify(settings, st.cache, Signed(c), fingerprint).Ok?;
  }

  /** Shortening the revocation of a rotated token to one second makes its next replay burn the family. */
  lemma ShortRevocationExposesTheReplay(
    settings: Settings, st: State, c: Claims, fingerprint: string, a: string, r: string)
    requires settings.Valid() && Reachable(settings, st) && c in st.minted && c.jti in st.rotated
    requires st.cache.now + 1.0 < c.exp as real && RevokeAfter(c.sub) !in st.cache.entries
    requires fingerprint == "" || c.fp == Some(settings.digest(fingerprint))
    requires Fresh(st, a) && Fresh(st, r) && a != r
    ensures c.fid.Some?
    ensures var run := [RevokeOne(c.jti, 1), Wait(1.0), RotateToken(Signed(c), fingerprint, a, r)];
            Valid(settings, st, run) && c.fid.value in Run(settings, st, run).burned
  {
    hide Inv, Reachable, Fresh, Rotate;
    ReachableHasInv(settings, st);
    var shorten, wait, replay := RevokeOne(c.jti, 1), Wait(1.0), RotateToken(Signed(c), fingerprint, a, r);
    var one := Next(settings, st, shorten);
    var two := Next(settings, one, wait);
    StepKeepsInv(settings, st, shorten);
    StepKeepsInv(settings, one, wait);
    ShortenedMarkerLapses(settings, st, c);
    LapsedReplayBurnsFamily(settings, two, c, fingerprint, a, r);
    RunOfThree(settings, st, shorten, wait, replay);
    FreshDependsOnMinted(st, two, a);
    FreshDependsOnMinted(st, two, r);
  }

  lemma FreshDependsOnMinted(st: State, two: State, jti: string)
    requires st.minted == two.minted
    ensures Fresh(st, jti) == Fresh(two, jti)
  {
  }

  lemma ShortenedMarkerLapses(settings: Settings, st: State, c: Claims)
    requires RevokeAfter(c.sub) !in st.cache.entries
    ensures var two := Next(settings, Next(settings, st, RevokeOne(c.jti, 1)), Wait(1.0));
            && two.minted == st.minted && two.rotated == st.rotated && two.cache.now == st.cache.now + 1.0
            && !two.cache.Exists(Revoked(c.jti)) && RevokeAfter(c.sub) !in two.cache.entries
  {
  }

  lemma RunOfOne(settings: Settings, st: State, a: Action)
    ensures Run(settings, st, [a]) == Next(settings, st, a)
    ensures Valid(settings, st, [a]) <==> Enabled(st, a)
  {
    hide Next, Enabled;
    assert [a][1..] == [];
  }

  lemma RunOfTwo(settings: Settings, st: State, a: Action, b: Action)
    ensures Run(settings, st, [a, b]) == Next(settings, Next(settings, st, a), b)
    ensures Valid(settings, st, [a, b]) <==> Enabled(st, a) && Enabled(Next(settings, st, a), b)
  {
    hide Next, Enabled;
    assert [a, b][1..] == [b];
    RunOfOne(settings, Next(settings, st, a), b);
  }

  lemma RunOfThree(settings: Settings, st: State, a: Action, b: Action, c: Action)
    ensures Run(settings, st, [a, b, c]) == Next(settings, Next(settings, Next(settings, st, a), b), c)
    ensures Valid(settings, st, [a, b, c]) <==>
              Enabled(st, a) && Enabled(Next(settings, st, a), b) && Enabled(Next(settings, Next(settings, st, a), b), c)
  {
    hide Next, Enabled;
    assert [a, b, c][1..] == [b, c];
    RunOfTwo(settings, Next(settings, st, a), b, c);
  }

  // ---------- global revocation ----------

  predicate LifetimesWithinNinetyDays(settings: Settings) {
    settings.AccessTtl() <= NINETY_DAYS && settings.RefreshTtl() <= NINETY_DAYS
  }

  /** The user marker is live, or the token has expired. */
  lemma BannedIsRefused(settings: Settings, st: State, c: Claims, fingerprint: string)
    requires LifetimesWithinNinetyDays(settings) && MintedOk(settings, st) && BannedOk(st)
    requires c in st.minted && c.sub in st.banned && c.iat <= st.banned[c.sub]
    ensures Verify(settings, st.cache, Signed(c), fingerprint).Err?
  {
    var e := st.cache.entries[RevokeAfter(c.sub)];
    assert c.iat <= e.value;
    assert c.exp <= e.value + NINETY_DAYS;
    hide MintedOk, BannedOk;
    assert c.exp as real <= e.expiresAt;
  }

  /** A token issued no later than the last global revocation of its user is never accepted again. */
  lemma GloballyRevokedIsRefusedForEver(
    settings: Settings, st: State, run: seq<Action>, c: Claims, fingerprint: string, a: string, r: string)
    requires settings.Valid() && LifetimesWithinNinetyDays(settings)
    requires Reachable(settings, st) && Valid(settings, st, run)
    requires c in Run(settings, st, run).minted && c.sub in st.banned && c.iat <= st.banned[c.sub]
    ensures Verify(settings, Run(settings, st, run).cache, Signed(c), fingerprint).Err?
    ensures Rotate(settings, Run(settings, st, run).cache, Signed(c), fingerprint, a, r).outcome.Err?
  {
    hide Verify, MintedOk, BannedOk, UsedOk, ChainOk, BurnedOk, SubjectsOk;
    ReachableHasInv(settings, st);
    RunKeepsInv(settings, st, run);
    RunExtends(settings, st, run);
    BannedIsRefused(settings, Run(settings, st, run), c, fingerprint);
  }

  ghost predicate GlobalRevocationIsPermanent(settings: Settings) {
    forall st, run, c, fingerprint ::
      Reachable(settings, st) && Valid(settings, st, run) && c in Run(settings, st, run).minted
      && c.sub in st.banned && c.iat <= st.banned[c.sub] ==>
        Verify(settings, Run(settings, st, run).cache, Signed(c), fingerprint).Err?
  }

  /** After ninety days the marker is gone, so a longer-lived token of a revoked user is accepted again. */
  lemma LongLifetimeOutlivesTheMarker(settings: Settings)
    requires settings.Valid() && !LifetimesWithinNinetyDays(settings)
    ensures !GlobalRevocationIsPermanent(settings)
  {
    var issue := Issue("user", "", "family", "access", "refresh");
    var s0 := Start(0.0);
    var s1 := Next(settings, s0, issue);
    var s2 := Next(settings, s1, RevokeUser("user"));
    var wait := Wait(NINETY_DAYS as real);
    var s3 := Next(settings, s2, wait);
    assert Enabled(s0, issue);
    RunOfTwo(settings, s0, issue, RevokeUser("user"));
    assert Reachable(settings, s2);
    RunOfOne(settings, s2, wait);
    var c := s1.minted[if settings.RefreshTtl() > NINETY_DAYS then 1 else 0];
    assert c in s3.minted;
    assert s3.cache.entries == map[RevokeAfter("user") := Entry(0, NINETY_DAYS as real)];
    assert Verify(settings, s3.cache, Signed(c), "").Ok?;
  }

  /** Global revocation is permanent exactly when both configured lifetimes are at most ninety days. */
  lemma GlobalRevocationIsPermanentIff(settings: Settings)
    requires settings.Valid()
    ensures GlobalRevocationIsPermanent(settings) <==> LifetimesWithinNinetyDays(settings)
  {
    if LifetimesWithinNinetyDays(settings) {
      forall st, run, c, fingerprint |
        Reachable(settings, st) && Valid(settings, st, run) && c in Run(settings, st, run).minted
        && c.sub in st.banned && c.iat <= st.banned[c.sub]
        ensures Verify(settings, Run(settings, st, run).cache, Signed(c), fingerprint).Err?
      {
        GloballyRevokedIsRefusedForEver(settings, st, run, c, fingerprint, "", "");
      }
    } else {
      LongLifetimeOutlivesTheMarker(settings);
    }
  }
}
