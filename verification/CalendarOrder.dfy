/** The order of the fetched list: events of one time stand in the order in which their ids were first offered. */
module CalendarOrder {
  import opened Sequences
  import opened EconomicCalendar
  import opened CalendarLaws

  // ---------- who comes first ----------

  /** `a` stands somewhere before `b`. */
  ghost predicate Ahead<T(!new)>(s: seq<T>, a: T, b: T) {
    exists i, j :: 0 <= i < j < |s| && s[i] == a && s[j] == b
  }

  ghost predicate NoRepeats<T(!new)>(s: seq<T>) {
    forall i, j :: 0 <= i < j < |s| ==> s[i] != s[j]
  }

  lemma AheadInLonger<T(!new)>(s: seq<T>, t: seq<T>, a: T, b: T)
    requires s <= t && Ahead(s, a, b)
    ensures Ahead(t, a, b)
  {
    var i, j :| 0 <= i < j < |s| && s[i] == a && s[j] == b;
    assert t[i] == a && t[j] == b;
  }

  lemma AheadOfLast<T(!new)>(s: seq<T>, a: T, b: T)
    requires a in s
    ensures Ahead(s + [b], a, b)
  {
    var i :| 0 <= i < |s| && s[i] == a;
    assert (s + [b])[i] == a && (s + [b])[|s|] == b;
  }

  lemma AheadInInit<T(!new)>(s: seq<T>, a: T, b: T)
    requires s != [] && Ahead(s, a, b) && b != s[|s| - 1]
    ensures Ahead(s[..|s| - 1], a, b)
  {
    var i, j :| 0 <= i < j < |s| && s[i] == a && s[j] == b;
    assert s[..|s| - 1][i] == a && s[..|s| - 1][j] == b;
  }

  lemma OneOrTheOther<T(!new)>(s: seq<T>, a: T, b: T)
    requires NoRepeats(s) && a in s && b in s && a != b
    ensures Ahead(s, a, b) <==> !Ahead(s, b, a)
  {
    var i :| 0 <= i < |s| && s[i] == a;
    var j :| 0 <= j < |s| && s[j] == b;
    assert i < j || j < i;
  }

  // ---------- the sort is stable ----------

  lemma {:induction false} InsertKeepsAhead<T(!new)>(s: seq<T>, x: T, key: T -> real, a: T, b: T)
    requires Ahead(s, a, b)
    ensures Ahead(Insert(s, x, key), a, b)
  {
    if s != [] && key(s[|s| - 1]) > key(x) {
      var u, last := s[..|s| - 1], s[|s| - 1];
      var r := Insert(u, x, key);
      if Ahead(u, a, b) {
        InsertKeepsAhead(u, x, key, a, b);
        AheadInLonger(r, r + [last], a, b);
      } else {
        LastOfPair(s, a, b);
        assert a in multiset(r);
        AheadOfLast(r, a, b);
      }
    } else {
      AheadInLonger(s, s + [x], a, b);
    }
  }

  lemma LastOfPair<T(!new)>(s: seq<T>, a: T, b: T)
    requires s != [] && Ahead(s, a, b) && !Ahead(s[..|s| - 1], a, b)
    ensures b == s[|s| - 1] && a in s[..|s| - 1]
  {
    assert forall k :: 0 <= k < |s| - 1 ==> s[..|s| - 1][k] == s[k];
    var i, j :| 0 <= i < j < |s| && s[i] == a && s[j] == b;
  }

  lemma {:induction false} InsertedComesLast<T(!new)>(s: seq<T>, x: T, key: T -> real, a: T)
    requires a in s && key(a) == key(x) && SortedBy(s, key)
    ensures Ahead(Insert(s, x, key), a, x)
  {
    var last := s[|s| - 1];
    if key(last) > key(x) {
      InitOf(s, key);
      assert s == s[..|s| - 1] + [last];
      var r := Insert(s[..|s| - 1], x, key);
      InsertedComesLast(s[..|s| - 1], x, key, a);
      AheadInLonger(r, r + [last], a, x);
    } else {
      AheadOfLast(s, a, x);
    }
  }

  lemma {:induction false} SortIsStable<T(!new)>(s: seq<T>, key: T -> real, a: T, b: T)
    requires Ahead(s, a, b) && key(a) == key(b)
    ensures Ahead(Sort(s, key), a, b)
  {
    var u, last := s[..|s| - 1], s[|s| - 1];
    if Ahead(u, a, b) {
      SortIsStable(u, key, a, b);
      InsertKeepsAhead(Sort(u, key), last, key, a, b);
    } else {
      LastOfPair(s, a, b);
      SortMembers(u, key);
      InsertedComesLast(Sort(u, key), last, key, a);
    }
  }

  lemma LastsHaveEqualKeys<T(!new)>(s: seq<T>, t: seq<T>, key: T -> real)
    requires SortedBy(s, key) && SortedBy(t, key) && s != [] && t != [] && multiset(s) == multiset(t)
    ensures key(s[|s| - 1]) == key(t[|t| - 1])
    ensures s[|s| - 1] in t && t[|t| - 1] in s
  {
    var a, b := s[|s| - 1], t[|t| - 1];
    assert a in multiset(t) && b in multiset(s);
    LastIsGreatest(t, a, key);
    LastIsGreatest(s, b, key);
  }

  lemma LastIsBehind<T(!new)>(s: seq<T>, a: T)
    requires a in s && NoRepeats(s) && a != s[|s| - 1]
    ensures Ahead(s, a, s[|s| - 1]) && !Ahead(s, s[|s| - 1], a)
  {
    var i :| 0 <= i < |s| && s[i] == a;
    assert s[|s| - 1] == s[|s| - 1];
  }

  /** Equal elements of equal keys stand in the same order in both. */
  ghost predicate SameTieOrder<T(!new)>(s: seq<T>, t: seq<T>, key: T -> real) {
    forall a, b :: key(a) == key(b) && Ahead(s, a, b) ==> Ahead(t, a, b)
  }

  lemma LastsOfTiesAgree<T(!new)>(s: seq<T>, t: seq<T>, key: T -> real)
    requires SortedBy(s, key) && SortedBy(t, key) && s != [] && t != [] && multiset(s) == multiset(t)
    requires NoRepeats(s) && NoRepeats(t) && SameTieOrder(s, t, key)
    ensures s[|s| - 1] == t[|t| - 1]
  {
    hide SortedBy, NoRepeats, Ahead;
    LastsHaveEqualKeys(s, t, key);
    if s[|s| - 1] != t[|t| - 1] {
      LastIsBehind(s, t[|t| - 1]);
      LastIsBehind(t, s[|s| - 1]);
    }
  }

  lemma InitsMatch<T(!new)>(s: seq<T>, t: seq<T>, key: T -> real)
    requires SortedBy(s, key) && SortedBy(t, key) && s != [] && t != [] && multiset(s) == multiset(t)
    requires s[|s| - 1] == t[|t| - 1]
    ensures SortedBy(s[..|s| - 1], key) && SortedBy(t[..|t| - 1], key)
    ensures multiset(s[..|s| - 1]) == multiset(t[..|t| - 1])
  {
    hide SortedBy;
    InitOf(s, key);
    InitOf(t, key);
  }

  /** Two sorted arrangements agree when, besides, they order their ties alike. */
  lemma {:induction false} SortedWithTies<T(!new)>(s: seq<T>, t: seq<T>, key: T -> real)
    requires SortedBy(s, key) && SortedBy(t, key) && multiset(s) == multiset(t)
    requires NoRepeats(s) && NoRepeats(t) && SameTieOrder(s, t, key)
    ensures s == t
  {
    hide SortedBy, NoRepeats, SameTieOrder;
    assert |s| == |multiset(s)| == |multiset(t)| == |t|;
    if s != [] {
      LastsOfTiesAgree(s, t, key);
      InitsMatch(s, t, key);
      TieOrderOfInit(s, t, key);
      SortedWithTies(s[..|s| - 1], t[..|t| - 1], key);
      assert s == s[..|s| - 1] + [s[|s| - 1]] && t == t[..|t| - 1] + [t[|t| - 1]];
    }
  }

  lemma TieOrderOfInit<T(!new)>(s: seq<T>, t: seq<T>, key: T -> real)
    requires s != [] && t != [] && s[|s| - 1] == t[|t| - 1] && NoRepeats(s) && NoRepeats(t) && SameTieOrder(s, t, key)
    ensures SameTieOrder(s[..|s| - 1], t[..|t| - 1], key)
    ensures NoRepeats(s[..|s| - 1]) && NoRepeats(t[..|t| - 1])
  {
    forall a, b | key(a) == key(b) && Ahead(s[..|s| - 1], a, b) ensures Ahead(t[..|t| - 1], a, b) {
      AheadInLonger(s[..|s| - 1], s, a, b);
      AheadInInit(t, a, b);
    }
  }

  // ---------- the merged dictionary keeps the order of first offers ----------

  ghost predicate Has(offered: seq<Event>, id: string) {
    exists e :: e in offered && e.id == id
  }

  /** An event with id `x` is offered before any with id `y`. */
  ghost predicate Leads(offered: seq<Event>, x: string, y: string) {
    exists k :: 0 <= k < |offered| && offered[k].id == x && forall j :: 0 <= j <= k ==> offered[j].id != y
  }

  lemma LeadsInLonger(s: seq<Event>, t: seq<Event>, x: string, y: string)
    requires Leads(s, x, y) || (!Has(s, y) && Leads(t, x, y))
    ensures Leads(s + t, x, y)
  {
    var all, n := s + t, |s|;
    assert forall j :: 0 <= j < n ==> all[j] == s[j];
    if Leads(s, x, y) {
      var k :| 0 <= k < n && s[k].id == x && forall j :: 0 <= j <= k ==> s[j].id != y;
      LeadsAt(all, x, y, k);
    } else {
      var k :| 0 <= k < |t| && t[k].id == x && forall j :: 0 <= j <= k ==> t[j].id != y;
      forall j | 0 <= j <= n + k ensures all[j].id != y {
        if j < n {
          assert s[j] in s;
        } else {
          assert all[j] == t[j - n];
        }
      }
      LeadsAt(all, x, y, n + k);
    }
  }

  /** No event before position `n`, which is at most the end, has the id. */
  predicate NotBefore(offered: seq<Event>, n: int, y: string)
    requires n <= |offered|
  {
    forall j :: 0 <= j < n ==> offered[j].id != y
  }

  lemma NotBeforeInParts(s: seq<Event>, t: seq<Event>, n: int, y: string)
    requires |s| <= n <= |s + t| && NotBefore(s + t, n, y)
    ensures NotBefore(s, |s|, y) && NotBefore(t, n - |s|, y) && !Has(s, y)
  {
    forall j | 0 <= j < |s| ensures s[j].id != y {
      assert (s + t)[j] == s[j];
    }
    forall j | 0 <= j < n - |s| ensures t[j].id != y {
      assert (s + t)[|s| + j] == t[j];
    }
  }

  lemma LeadsInPart(s: seq<Event>, t: seq<Event>, x: string, y: string)
    requires Leads(s + t, x, y)
    ensures Leads(s, x, y) || (!Has(s, x) && !Has(s, y) && Leads(t, x, y))
  {
    var k :| 0 <= k < |s + t| && (s + t)[k].id == x && forall j :: 0 <= j <= k ==> (s + t)[j].id != y;
    if k < |s| {
      forall j | 0 <= j <= k ensures s[j].id != y {
        assert (s + t)[j] == s[j];
      }
      LeadsAt(s, x, y, k);
    } else {
      NotBeforeInParts(s, t, k + 1, y);
      if Has(s, x) {
        var i :| 0 <= i < |s| && s[i].id == x;
        LeadsAt(s, x, y, i);
      } else {
        LeadsAt(t, x, y, k - |s|);
      }
    }
  }

  /** What decides the lead in a longer list. */
  lemma LeadsConcat(s: seq<Event>, t: seq<Event>, x: string, y: string)
    ensures Leads(s + t, x, y) <==> Leads(s, x, y) || (!Has(s, x) && !Has(s, y) && Leads(t, x, y))
  {
    hide Leads, Has;
    if Leads(s + t, x, y) {
      LeadsInPart(s, t, x, y);
    }
    if Leads(s, x, y) || (!Has(s, x) && !Has(s, y) && Leads(t, x, y)) {
      LeadsInLonger(s, t, x, y);
    }
  }

  lemma LeadsAt(offered: seq<Event>, x: string, y: string, k: nat)
    requires k < |offered| && offered[k].id == x && forall j :: 0 <= j <= k ==> offered[j].id != y
    ensures Leads(offered, x, y)
  {
  }

  lemma {:induction false} SomeoneLeads(offered: seq<Event>, x: string, y: string)
    requires x != y
    ensures Leads(offered, x, y) || Leads(offered, y, x) <==> Has(offered, x) || Has(offered, y)
    ensures !(Leads(offered, x, y) && Leads(offered, y, x))
  {
    if offered != [] {
      var init, last := offered[..|offered| - 1], offered[|offered| - 1];
      assert offered == init + [last];
      SomeoneLeads(init, x, y);
      LeadsConcat(init, [last], x, y);
      LeadsConcat(init, [last], y, x);
      LoneLeader(last, x, y);
      LoneLeader(last, y, x);
      HasConcat(init, [last], x);
      HasConcat(init, [last], y);
      hide Leads, Has;
    }
  }

  lemma HasConcat(s: seq<Event>, t: seq<Event>, x: string)
    ensures Has(s + t, x) <==> Has(s, x) || Has(t, x)
  {
    if Has(s, x) {
      var e :| e in s && e.id == x;
      assert e in s + t;
    }
    if Has(t, x) {
      var e :| e in t && e.id == x;
      assert e in s + t;
    }
  }

  lemma LoneLeader(e: Event, x: string, y: string)
    requires x != y
    ensures Leads([e], x, y) <==> e.id == x
    ensures Has([e], x) <==> e.id == x
  {
    if e.id == x {
      assert [e][0] == e;
      LeadsAt([e], x, y, 0);
    }
  }

  function Ids(events: seq<Event>): (ids: seq<string>)
    ensures |ids| == |events|
  {
    Map((e: Event) => e.id, events)
  }

  lemma AheadAppend<T(!new)>(s: seq<T>, z: T, a: T, b: T)
    ensures Ahead(s + [z], a, b) <==> Ahead(s, a, b) || (z == b && a in s)
  {
    if Ahead(s + [z], a, b) && !Ahead(s, a, b) {
      assert (s + [z])[..|s|] == s;
      LastOfPair(s + [z], a, b);
    }
    if Ahead(s, a, b) {
      AheadInLonger(s, s + [z], a, b);
    }
    if z == b && a in s {
      AheadOfLast(s, a, b);
    }
  }

  lemma IdsOfConsider(merged: seq<Event>, e: Event)
    ensures Ids(Consider(merged, e)) == if e.id in Ids(merged) then Ids(merged) else Ids(merged) + [e.id]
  {
    var i := IndexOf(merged, e.id);
    if i < |merged| {
      assert Ids(merged)[i] == e.id;
    }
  }

  /** The merged dictionary lists the offered ids, each where it was first offered. */
  lemma {:induction false} MergeListsFirstOffers(offered: seq<Event>, x: string, y: string)
    requires x != y
    ensures x in Ids(Merge(offered)) <==> Has(offered, x)
    ensures y in Ids(Merge(offered)) <==> Has(offered, y)
    ensures Ahead(Ids(Merge(offered)), x, y) <==> Leads(offered, x, y) && Has(offered, y)
  {
    if offered != [] {
      var init, last := offered[..|offered| - 1], offered[|offered| - 1];
      assert offered == init + [last];
      MergeListsFirstOffers(init, x, y);
      MergeAppend(init, last);
      IdsOfConsider(Merge(init), last);
      FirstOffersStep(init, last, x, y);
      AheadAppend(Ids(Merge(init)), last.id, x, y);
      hide Ids, Merge, Leads, Has, Ahead;
    }
  }

  lemma FirstOffersStep(init: seq<Event>, last: Event, x: string, y: string)
    requires x != y
    ensures Has(init + [last], x) <==> Has(init, x) || last.id == x
    ensures Has(init + [last], y) <==> Has(init, y) || last.id == y
    ensures Leads(init + [last], x, y) <==> Leads(init, x, y) || (!Has(init, x) && !Has(init, y) && last.id == x)
    ensures Leads(init, x, y) ==> Has(init, x)
    ensures Has(init, x) && !Has(init, y) ==> Leads(init, x, y)
  {
    LeadsConcat(init, [last], x, y);
    HasConcat(init, [last], x);
    HasConcat(init, [last], y);
    LoneLeader(last, x, y);
    LoneLeader(last, y, x);
    SomeoneLeads(init, x, y);
    LeaderIsOffered(init, x, y);
    LeaderIsOffered(init, y, x);
    hide Leads, Has;
  }

  lemma LeaderIsOffered(offered: seq<Event>, x: string, y: string)
    ensures Leads(offered, x, y) ==> Has(offered, x)
  {
    if Leads(offered, x, y) {
      var k :| 0 <= k < |offered| && offered[k].id == x && forall j :: 0 <= j <= k ==> offered[j].id != y;
      assert offered[k] in offered;
    }
  }

  lemma AheadByIds(events: seq<Event>, a: Event, b: Event)
    requires DistinctIds(events) && a in events && b in events
    ensures Ahead(events, a, b) <==> Ahead(Ids(events), a.id, b.id)
  {
    if Ahead(events, a, b) {
      var i, j :| 0 <= i < j < |events| && events[i] == a && events[j] == b;
      assert Ids(events)[i] == a.id && Ids(events)[j] == b.id;
    }
    if Ahead(Ids(events), a.id, b.id) {
      var i, j :| 0 <= i < j < |events| && Ids(events)[i] == a.id && Ids(events)[j] == b.id;
      var k :| 0 <= k < |events| && events[k] == a;
      var l :| 0 <= l < |events| && events[l] == b;
      assert i == k && j == l;
    }
  }

  // ---------- the lead over all batches ----------

  /** Of two batches, one offers `x` before `y` and the other `y` before `x`. */
  ghost predicate Contested(query: Query, batches: seq<Batch>, x: string, y: string) {
    exists b, c :: b in batches && c in batches && Leads(Survivors(query, b), x, y) && Leads(Survivors(query, c), y, x)
  }

  ghost predicate LedInSome(query: Query, batches: seq<Batch>, x: string, y: string) {
    exists b :: b in batches && Leads(Survivors(query, b), x, y)
  }

  lemma {:induction false} LeadIsTakenInSomeBatch(query: Query, batches: seq<Batch>, x: string, y: string)
    ensures Leads(Offered(query, batches), x, y) ==> LedInSome(query, batches, x, y)
  {
    if batches != [] {
      var init, last := batches[..|batches| - 1], batches[|batches| - 1];
      assert batches == init + [last];
      LeadIsTakenInSomeBatch(query, init, x, y);
      hide Leads, Survivors, Has;
      LeadsConcat(Offered(query, init), Survivors(query, last), x, y);
    } else {
      assert Offered(query, batches) == [];
    }
  }

  lemma {:induction false} LedIsOffered(query: Query, batches: seq<Batch>, x: string, y: string)
    requires LedInSome(query, batches, x, y)
    ensures Has(Offered(query, batches), x)
  {
    var b :| b in batches && Leads(Survivors(query, b), x, y);
    LeaderIsOffered(Survivors(query, b), x, y);
    var e :| e in Survivors(query, b) && e.id == x;
    OfferedMembers(query, batches, b, e);
  }

  /** Uncontested, the lead over everything offered is the lead in any batch. */
  lemma LeadIffLedInSome(query: Query, batches: seq<Batch>, x: string, y: string)
    requires x != y && !Contested(query, batches, x, y)
    ensures Leads(Offered(query, batches), x, y) <==> LedInSome(query, batches, x, y)
  {
    LeadIsTakenInSomeBatch(query, batches, x, y);
    LeadIsTakenInSomeBatch(query, batches, y, x);
    SomeoneLeads(Offered(query, batches), x, y);
    hide Leads, Survivors, Has;
    if LedInSome(query, batches, x, y) {
      LedIsOffered(query, batches, x, y);
    }
  }

  // ---------- the fetched list ----------

  /** No two champions of one time are offered in one order by one batch and in the opposite order by another. */
  ghost predicate NoContestedTies(query: Query, batches: seq<Batch>) {
    forall e, f :: Champion(query, batches, e) && Champion(query, batches, f) && e != f && e.time == f.time ==>
      !Contested(query, batches, e.id, f.id)
  }

  lemma FetchedIsChampion(query: Query, batches: seq<Batch>, e: Event)
    ensures e in Fetched(query, batches) ==> Champion(query, batches, e)
    ensures UniqueChampions(query, batches) && Champion(query, batches, e) ==> e in Fetched(query, batches)
  {
    FetchedIsTheMerge(query, batches);
    hide Fetched, Champion, Wins, Offered;
    if e in Fetched(query, batches) {
      WinnerIsChampion(query, batches, e);
    }
    if UniqueChampions(query, batches) {
      WinsIffChampion(query, batches, e);
    }
  }

  /** Every permutation of the provider batches fetches the same list. */
  ghost predicate ListOrderFree(query: Query, batches: seq<Batch>) {
    forall others :: multiset(others) == multiset(batches) ==> Fetched(query, batches) == Fetched(query, others)
  }

  /** Among events of one time, the fetched list follows the order of first offers. */
  lemma TiesFollowFirstOffers(query: Query, batches: seq<Batch>, e: Event, f: Event)
    requires e in Fetched(query, batches) && f in Fetched(query, batches) && e != f && e.time == f.time
    ensures e.id != f.id
    ensures Ahead(Fetched(query, batches), e, f) <==> Leads(Offered(query, batches), e.id, f.id)
  {
    var offered := Offered(query, batches);
    var merged := Merge(offered);
    FetchedIsTheMerge(query, batches);
    MergeHoldsWinners(offered);
    SortMembers(merged, TimeOf);
    hide Merge, Offered, Wins, Leads, Ahead;
    OneIdOneEvent(merged, e, f);
    MergeListsFirstOffers(offered, e.id, f.id);
    MergedIsOffered(merged, f);
    AheadByIds(merged, e, f);
    AheadByIds(merged, f, e);
    DistinctIdsDoNotRepeat(merged);
    DistinctIdsDoNotRepeat(Fetched(query, batches));
    OneOrTheOther(merged, e, f);
    OneOrTheOther(Fetched(query, batches), e, f);
    if Ahead(merged, e, f) {
      SortIsStable(merged, TimeOf, e, f);
    } else {
      SortIsStable(merged, TimeOf, f, e);
    }
  }

  lemma OneIdOneEvent(events: seq<Event>, e: Event, f: Event)
    requires DistinctIds(events) && e in events && f in events && e != f
    ensures e.id != f.id
  {
  }

  lemma MergedIsOffered(merged: seq<Event>, f: Event)
    requires f in merged
    ensures f.id in Ids(merged)
  {
    var k :| 0 <= k < |merged| && merged[k] == f;
    assert Ids(merged)[k] == f.id;
  }

  lemma DistinctIdsDoNotRepeat(events: seq<Event>)
    requires DistinctIds(events)
    ensures NoRepeats(events)
  {
  }

  /** Uncontested ties stand in the same order whichever way the batches are permuted. */
  lemma UncontestedTiesAgree(query: Query, batches: seq<Batch>, others: seq<Batch>, e: Event, f: Event)
    requires multiset(batches) == multiset(others) && NoContestedTies(query, batches)
    requires SameEvents(Fetched(query, batches), Fetched(query, others))
    requires e.time == f.time && Ahead(Fetched(query, batches), e, f)
    ensures Ahead(Fetched(query, others), e, f)
  {
    FetchedDoNotRepeat(query, batches);
    AheadMeansTwo(Fetched(query, batches), e, f);
    TiesFollowFirstOffers(query, batches, e, f);
    TiesFollowFirstOffers(query, others, e, f);
    SameMembers(batches, others);
    FetchedIsChampion(query, batches, e);
    FetchedIsChampion(query, batches, f);
    hide Fetched, Leads, Survivors, Offered, Ahead, Champion;
    assert !Contested(query, batches, e.id, f.id);
    assert !Contested(query, others, e.id, f.id);
    LeadIffLedInSome(query, batches, e.id, f.id);
    LeadIffLedInSome(query, others, e.id, f.id);
  }

  lemma AheadMeansTwo<T(!new)>(s: seq<T>, a: T, b: T)
    requires NoRepeats(s) && Ahead(s, a, b)
    ensures a in s && b in s && a != b
  {
  }

  lemma FetchedDoNotRepeat(query: Query, batches: seq<Batch>)
    ensures NoRepeats(Fetched(query, batches)) && SortedBy(Fetched(query, batches), TimeOf)
    ensures DistinctIds(Fetched(query, batches))
  {
    FetchedIsTheMerge(query, batches);
    DistinctIdsDoNotRepeat(Fetched(query, batches));
  }

  lemma UncontestedListIsTheSame(query: Query, batches: seq<Batch>, others: seq<Batch>)
    requires multiset(batches) == multiset(others) && NoContestedTies(query, batches) && UniqueChampions(query, batches)
    ensures Fetched(query, batches) == Fetched(query, others)
  {
    OneChampionIsOrderFree(query, batches, others);
    FetchedDoNotRepeat(query, batches);
    FetchedDoNotRepeat(query, others);
    var s, t := Fetched(query, batches), Fetched(query, others);
    hide Fetched, NoContestedTies, UniqueChampions, SortedBy, NoRepeats, Ahead;
    SameEventsSameCopies(s, t);
    forall e, f | TimeOf(e) == TimeOf(f) && Ahead(s, e, f) ensures Ahead(t, e, f) {
      UncontestedTiesAgree(query, batches, others, e, f);
    }
    SortedWithTies(s, t, TimeOf);
  }

  /** The batch asked first decides the order of a tie it leads. */
  lemma AskedFirstLeads(query: Query, batches: seq<Batch>, b: Batch, x: string, y: string) returns (order: seq<Batch>)
    requires b in batches && Leads(Survivors(query, b), x, y)
    ensures multiset(order) == multiset(batches) && Leads(Offered(query, order), x, y)
  {
    var rest := AskedFirst(batches, b);
    order := [b] + rest;
    hide Survivors, Offered, Leads;
    OfferedConcat(query, [b], rest);
    assert Offered(query, [b]) == Survivors(query, b) by {
      OfferedAppend(query, [], b);
      assert Offered(query, []) == [] by { NothingOffered(query); }
      assert [] + [b] == [b];
      assert [] + Survivors(query, b) == Survivors(query, b);
    }
    LeadsConcat(Survivors(query, b), Offered(query, rest), x, y);
  }

  lemma NothingOffered(query: Query)
    ensures Offered(query, []) == []
  {
  }

  /** A contested tie comes out either way, depending on which batch is asked first. */
  lemma ContestedTieMakesOrderMatter(query: Query, batches: seq<Batch>, e: Event, f: Event)
    requires OrderFree(query, batches)
    requires e in Fetched(query, batches) && f in Fetched(query, batches) && e != f && e.time == f.time
    requires Contested(query, batches, e.id, f.id)
    ensures !ListOrderFree(query, batches)
  {
    var b, c :| b in batches && c in batches && Leads(Survivors(query, b), e.id, f.id) && Leads(Survivors(query, c), f.id, e.id);
    var first := AskedFirstLeads(query, batches, b, e.id, f.id);
    var second := AskedFirstLeads(query, batches, c, f.id, e.id);
    hide Survivors, Offered, Leads, Fetched, Ahead;
    assert SameEvents(Fetched(query, batches), Fetched(query, first));
    assert SameEvents(Fetched(query, batches), Fetched(query, second));
    TiesFollowFirstOffers(query, first, e, f);
    TiesFollowFirstOffers(query, second, f, e);
    FetchedDoNotRepeat(query, second);
    OneOrTheOther(Fetched(query, second), e, f);
  }

  /**
   The whole list is free of provider order exactly when no id has two champions and no two champions
   of one time are offered in opposite orders by two batches.
   */
  lemma ListOrderDoesNotMatterIff(query: Query, batches: seq<Batch>)
    ensures ListOrderFree(query, batches) <==> (UniqueChampions(query, batches) && NoContestedTies(query, batches))
  {
    hide Fetched, UniqueChampions, Contested, Champion;
    ProviderOrderDoesNotMatterIff(query, batches);
    if UniqueChampions(query, batches) && NoContestedTies(query, batches) {
      forall others | multiset(others) == multiset(batches) ensures Fetched(query, batches) == Fetched(query, others) {
        UncontestedListIsTheSame(query, batches, others);
      }
    }
    if ListOrderFree(query, batches) {
      assert OrderFree(query, batches);
      forall e, f | Champion(query, batches, e) && Champion(query, batches, f) && e != f && e.time == f.time
        ensures !Contested(query, batches, e.id, f.id)
      {
        FetchedIsChampion(query, batches, e);
        FetchedIsChampion(query, batches, f);
        if Contested(query, batches, e.id, f.id) {
          ContestedTieMakesOrderMatter(query, batches, e, f);
        }
      }
    }
  }
}
