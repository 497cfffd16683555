/** The merged calendar is canonical: one event per id, sorted, and independent of provider order. */
module CalendarLaws {
  import opened Sequences
  import opened EconomicCalendar

  /** Exactly one event per surviving id: the earliest of those with the highest priority, in time order. */
  lemma FetchedIsTheMerge(query: Query, batches: seq<Batch>)
    ensures var offered, events := Offered(query, batches), Fetched(query, batches);
            && SortedBy(events, TimeOf)
            && (forall e :: e in events <==> Wins(offered, e))
            && DistinctIds(events)
            && (forall e :: e in offered ==> exists m :: m in events && m.id == e.id)
  {
    var offered := Offered(query, batches);
    MergeHoldsWinners(offered);
    SortMembers(Merge(offered), TimeOf);
    SortKeepsDistinctIds(Merge(offered));
  }

  lemma SortKeepsDistinctIds(merged: seq<Event>)
    requires DistinctIds(merged)
    ensures DistinctIds(Sort(merged, TimeOf))
  {
    var sorted := Sort(merged, TimeOf);
    forall i, j | 0 <= i < j < |sorted| ensures sorted[i].id != sorted[j].id {
      if sorted[i].id == sorted[j].id {
        assert multiset(sorted)[sorted[i]] >= 1 && multiset(sorted)[sorted[j]] >= 1;
        assert sorted[i] in multiset(merged) && sorted[j] in multiset(merged);
        var a :| 0 <= a < |merged| && merged[a] == sorted[i];
        var b :| 0 <= b < |merged| && merged[b] == sorted[j];
        assert a == b;
        TwoPlacesTwoCopies(sorted, i, j);
        OnePlaceOneCopy(merged, a);
      }
    }
  }

  lemma TwoPlacesTwoCopies<T>(s: seq<T>, i: nat, j: nat)
    requires i < j < |s| && s[i] == s[j]
    ensures multiset(s)[s[i]] >= 2
  {
    assert s == s[..j] + [s[j]] + s[j + 1..];
    assert s[..j][i] == s[i];
  }

  lemma OnePlaceOneCopy<T>(s: seq<T>, i: nat)
    requires i < |s| && forall j :: 0 <= j < |s| && j != i ==> s[j] != s[i]
    ensures multiset(s)[s[i]] == 1
  {
    assert s == s[..i] + [s[i]] + s[i + 1..];
    assert s[i] !in s[..i] && s[i] !in s[i + 1..];
  }

  // ---------- independence of provider order ----------

  /** The winner of its own batch, outranked by no event of any batch; this does not depend on the order of the batches. */
  ghost predicate Champion(query: Query, batches: seq<Batch>, e: Event) {
    && (exists b :: b in batches && Wins(Survivors(query, b), e))
    && forall b :: b in batches ==> Tops(e, Survivors(query, b), false)
  }

  /** No id has two different champions. */
  ghost predicate UniqueChampions(query: Query, batches: seq<Batch>) {
    forall e, f :: Champion(query, batches, e) && Champion(query, batches, f) && e.id == f.id ==> e == f
  }

  ghost predicate SameEvents(s: seq<Event>, t: seq<Event>) {
    forall e :: e in s <==> e in t
  }

  /** Every permutation of the provider batches fetches the same set of events. */
  ghost predicate OrderFree(query: Query, batches: seq<Batch>) {
    forall others :: multiset(others) == multiset(batches) ==> SameEvents(Fetched(query, batches), Fetched(query, others))
  }

  lemma WinnerIsOffered(offered: seq<Event>, e: Event)
    requires Wins(offered, e)
    ensures e in offered && Tops(e, offered, false)
  {
    var k :| WinsAt(offered, k) && offered[k] == e;
    forall f | f in offered && f.id == e.id ensures Rank(f) <= Rank(e) {
      var j :| 0 <= j < |offered| && offered[j] == f;
    }
  }

  lemma OneWinnerPerId(offered: seq<Event>, e: Event, f: Event)
    requires Wins(offered, e) && Wins(offered, f) && e.id == f.id
    ensures e == f
  {
    var i :| WinsAt(offered, i) && offered[i] == e;
    var j :| WinsAt(offered, j) && offered[j] == f;
  }

  lemma {:induction false} TopsOffered(query: Query, batches: seq<Batch>, e: Event, strictly: bool)
    ensures Tops(e, Offered(query, batches), strictly) <==>
              (forall b :: b in batches ==> Tops(e, Survivors(query, b), strictly))
  {
    if batches != [] {
      var init, last := batches[..|batches| - 1], batches[|batches| - 1];
      assert batches == init + [last];
      TopsOffered(query, init, e, strictly);
    }
  }

  /** Whatever the order of the batches, who wins over everything offered is a champion. */
  lemma {:induction false} WinnerIsChampion(query: Query, batches: seq<Batch>, e: Event)
    requires Wins(Offered(query, batches), e)
    ensures Champion(query, batches, e)
  {
    if batches != [] {
      var init, last := batches[..|batches| - 1], batches[|batches| - 1];
      assert batches == init + [last];
      WinsConcat(Offered(query, init), Survivors(query, last), e);
      hide Survivors, Wins, Tops, Champion, WinsAt;
      if Wins(Offered(query, init), e) && Tops(e, Survivors(query, last), false) {
        WinnerIsChampion(query, init, e);
        ChampionStays(query, init, last, e);
      } else {
        NewcomerIsChampion(query, init, last, e);
      }
    }
  }

  lemma ChampionStays(query: Query, init: seq<Batch>, last: Batch, e: Event)
    requires Champion(query, init, e) && Tops(e, Survivors(query, last), false)
    ensures Champion(query, init + [last], e)
  {
    hide Survivors, Wins, Tops;
    var b :| b in init && Wins(Survivors(query, b), e);
    assert b in init + [last];
  }

  lemma NewcomerIsChampion(query: Query, init: seq<Batch>, last: Batch, e: Event)
    requires Wins(Survivors(query, last), e) && Tops(e, Offered(query, init), true)
    ensures Champion(query, init + [last], e)
  {
    WinnerIsOffered(Survivors(query, last), e);
    TopsOffered(query, init, e, true);
    hide Survivors, Wins, Offered;
    assert last in init + [last];
  }

  lemma {:induction false} OfferedMembers(query: Query, batches: seq<Batch>, b: Batch, e: Event)
    requires b in batches && e in Survivors(query, b)
    ensures e in Offered(query, batches)
  {
    var init, last := batches[..|batches| - 1], batches[|batches| - 1];
    assert batches == init + [last];
    if b in init {
      OfferedMembers(query, init, b, e);
    }
  }

  /** With one champion per id, the winners are the champions. */
  lemma WinsIffChampion(query: Query, batches: seq<Batch>, e: Event)
    requires UniqueChampions(query, batches)
    ensures Wins(Offered(query, batches), e) <==> Champion(query, batches, e)
  {
    if Champion(query, batches, e) {
      var b :| b in batches && Wins(Survivors(query, b), e);
      WinnerIsOffered(Survivors(query, b), e);
      OfferedMembers(query, batches, b, e);
      MergeHoldsWinners(Offered(query, batches));
      var m :| m in Merge(Offered(query, batches)) && m.id == e.id;
      WinnerIsChampion(query, batches, m);
      hide Champion, Wins;
      assert m == e;
    }
    if Wins(Offered(query, batches), e) {
      WinnerIsChampion(query, batches, e);
    }
  }

  lemma ChampionsDoNotDependOnOrder(query: Query, batches: seq<Batch>, others: seq<Batch>)
    requires multiset(batches) == multiset(others)
    ensures forall e :: Champion(query, batches, e) <==> Champion(query, others, e)
  {
    SameMembers(batches, others);
    hide Wins, Survivors, Tops;
  }

  /** A champion whose batch is asked first wins. */
  lemma ChampionAskedFirstWins(query: Query, b: Batch, rest: seq<Batch>, e: Event)
    requires Champion(query, [b] + rest, e) && Wins(Survivors(query, b), e)
    ensures e in Fetched(query, [b] + rest)
  {
    hide Survivors, Wins;
    OfferedConcat(query, [b], rest);
    assert Offered(query, [b]) == Survivors(query, b) by { OfferedAppend(query, [], b); assert [] + [b] == [b]; }
    TopsOffered(query, rest, e, false);
    WinsConcat(Survivors(query, b), Offered(query, rest), e);
    FetchedIsTheMerge(query, [b] + rest);
  }

  lemma AskedFirst(batches: seq<Batch>, b: Batch) returns (rest: seq<Batch>)
    requires b in batches
    ensures multiset([b] + rest) == multiset(batches)
  {
    var i :| 0 <= i < |batches| && batches[i] == b;
    rest := batches[..i] + batches[i + 1..];
    assert batches == batches[..i] + [b] + batches[i + 1..];
  }

  lemma OneChampionIsOrderFree(query: Query, batches: seq<Batch>, others: seq<Batch>)
    requires multiset(batches) == multiset(others) && UniqueChampions(query, batches)
    ensures SameEvents(Fetched(query, batches), Fetched(query, others))
  {
    ChampionsDoNotDependOnOrder(query, batches, others);
    FetchedIsTheMerge(query, batches);
    FetchedIsTheMerge(query, others);
    hide Wins, Fetched, Champion, Offered;
    forall e ensures e in Fetched(query, batches) <==> e in Fetched(query, others) {
      WinsIffChampion(query, batches, e);
      WinsIffChampion(query, others, e);
    }
  }

  /** Two champions of one id: asking the batch of either first makes that one win. */
  lemma TwoChampionsMakeOrderMatter(query: Query, batches: seq<Batch>, e: Event, f: Event)
    requires Champion(query, batches, e) && Champion(query, batches, f) && e.id == f.id && e != f
    ensures exists first, second ::
              && multiset(first) == multiset(batches) && multiset(second) == multiset(batches)
              && e in Fetched(query, first) && f !in Fetched(query, first)
              && f in Fetched(query, second) && e !in Fetched(query, second)
  {
    var first := ChampionCanWin(query, batches, e);
    var second := ChampionCanWin(query, batches, f);
    FetchedIsTheMerge(query, first);
    FetchedIsTheMerge(query, second);
    hide Fetched, Champion, Wins, Offered;
    DistinctIdsMeanOneEach(Fetched(query, first), e, f);
    DistinctIdsMeanOneEach(Fetched(query, second), f, e);
  }

  lemma ChampionCanWin(query: Query, batches: seq<Batch>, e: Event) returns (order: seq<Batch>)
    requires Champion(query, batches, e)
    ensures multiset(order) == multiset(batches) && e in Fetched(query, order)
  {
    var b :| b in batches && Wins(Survivors(query, b), e);
    var rest := AskedFirst(batches, b);
    order := [b] + rest;
    ChampionsDoNotDependOnOrder(query, batches, order);
    hide Wins, Survivors, Fetched, Champion;
    ChampionAskedFirstWins(query, b, rest, e);
  }

  lemma DistinctIdsMeanOneEach(events: seq<Event>, e: Event, f: Event)
    requires DistinctIds(events) && e in events && e.id == f.id && e != f
    ensures f !in events
  {
  }

  /** The set of fetched events is free of provider order exactly when no id has two different champions. */
  lemma ProviderOrderDoesNotMatterIff(query: Query, batches: seq<Batch>)
    ensures OrderFree(query, batches) <==> UniqueChampions(query, batches)
  {
    hide Fetched, Champion;
    if UniqueChampions(query, batches) {
      forall others | multiset(others) == multiset(batches)
        ensures SameEvents(Fetched(query, batches), Fetched(query, others))
      {
        OneChampionIsOrderFree(query, batches, others);
      }
    } else {
      var e, f :| Champion(query, batches, e) && Champion(query, batches, f) && e.id == f.id && e != f;
      TwoChampionsMakeOrderMatter(query, batches, e, f);
      var first, second :| multiset(first) == multiset(batches) && multiset(second) == multiset(batches)
        && e in Fetched(query, first) && f !in Fetched(query, first)
        && f in Fetched(query, second) && e !in Fetched(query, second);
      assert !SameEvents(Fetched(query, first), Fetched(query, second));
      assert SameEvents(Fetched(query, batches), Fetched(query, first))
             && SameEvents(Fetched(query, batches), Fetched(query, second)) ==>
               SameEvents(Fetched(query, first), Fetched(query, second));
    }
  }

  /** No two batches offer the same id at equal priority. */
  ghost predicate NoTies(query: Query, batches: seq<Batch>) {
    forall i, j :: 0 <= i < j < |batches| ==> !Tie(query, batches[i], batches[j])
  }

  ghost predicate Tie(query: Query, b: Batch, c: Batch) {
    exists e, f :: e in Survivors(query, b) && f in Survivors(query, c) && e.id == f.id && Rank(e) == Rank(f)
  }

  lemma ChampionsOfTwoBatchesTie(query: Query, batches: seq<Batch>, b: Batch, c: Batch, e: Event, f: Event)
    requires Champion(query, batches, e) && Champion(query, batches, f) && e.id == f.id
    requires b in batches && c in batches && Wins(Survivors(query, b), e) && Wins(Survivors(query, c), f)
    ensures Tie(query, b, c) && Tie(query, c, b)
  {
    WinnerIsOffered(Survivors(query, b), e);
    WinnerIsOffered(Survivors(query, c), f);
    hide Survivors, Wins;
    assert Rank(e) == Rank(f);
  }

  lemma NoTiesBetween(query: Query, batches: seq<Batch>, b: Batch, c: Batch)
    requires NoTies(query, batches) && b in batches && c in batches && b != c
    ensures !Tie(query, b, c) || !Tie(query, c, b)
  {
    var i :| 0 <= i < |batches| && batches[i] == b;
    var j :| 0 <= j < |batches| && batches[j] == c;
    assert i < j || j < i;
  }

  /** In particular the set is free of provider order when no two batches offer an id at equal priority. */
  lemma WithoutTiesOrderDoesNotMatter(query: Query, batches: seq<Batch>)
    requires NoTies(query, batches)
    ensures OrderFree(query, batches)
  {
    forall e, f | Champion(query, batches, e) && Champion(query, batches, f) && e.id == f.id ensures e == f {
      var b :| b in batches && Wins(Survivors(query, b), e);
      var c :| c in batches && Wins(Survivors(query, c), f);
      if b == c {
        OneWinnerPerId(Survivors(query, b), e, f);
      } else {
        NoTiesBetween(query, batches, b, c);
        ChampionsOfTwoBatchesTie(query, batches, b, c, e, f);
        assert false;
      }
    }
    ProviderOrderDoesNotMatterIff(query, batches);
  }

  lemma SameMembers<T(!new)>(s: seq<T>, t: seq<T>)
    requires multiset(s) == multiset(t)
    ensures forall x :: x in s <==> x in t
  {
    forall x ensures x in s <==> x in t {
      assert x in s <==> x in multiset(s);
      assert x in t <==> x in multiset(t);
    }
  }

  lemma SameEventsSameCopies(s: seq<Event>, t: seq<Event>)
    requires DistinctIds(s) && DistinctIds(t) && forall e :: e in s <==> e in t
    ensures multiset(s) == multiset(t)
  {
    forall e ensures multiset(s)[e] == multiset(t)[e] {
      if e in s {
        var i :| 0 <= i < |s| && s[i] == e;
        var j :| 0 <= j < |t| && t[j] == e;
        OnePlaceOneCopy(s, i);
        OnePlaceOneCopy(t, j);
      } else {
        assert e !in multiset(s) && e !in multiset(t);
      }
    }
  }

  // ---------- two providers ----------

  /** Two providers offering one id at equal priority: the one asked first wins. */
  lemma TiesGoToTheFirst(query: Query, e: Event, f: Event)
    requires query.Keeps(e) && query.Keeps(f) && e.id == f.id && Rank(e) == Rank(f) && e != f
    ensures Fetched(query, [Events([e]), Events([f])]) == [e]
    ensures Fetched(query, [Events([f]), Events([e])]) == [f]
  {
    FetchTwo(query, e, f);
    FetchTwo(query, f, e);
  }

  /** Two providers offering different events of one time: the list follows the order of asking. */
  lemma EqualTimesFollowProviders(query: Query, e: Event, f: Event)
    requires query.Keeps(e) && query.Keeps(f) && e.id != f.id && e.time == f.time
    ensures Fetched(query, [Events([e]), Events([f])]) == [e, f]
    ensures Fetched(query, [Events([f]), Events([e])]) == [f, e]
  {
    FetchTwo(query, e, f);
    FetchTwo(query, f, e);
  }

  lemma OfferTwo(query: Query, e: Event, f: Event)
    requires query.Keeps(e) && query.Keeps(f)
    ensures Offered(query, [Events([e]), Events([f])]) == [e] + [f]
  {
    var b, c := Events([e]), Events([f]);
    assert [b, c][..1] == [b] && [b][..0] == [];
    KeptAppend(query, [], e);
    KeptAppend(query, [], f);
    assert [] + [e] == [e] && [] + [f] == [f];
    assert Offered(query, [b]) == [e];
  }

  lemma FetchTwo(query: Query, e: Event, f: Event)
    requires query.Keeps(e) && query.Keeps(f)
    requires if e.id == f.id then Rank(e) == Rank(f) else e.time == f.time
    ensures Fetched(query, [Events([e]), Events([f])]) == if e.id == f.id then [e] else [e, f]
  {
    OfferTwo(query, e, f);
    assert Merge([e] + [f]) == if e.id == f.id then [e] else [e, f] by {
      hide Offered, Survivors;
      MergeAppend([], e);
      MergeAppend([e], f);
    }
    hide Merge, Kept, Rank, Offered;
    SortTwo(e, f);
  }

  lemma SortTwo(e: Event, f: Event)
    ensures Sort([e], TimeOf) == [e]
    ensures e.time == f.time ==> Sort([e, f], TimeOf) == [e, f]
  {
    assert [e][..0] == [] && [e, f][..1] == [e];
    assert Sort([e], TimeOf) == [e];
  }

  // ---------- failing providers ----------

  lemma OfferedAppend(query: Query, batches: seq<Batch>, b: Batch)
    ensures Offered(query, batches + [b]) == Offered(query, batches) + Survivors(query, b)
  {
    assert (batches + [b])[..|batches|] == batches;
  }

  lemma {:induction false} OfferedConcat(query: Query, s: seq<Batch>, t: seq<Batch>)
    ensures Offered(query, s + t) == Offered(query, s) + Offered(query, t)
  {
    if t == [] {
      assert s + t == s;
    } else {
      var init, last := t[..|t| - 1], t[|t| - 1];
      assert t == init + [last] && s + t == (s + init) + [last];
      hide Offered, Survivors;
      OfferedConcat(query, s, init);
      OfferedAppend(query, s + init, last);
      OfferedAppend(query, init, last);
    }
  }

  /** A provider that fails acts like one that was never registered. */
  lemma FailureIsAbsence(query: Query, batches: seq<Batch>, i: nat)
    requires i < |batches| && batches[i].Failure?
    ensures Fetched(query, batches) == Fetched(query, batches[..i] + batches[i + 1..])
  {
    var before, after := batches[..i], batches[i + 1..];
    assert batches == (before + [batches[i]]) + after;
    hide Offered;
    OfferedAppend(query, before, batches[i]);
    OfferedConcat(query, before + [batches[i]], after);
    OfferedConcat(query, before, after);
    assert Offered(query, before) + [] == Offered(query, before);
  }
}
