/** Which provider outranks which, and what the filters keep. */
module CalendarFacts {
  import opened Sequences
  import opened EconomicCalendar
  import opened CalendarLaws

  /** Bloomberg before Reuters before Forex Factory before everybody else. */
  predicate Outranks(a: string, b: string) {
    || (a == "bloomberg" && b != "bloomberg")
    || (a == "reuters" && b != "bloomberg" && b != "reuters")
    || (a == "forexfactory" && b != "bloomberg" && b != "reuters" && b != "forexfactory")
  }

  lemma FetchOfTwo(query: Query, e: Event, f: Event)
    requires query.Keeps(e) && query.Keeps(f) && e.id == f.id
    ensures Fetched(query, [Events([e]), Events([f])]) == if Outranks(f.provider, e.provider) then [f] else [e]
  {
    OfferTwo(query, e, f);
    assert Merge([e] + [f]) == if Outranks(f.provider, e.provider) then [f] else [e] by {
      hide Offered, Survivors;
      MergeAppend([], e);
      MergeAppend([e], f);
    }
    hide Merge, Kept, Offered, Rank, Outranks;
    SortTwo(e, f);
    SortTwo(f, e);
  }

  /** Of two providers offering one id, the higher-ranked one is fetched, whoever is asked first. */
  lemma HigherProviderWins(query: Query, e: Event, f: Event)
    requires query.Keeps(e) && query.Keeps(f) && e.id == f.id && Outranks(e.provider, f.provider)
    ensures Fetched(query, [Events([e]), Events([f])]) == [e]
    ensures Fetched(query, [Events([f]), Events([e])]) == [e]
  {
    FetchOfTwo(query, e, f);
    FetchOfTwo(query, f, e);
    hide Fetched;
  }

  predicate Wanted(query: Query, e: Event) {
    (|query.countries| == 0 || e.country in query.countries) && (|query.impacts| == 0 || e.impact in query.impacts)
  }

  lemma KeptAre(query: Query, events: seq<Event>)
    ensures forall e :: e in Kept(query, events) <==> e in events && Wanted(query, e)
  {
    FilterMembers((e: Event) => query.Keeps(e), events);
  }

  lemma {:induction false} OfferedAre(query: Query, batches: seq<Batch>, e: Event)
    ensures e in Offered(query, batches) <==>
              (Wanted(query, e) && exists b :: b in batches && b.Events? && e in b.events)
  {
    hide Wanted;
    if batches != [] {
      var init, last := batches[..|batches| - 1], batches[|batches| - 1];
      assert batches == init + [last];
      OfferedAre(query, init, e);
      if last.Events? {
        KeptAre(query, last.events);
      }
      hide Kept;
    }
  }

  /** What is fetched was wanted and offered by a provider that answered, and no wanted id of such a provider is lost. */
  lemma FetchedIsWanted(query: Query, batches: seq<Batch>, e: Event, b: Batch)
    ensures e in Fetched(query, batches) ==>
              Wanted(query, e) && exists c :: c in batches && c.Events? && e in c.events
    ensures b in batches && b.Events? && e in b.events && Wanted(query, e) ==>
              exists m :: m in Fetched(query, batches) && m.id == e.id
  {
    FetchedIsTheMerge(query, batches);
    OfferedAre(query, batches, e);
    hide Fetched, Wanted, Offered;
    if e in Fetched(query, batches) {
      WinnerIsOffered(Offered(query, batches), e);
    }
  }
}
