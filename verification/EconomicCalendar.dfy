/** The economic calendar: provider batches merged by priority and sorted by time. */
module EconomicCalendar {
  import opened Sequences

  datatype Event = Event(
    id: string, provider: string, time: real, country: string, impact: string, name: string,
    forecast: Option<string>, actual: Option<string>)

  /** What one provider call comes back with. */
  datatype Batch = Events(events: seq<Event>) | Failure(message: string)

  function Priority(provider: string): nat {
    if provider == "bloomberg" then 3
    else if provider == "reuters" then 2
    else if provider == "forexfactory" then 1
    else 0
  }

  function Rank(e: Event): nat {
    Priority(e.provider)
  }

  /** An absent or empty list does not filter. */
  datatype Query = Query(countries: seq<string>, impacts: seq<string>) {
    predicate Keeps(e: Event) {
      (countries == [] || e.country in countries) && (impacts == [] || e.impact in impacts)
    }
  }

  function Survivors(query: Query, batch: Batch): seq<Event> {
    if batch.Failure? then [] else Kept(query, batch.events)
  }

  /** Everything that survives the filters, in provider order. */
  function Offered(query: Query, batches: seq<Batch>): seq<Event> {
    if batches == [] then []
    else Offered(query, batches[..|batches| - 1]) + Survivors(query, batches[|batches| - 1])
  }

  // ---------- the merged dictionary, in insertion order ----------

  function IndexOf(merged: seq<Event>, id: string): (i: nat)
    ensures i <= |merged|
    ensures i < |merged| ==> merged[i].id == id
    ensures forall k :: 0 <= k < i ==> merged[k].id != id
  {
    IndexWhere(merged, (e: Event) => e.id == id)
  }

  /** A later event displaces the recorded one only with a higher priority, and takes its place. */
  function Consider(merged: seq<Event>, e: Event): seq<Event> {
    var i := IndexOf(merged, e.id);
    if i == |merged| then merged + [e]
    else if Rank(e) > Rank(merged[i]) then merged[i := e]
    else merged
  }

  function Merge(offered: seq<Event>): seq<Event> {
    if offered == [] then [] else Consider(Merge(offered[..|offered| - 1]), offered[|offered| - 1])
  }

  function TimeOf(e: Event): real {
    e.time
  }

  function Fetched(query: Query, batches: seq<Batch>): seq<Event> {
    Sort(Merge(Offered(query, batches)), TimeOf)
  }

  function Kept(query: Query, events: seq<Event>): seq<Event> {
    Filter((e: Event) => query.Keeps(e), events)
  }

  lemma KeptAppend(query: Query, events: seq<Event>, e: Event)
    ensures Kept(query, events + [e]) == if query.Keeps(e) then Kept(query, events) + [e] else Kept(query, events)
  {
    FilterAppend((e: Event) => query.Keeps(e), events, e);
  }

  lemma MergeAppend(offered: seq<Event>, e: Event)
    ensures Merge(offered + [e]) == Consider(Merge(offered), e)
  {
    assert (offered + [e])[..|offered|] == offered;
  }

  /** The inner loop over one batch, `before` being what earlier batches offered. */
  method MergeBatch(query: Query, recorded: seq<Event>, events: seq<Event>, ghost before: seq<Event>)
    returns (merged: seq<Event>)
    requires recorded == Merge(before)
    ensures merged == Merge(before + Kept(query, events))
  {
    hide Merge;
    merged := recorded;
    assert before + Kept(query, []) == before;
    for k := 0 to |events|
      invariant merged == Merge(before + Kept(query, events[..k]))
    {
      var e := events[k];
      ghost var kept := Kept(query, events[..k]);
      assert events[..k + 1] == events[..k] + [e];
      KeptAppend(query, events[..k], e);
      if query.countries != [] && e.country !in query.countries {
        continue;
      }
      if query.impacts != [] && e.impact !in query.impacts {
        continue;
      }
      hide Kept;
      assert before + (kept + [e]) == (before + kept) + [e];
      MergeAppend(before + kept, e);
      var at := IndexOf(merged, e.id);
      if at == |merged| {
        merged := merged + [e];
      } else if Rank(e) > Rank(merged[at]) {
        merged := merged[at := e];
      }
    }
    assert events[..|events|] == events;
  }

  method FetchEvents(query: Query, batches: seq<Batch>) returns (events: seq<Event>)
    ensures events == Fetched(query, batches)
  {
    var merged: seq<Event> := [];
    for i := 0 to |batches|
      invariant merged == Merge(Offered(query, batches[..i]))
    {
      hide Merge;
      assert batches[..i + 1][..i] == batches[..i];
      ghost var before := Offered(query, batches[..i]);
      if batches[i].Failure? {
        assert before + [] == before;
        continue;
      }
      merged := MergeBatch(query, merged, batches[i].events, before);
    }
    assert batches[..|batches|] == batches;
    events := Sort(merged, TimeOf);
  }

  // ---------- what is in the merged dictionary ----------

  /** The earliest of the highest-priority events of its id. */
  ghost predicate WinsAt(offered: seq<Event>, k: int) {
    && 0 <= k < |offered|
    && forall j :: 0 <= j < |offered| && offered[j].id == offered[k].id ==>
         Rank(offered[j]) <= Rank(offered[k]) && (j < k ==> Rank(offered[j]) < Rank(offered[k]))
  }

  ghost predicate Wins(offered: seq<Event>, e: Event) {
    exists k :: WinsAt(offered, k) && offered[k] == e
  }

  ghost predicate DistinctIds(events: seq<Event>) {
    forall i, j :: 0 <= i < j < |events| ==> events[i].id != events[j].id
  }

  /** No offered event of the same id outranks e; with `strictly`, none equals it either. */
  ghost predicate Tops(e: Event, offered: seq<Event>, strictly: bool) {
    forall f :: f in offered && f.id == e.id ==> Rank(f) < Rank(e) || (!strictly && Rank(f) == Rank(e))
  }

  lemma WinnerInFirst(s: seq<Event>, t: seq<Event>, k: nat)
    requires k < |s|
    ensures WinsAt(s + t, k) <==> WinsAt(s, k) && Tops(s[k], t, false)
  {
    var n, all := |s|, s + t;
    assert forall j :: 0 <= j < n ==> all[j] == s[j];
    assert forall j :: 0 <= j < |t| ==> all[n + j] == t[j];
    if WinsAt(all, k) {
      forall j | 0 <= j < n && s[j].id == s[k].id
        ensures Rank(s[j]) <= Rank(s[k]) && (j < k ==> Rank(s[j]) < Rank(s[k]))
      {
        assert all[j] == s[j];
      }
    }
  }

  lemma WinnerInSecond(s: seq<Event>, t: seq<Event>, k: nat)
    requires k < |t|
    ensures WinsAt(s + t, |s| + k) <==> WinsAt(t, k) && Tops(t[k], s, true)
  {
    var n, all := |s|, s + t;
    assert forall j :: 0 <= j < n ==> all[j] == s[j];
    assert forall j :: 0 <= j < |t| ==> all[n + j] == t[j];
    if WinsAt(all, n + k) {
      forall j | 0 <= j < |t| && t[j].id == t[k].id
        ensures Rank(t[j]) <= Rank(t[k]) && (j < k ==> Rank(t[j]) < Rank(t[k]))
      {
        assert all[n + j] == t[j];
      }
      forall f | f in s && f.id == t[k].id ensures Rank(f) < Rank(t[k]) {
        var j :| 0 <= j < n && s[j] == f;
        assert all[j] == f;
      }
    }
  }

  /** The winners of a longer list: an old winner not outranked, or a new one that outranks everything old. */
  lemma WinsConcat(s: seq<Event>, t: seq<Event>, e: Event)
    ensures Wins(s + t, e) <==> (Wins(s, e) && Tops(e, t, false)) || (Wins(t, e) && Tops(e, s, true))
  {
    hide WinsAt, Tops;
    if Wins(s + t, e) {
      var k :| 0 <= k < |s + t| && WinsAt(s + t, k) && (s + t)[k] == e by { WinsInRange(s + t, e); }
      if k < |s| {
        WinnerInFirst(s, t, k);
      } else {
        WinnerInSecond(s, t, k - |s|);
        assert t[k - |s|] == e;
      }
    }
    if Wins(s, e) && Tops(e, t, false) {
      var k :| 0 <= k < |s| && WinsAt(s, k) && s[k] == e by { WinsInRange(s, e); }
      WinnerInFirst(s, t, k);
      assert (s + t)[k] == e;
    }
    if Wins(t, e) && Tops(e, s, true) {
      var k :| 0 <= k < |t| && WinsAt(t, k) && t[k] == e by { WinsInRange(t, e); }
      WinnerInSecond(s, t, k);
      assert (s + t)[|s| + k] == e;
    }
  }

  lemma WinsInRange(offered: seq<Event>, e: Event)
    requires Wins(offered, e)
    ensures exists k :: 0 <= k < |offered| && WinsAt(offered, k) && offered[k] == e
  {
  }

  lemma SingletonWins(e: Event, f: Event)
    ensures Wins([e], f) <==> e == f
  {
    if e == f {
      assert WinsAt([e], 0);
    }
  }

  /** The merged dictionary holds one event per offered id, and it is the winner. */
  lemma {:induction false} MergeHoldsWinners(offered: seq<Event>)
    ensures DistinctIds(Merge(offered))
    ensures forall e :: e in Merge(offered) <==> Wins(offered, e)
    ensures forall e :: e in offered ==> exists m :: m in Merge(offered) && m.id == e.id && Rank(e) <= Rank(m)
  {
    if offered != [] {
      var init, last := offered[..|offered| - 1], offered[|offered| - 1];
      assert offered == init + [last];
      MergeHoldsWinners(init);
      var merged := Merge(init);
      var i := IndexOf(merged, last.id);
      ConsiderMembers(merged, last);
      forall e ensures e in Merge(offered) <==> Wins(offered, e) {
        WinsConcat(init, [last], e);
        SingletonWins(last, e);
        LastAgainstMerged(init, last);
      }
      forall e | e in offered ensures exists m :: m in Merge(offered) && m.id == e.id && Rank(e) <= Rank(m) {
        StillOutranked(init, last, e);
      }
    }
  }

  /** What `Consider` leaves in a dictionary with distinct ids. */
  lemma ConsiderMembers(merged: seq<Event>, last: Event)
    requires DistinctIds(merged)
    ensures DistinctIds(Consider(merged, last))
    ensures forall e :: e in Consider(merged, last) <==>
              || (e in merged && (e.id != last.id || Rank(last) <= Rank(e)))
              || (e == last && forall m :: m in merged && m.id == last.id ==> Rank(m) < Rank(last))
  {
    var i, after := IndexOf(merged, last.id), Consider(merged, last);
    forall e ensures e in after <==>
                       || (e in merged && (e.id != last.id || Rank(last) <= Rank(e)))
                       || (e == last && forall m :: m in merged && m.id == last.id ==> Rank(m) < Rank(last))
    {
      if e in merged {
        var k :| 0 <= k < |merged| && merged[k] == e;
        assert e.id == last.id ==> k == i;
        assert k != i && k < |after| ==> after[k] == e;
      }
      if i < |merged| {
        assert merged[i] in merged;
        assert after[i] in after;
      } else {
        assert after[|merged|] == last;
      }
    }
  }

  /** Against the merged dictionary the newcomer meets the same rivals as against everything offered. */
  lemma LastAgainstMerged(init: seq<Event>, last: Event)
    requires forall e :: e in Merge(init) <==> Wins(init, e)
    requires forall e :: e in init ==> exists m :: m in Merge(init) && m.id == e.id && Rank(e) <= Rank(m)
    ensures Tops(last, init, true) <==> forall m :: m in Merge(init) && m.id == last.id ==> Rank(m) < Rank(last)
  {
    forall m | m in Merge(init) ensures m in init {
      assert Wins(init, m);
      var k :| WinsAt(init, k) && init[k] == m;
    }
  }

  lemma StillOutranked(init: seq<Event>, last: Event, e: Event)
    requires DistinctIds(Merge(init)) && (e in init || e == last)
    requires forall e :: e in init ==> exists m :: m in Merge(init) && m.id == e.id && Rank(e) <= Rank(m)
    ensures exists m :: m in Consider(Merge(init), last) && m.id == e.id && Rank(e) <= Rank(m)
  {
    hide Merge, Consider, Rank;
    var merged := Merge(init);
    ConsiderMembers(merged, last);
    if e in init {
      var m :| m in merged && m.id == e.id && Rank(e) <= Rank(m);
      if m.id == last.id && Rank(m) < Rank(last) {
        forall o | o in merged && o.id == last.id ensures Rank(o) < Rank(last) {
          var a :| 0 <= a < |merged| && merged[a] == o;
          var b :| 0 <= b < |merged| && merged[b] == m;
        }
        assert last in Consider(merged, last);
      } else {
        assert m in Consider(merged, last);
      }
    } else if exists m :: m in merged && m.id == last.id && Rank(m) >= Rank(last) {
      var m :| m in merged && m.id == last.id && Rank(m) >= Rank(last);
      assert m in Consider(merged, last);
    } else {
      assert last in Consider(merged, last);
    }
  }
}
