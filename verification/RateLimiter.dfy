/** The sliding-window limiter: one pruned, expiring sorted set per key. */
module RateLimiter {
  import opened Sequences

  datatype Key = Connections(ip: string) | Messages(connection: string)

  /** A sorted set whose members are named by their own score, so equal scores are one member. */
  datatype ZSet = ZSet(members: set<real>, expiresAt: real)

  type Store = map<Key, ZSet>

  function Members(store: Store, key: Key, now: real): set<real> {
    if key in store && now < store[key].expiresAt then store[key].members else {}
  }

  /** zremrangebyscore 0 .. now - window, then zadd now. */
  function Refreshed(store: Store, key: Key, now: real, window: int): set<real> {
    (set m | m in Members(store, key, now) && !(0.0 <= m <= now - window as real)) + {now}
  }

  /** The store after one attempt; a non-positive time to live deletes the key. */
  function Attempted(store: Store, key: Key, now: real, window: int): Store {
    if window > 0 then store[key := ZSet(Refreshed(store, key, now, window), now + window as real)]
    else store - {key}
  }

  class WebSocketRateLimiter {
    var store: Store
    const connectionsPerIp: int
    const messagesPerMinute: int
    const window: int

    constructor (connectionsPerIp: int, messagesPerMinute: int, window: int)
      ensures store == map[] && this.connectionsPerIp == connectionsPerIp
      ensures this.messagesPerMinute == messagesPerMinute && this.window == window
    {
      store := map[];
      this.connectionsPerIp, this.messagesPerMinute, this.window := connectionsPerIp, messagesPerMinute, window;
    }

    /** The four pipelined commands; `count` is the reply to the third. */
    method Pipeline(key: Key, now: real) returns (count: nat)
      modifies this`store
      ensures count == |Refreshed(old(store), key, now, window)|
      ensures store == Attempted(old(store), key, now, window)
    {
      var members := if key in store && now < store[key].expiresAt then store[key].members else {};
      members := set m | m in members && !(0.0 <= m <= now - window as real);
      members := members + {now};
      count := |members|;
      if window > 0 {
        store := store[key := ZSet(members, now + window as real)];
      } else {
        store := store - {key};
      }
    }

    method CheckConnectionLimit(ip: string, now: real) returns (ok: bool)
      modifies this`store
      ensures ok <==> |Refreshed(old(store), Connections(ip), now, window)| <= connectionsPerIp
      ensures store == Attempted(old(store), Connections(ip), now, window)
    {
      var count := Pipeline(Connections(ip), now);
      ok := count <= connectionsPerIp;
    }

    method CheckMessageRate(connection: string, now: real) returns (ok: bool)
      modifies this`store
      ensures ok <==> |Refreshed(old(store), Messages(connection), now, window)| <= messagesPerMinute
      ensures store == Attempted(old(store), Messages(connection), now, window)
    {
      var count := Pipeline(Messages(connection), now);
      ok := count <= messagesPerMinute;
    }
  }

  // ---------- the limiter over a whole history of attempts ----------

  datatype Attempt = Attempt(key: Key, time: real)

  /** Attempts come in clock order, at non-negative times; several may share an instant. */
  ghost predicate Chronological(history: seq<Attempt>) {
    && (forall i :: 0 <= i < |history| ==> history[i].time >= 0.0)
    && forall i, j :: 0 <= i < j < |history| ==> history[i].time <= history[j].time
  }

  function StoreAfter(history: seq<Attempt>, window: int): Store {
    if history == [] then map[]
    else
      var last := history[|history| - 1];
      Attempted(StoreAfter(history[..|history| - 1], window), last.key, last.time, window)
  }

  /** The count the last attempt of the history is answered with. */
  function CountAt(history: seq<Attempt>, window: int): nat
    requires history != []
  {
    var last := history[|history| - 1];
    |Refreshed(StoreAfter(history[..|history| - 1], window), last.key, last.time, window)|
  }

  /** The distinct times of attempts under a key in (now - window, now], over the whole history. */
  ghost function Recent(history: seq<Attempt>, key: Key, now: real, window: int): set<real> {
    set i | 0 <= i < |history| && history[i].key == key && now - window as real < history[i].time <= now
          :: history[i].time
  }

  ghost predicate KeyOk(history: seq<Attempt>, key: Key, store: Store, window: int) {
    if key in store then
      var at := store[key].expiresAt - window as real;
      && at in store[key].members
      && store[key].members == Recent(history, key, at, window)
      && forall i :: 0 <= i < |history| && history[i].key == key ==> history[i].time <= at
    else forall i :: 0 <= i < |history| ==> history[i].key != key
  }

  /** Pruning what the expiring set still holds gives the recent attempts of the whole history. */
  lemma RefreshedIsRecent(history: seq<Attempt>, key: Key, now: real, store: Store, window: int)
    requires window > 0 && Chronological(history + [Attempt(key, now)]) && KeyOk(history, key, store, window)
    ensures Refreshed(store, key, now, window) == Recent(history + [Attempt(key, now)], key, now, window)
  {
    var more := history + [Attempt(key, now)];
    var left, right := Refreshed(store, key, now, window), Recent(more, key, now, window);
    forall m | m in left ensures m in right {
      if m == now {
        assert more[|history|].time == now;
      } else {
        var i :| 0 <= i < |history| && history[i].key == key && history[i].time == m
                 && store[key].expiresAt - 2.0 * window as real < m;
        assert more[i] == history[i];
        assert more[|history|].time == now;
      }
    }
    forall m | m in right ensures m in left {
      var i :| 0 <= i < |more| && more[i].key == key && now - window as real < more[i].time <= now && more[i].time == m;
      if i < |history| {
        assert history[i] == more[i];
        var at := store[key].expiresAt - window as real;
        var k :| 0 <= k < |history| && history[k].key == key && history[k].time == at;
        assert more[k] == history[k] && at <= now;
        assert m in Recent(history, key, at, window);
      }
    }
  }

  lemma {:induction false} StoreIsWindowed(history: seq<Attempt>, window: int, key: Key)
    requires window > 0 && Chronological(history)
    ensures KeyOk(history, key, StoreAfter(history, window), window)
  {
    if history != [] {
      var init, last := history[..|history| - 1], history[|history| - 1];
      assert history == init + [last];
      PrefixIsChronological(history, |init|);
      hide KeyOk, Chronological;
      StoreIsWindowed(init, window, key);
      if key == last.key {
        AttemptKeepsKeyOk(init, last, StoreAfter(init, window), window);
      } else {
        OtherKeysAreUntouched(init, last, key, StoreAfter(init, window), window);
      }
    }
  }

  lemma AttemptKeepsKeyOk(init: seq<Attempt>, last: Attempt, store: Store, window: int)
    requires window > 0 && Chronological(init + [last]) && KeyOk(init, last.key, store, window)
    ensures KeyOk(init + [last], last.key, Attempted(store, last.key, last.time, window), window)
  {
    assert last == Attempt(last.key, last.time);
    RefreshedIsRecent(init, last.key, last.time, store, window);
    hide KeyOk, Refreshed;
    WindowedKeyIsOk(init + [last], last, Attempted(store, last.key, last.time, window), window);
  }

  lemma WindowedKeyIsOk(history: seq<Attempt>, last: Attempt, store: Store, window: int)
    requires Chronological(history) && history != [] && history[|history| - 1] == last
    requires last.key in store && window > 0
    requires store[last.key] == ZSet(Recent(history, last.key, last.time, window), last.time + window as real)
    ensures KeyOk(history, last.key, store, window)
  {
    assert last.time in Recent(history, last.key, last.time, window);
  }

  lemma OtherKeysAreUntouched(init: seq<Attempt>, last: Attempt, key: Key, store: Store, window: int)
    requires window > 0 && key != last.key && KeyOk(init, key, store, window)
    ensures KeyOk(init + [last], key, Attempted(store, last.key, last.time, window), window)
  {
    var history := init + [last];
    if key in store {
      var at := store[key].expiresAt - window as real;
      assert Recent(history, key, at, window) == Recent(init, key, at, window) by {
        forall m | m in Recent(init, key, at, window) ensures m in Recent(history, key, at, window) {
          var i :| 0 <= i < |init| && init[i].key == key && at - window as real < init[i].time <= at && init[i].time == m;
          assert history[i] == init[i];
        }
      }
    }
  }

  /** The answer depends only on the whole history: expiry of the key never changes it. */
  lemma CountIsRecent(history: seq<Attempt>, window: int)
    requires window > 0 && Chronological(history) && history != []
    ensures var last := history[|history| - 1];
            && CountAt(history, window) == |Recent(history, last.key, last.time, window)|
            && StoreAfter(history, window)[last.key].members == Recent(history, last.key, last.time, window)
  {
    var init, last := history[..|history| - 1], history[|history| - 1];
    assert history == init + [last];
    StoreIsWindowed(init, window, last.key);
    RefreshedIsRecent(init, last.key, last.time, StoreAfter(init, window), window);
  }

  // ---------- counting attempts rather than instants ----------

  /** The positions of the attempts under a key in (now - window, now]. */
  ghost function RecentAttempts(history: seq<Attempt>, key: Key, now: real, window: int): set<int> {
    set i | 0 <= i < |history| && history[i].key == key && now - window as real < history[i].time <= now
  }

  /** No two attempts under the key in the window share an instant. */
  ghost predicate DistinctInWindow(history: seq<Attempt>, key: Key, now: real, window: int) {
    var attempts := RecentAttempts(history, key, now, window);
    forall i, j :: i in attempts && j in attempts && i != j ==> history[i].time != history[j].time
  }

  ghost function Image(history: seq<Attempt>, indices: set<int>): set<real>
    requires forall i :: i in indices ==> 0 <= i < |history|
  {
    set i | i in indices :: history[i].time
  }

  lemma {:induction false} ImageSize(history: seq<Attempt>, indices: set<int>)
    requires forall i :: i in indices ==> 0 <= i < |history|
    ensures |Image(history, indices)| <= |indices|
    ensures (|Image(history, indices)| == |indices|) <==>
              (forall i, j :: i in indices && j in indices && i != j ==> history[i].time != history[j].time)
    decreases |indices|
  {
    if indices != {} {
      var k := Member(indices);
      var rest := indices - {k};
      ImageSize(history, rest);
      var image, smaller := Image(history, indices), Image(history, rest);
      assert image == smaller + {history[k].time};
      if history[k].time in smaller {
        assert image == smaller;
        var j :| j in rest && history[j].time == history[k].time;
      }
    }
  }

  /** The limiter counts attempts exactly when no two of them in the window share an instant; otherwise too few. */
  lemma CountIsExactIff(history: seq<Attempt>, window: int)
    requires window > 0 && Chronological(history) && history != []
    ensures var last := history[|history| - 1];
            var attempts := RecentAttempts(history, last.key, last.time, window);
            && CountAt(history, window) <= |attempts|
            && (CountAt(history, window) == |attempts| <==> DistinctInWindow(history, last.key, last.time, window))
  {
    hide CountAt, Chronological, RecentAttempts, Recent, Image;
    var last := history[|history| - 1];
    CountIsRecent(history, window);
    ImageOfRecent(history, last.key, last.time, window);
    ImageSize(history, RecentAttempts(history, last.key, last.time, window));
  }

  lemma ImageOfRecent(history: seq<Attempt>, key: Key, now: real, window: int)
    ensures forall i :: i in RecentAttempts(history, key, now, window) ==> 0 <= i < |history|
    ensures Image(history, RecentAttempts(history, key, now, window)) == Recent(history, key, now, window)
  {
  }

  /** Attempts under a key come at strictly increasing times. */
  ghost predicate StrictlyIncreasing(history: seq<Attempt>, key: Key) {
    forall i, j :: 0 <= i < j < |history| && history[i].key == key && history[j].key == key ==>
      history[i].time < history[j].time
  }

  ghost predicate Accepted(history: seq<Attempt>, i: int, window: int, limit: int) {
    0 <= i < |history| && CountAt(history[..i + 1], window) <= limit
  }

  lemma PrefixIsChronological(history: seq<Attempt>, n: nat)
    requires Chronological(history) && n <= |history|
    ensures Chronological(history[..n])
  {
  }

  /** Accepted attempts that all lie within one window length of each other never outnumber the limit. */
  lemma AcceptedWithinAWindow(
    history: seq<Attempt>, window: int, limit: nat, key: Key, chosen: set<int>)
    requires window > 0 && Chronological(history) && StrictlyIncreasing(history, key)
    requires forall i :: i in chosen ==> 0 <= i < |history| && history[i].key == key
    requires forall i :: i in chosen ==> Accepted(history, i, window, limit)
    requires forall i, j :: i in chosen && j in chosen ==> history[j].time - history[i].time < window as real
    ensures |chosen| <= limit
  {
    if chosen != {} {
      var last := Greatest(chosen);
      ChosenAreRecent(history, window, key, chosen, last);
      PrefixIsChronological(history, last + 1);
      CountIsRecent(history[..last + 1], window);
      ImageSize(history, chosen);
      SubsetSize(Image(history, chosen), Recent(history[..last + 1], key, history[last].time, window));
      assert Accepted(history, last, window, limit);
    }
  }

  lemma ChosenAreRecent(history: seq<Attempt>, window: int, key: Key, chosen: set<int>, last: int)
    requires last in chosen && Chronological(history)
    requires forall i :: i in chosen ==> 0 <= i < |history| && i <= last && history[i].key == key
    requires forall i, j :: i in chosen && j in chosen ==> history[j].time - history[i].time < window as real
    ensures Image(history, chosen) <= Recent(history[..last + 1], key, history[last].time, window)
  {
    var upTo := history[..last + 1];
    forall i | i in chosen ensures history[i].time in Recent(upTo, key, history[last].time, window) {
      assert upTo[i] == history[i];
    }
  }

  lemma {:induction false} Greatest(s: set<int>) returns (m: int)
    requires s != {}
    ensures m in s && forall i :: i in s ==> i <= m
    decreases |s|
  {
    var k := Member(s);
    if s == {k} {
      m := k;
    } else {
      var rest := s - {k};
      var n := Greatest(rest);
      m := if n > k then n else k;
      forall i | i in s ensures i <= m {
        assert i == k || i in rest;
      }
    }
  }

  lemma {:induction false} SubsetSize(s: set<real>, t: set<real>)
    requires s <= t
    ensures |s| <= |t|
    decreases |s|
  {
    if s != {} {
      var x := Member(s);
      SubsetSize(s - {x}, t - {x});
    }
  }

  /** Every half-open window of one window length, open at either end, holds at most `limit` accepted messages. */
  lemma AcceptedInAnyHalfOpenWindow(history: seq<Attempt>, window: int, limit: nat, key: Key, from: real)
    requires window > 0 && Chronological(history) && StrictlyIncreasing(history, key)
    ensures |set i | 0 <= i < |history| && history[i].key == key && Accepted(history, i, window, limit)
                     && from < history[i].time <= from + window as real| <= limit
    ensures |set i | 0 <= i < |history| && history[i].key == key && Accepted(history, i, window, limit)
                     && from <= history[i].time < from + window as real| <= limit
  {
    AcceptedWithinAWindow(history, window, limit, key,
      set i | 0 <= i < |history| && history[i].key == key && Accepted(history, i, window, limit)
              && from < history[i].time <= from + window as real);
    AcceptedWithinAWindow(history, window, limit, key,
      set i | 0 <= i < |history| && history[i].key == key && Accepted(history, i, window, limit)
              && from <= history[i].time < from + window as real);
  }

  /** Repeating an attempt at the same instant is free: the count and the stored set stay as they were. */
  lemma RepeatAtSameInstantIsFree(history: seq<Attempt>, window: int)
    requires window > 0 && Chronological(history) && history != []
    ensures var again := history + [history[|history| - 1]];
            CountAt(again, window) == CountAt(history, window)
            && StoreAfter(again, window) == StoreAfter(history, window)
  {
    var last := history[|history| - 1];
    var again := history + [last];
    assert again[..|history|] == history;
    var before := StoreAfter(history[..|history| - 1], window);
    var store := StoreAfter(history, window);
    assert store[last.key].members == Refreshed(before, last.key, last.time, window);
    assert Refreshed(store, last.key, last.time, window) == store[last.key].members;
  }

  /** With a non-positive window nothing is ever remembered and every attempt is the first. */
  lemma {:induction false} NonPositiveWindowForgets(history: seq<Attempt>, window: int)
    requires window <= 0
    ensures StoreAfter(history, window) == map[]
    ensures history != [] ==> CountAt(history, window) == 1
  {
    if history != [] {
      var init, last := history[..|history| - 1], history[|history| - 1];
      NonPositiveWindowForgets(init, window);
      assert Refreshed(map[], last.key, last.time, window) == {last.time};
    }
  }
}
