/** Sums, filters and stable sorting of sequences, shared by the component models. */
module Sequences {

  datatype Option<+T> = None | Some(value: T)

  datatype Result<+T, +E> = Ok(value: T) | Err(error: E)

  function Abs(x: real): (r: real)
    ensures r >= 0.0
  {
    if x < 0.0 then -x else x
  }

  function Max(x: real, y: real): real {
    if x < y then y else x
  }

  lemma ProductNonNegative(a: real, b: real)
    requires a >= 0.0 && b >= 0.0
    ensures a * b >= 0.0
  {
  }

  lemma Member<T(!new)>(s: set<T>) returns (x: T)
    requires s != {}
    ensures x in s
  {
    assert (forall y :: y !in s) ==> s == {};
    x :| x in s;
  }

  /** The running total of a sequence, last element added last (as a loop adds it). */
  function Sum(s: seq<real>): real {
    if s == [] then 0.0 else Sum(s[..|s| - 1]) + s[|s| - 1]
  }

  lemma SumAppend(s: seq<real>, x: real)
    ensures Sum(s + [x]) == Sum(s) + x
  {
    assert (s + [x])[..|s|] == s;
  }

  function Map<S, T>(f: S -> T, s: seq<S>): (r: seq<T>)
    ensures |r| == |s|
    ensures forall i :: 0 <= i < |s| ==> r[i] == f(s[i])
  {
    seq(|s|, i requires 0 <= i < |s| => f(s[i]))
  }

  lemma MapAppend<S, T>(f: S -> T, s: seq<S>, x: S)
    ensures Map(f, s + [x]) == Map(f, s) + [f(x)]
  {
  }

  /** A list comprehension `[x for x in s if p(x)]`. */
  function Filter<T>(p: T -> bool, s: seq<T>): (r: seq<T>)
    ensures |r| <= |s|
  {
    if s == [] then []
    else
      var r := Filter(p, s[..|s| - 1]);
      if p(s[|s| - 1]) then r + [s[|s| - 1]] else r
  }

  lemma {:induction false} FilterMembers<T(!new)>(p: T -> bool, s: seq<T>)
    ensures forall x :: x in Filter(p, s) <==> x in s && p(x)
  {
    if s != [] {
      FilterMembers(p, s[..|s| - 1]);
      assert s == s[..|s| - 1] + [s[|s| - 1]];
    }
  }

  lemma FilterAppend<T>(p: T -> bool, s: seq<T>, x: T)
    ensures Filter(p, s + [x]) == if p(x) then Filter(p, s) + [x] else Filter(p, s)
  {
    assert (s + [x])[..|s|] == s;
  }

  lemma {:induction false} FilterConcat<T>(p: T -> bool, s: seq<T>, t: seq<T>)
    ensures Filter(p, s + t) == Filter(p, s) + Filter(p, t)
  {
    if t == [] {
      assert s + t == s;
    } else {
      var u, x := t[..|t| - 1], t[|t| - 1];
      var f := if p(x) then [x] else [];
      calc {
        Filter(p, s + t);
        { assert s + t == (s + u) + [x]; }
        Filter(p, (s + u) + [x]);
        { FilterAppend(p, s + u, x); }
        Filter(p, s + u) + f;
        { FilterConcat(p, s, u); }
        Filter(p, s) + Filter(p, u) + f;
        { assert Filter(p, t) == Filter(p, u) + f; }
        Filter(p, s) + Filter(p, t);
      }
    }
  }

  lemma {:induction false} FilterAll<T(!new)>(p: T -> bool, s: seq<T>)
    requires forall x :: x in s ==> p(x)
    ensures Filter(p, s) == s
  {
    if s != [] {
      FilterAll(p, s[..|s| - 1]);
      assert s[|s| - 1] in s && s == s[..|s| - 1] + [s[|s| - 1]];
    }
  }

  /** The first position that satisfies `p`, the length if there is none. */
  function IndexWhere<T>(s: seq<T>, p: T -> bool): (i: nat)
    ensures i <= |s|
    ensures i < |s| ==> p(s[i])
    ensures forall k :: 0 <= k < i ==> !p(s[k])
  {
    if s == [] || p(s[0]) then 0 else 1 + IndexWhere(s[1..], p)
  }

  ghost predicate SortedBy<T(!new)>(s: seq<T>, key: T -> real) {
    forall i, j :: 0 <= i < j < |s| ==> key(s[i]) <= key(s[j])
  }

  /** Insertion after every element whose key is not larger: the step of a stable sort. */
  function Insert<T>(s: seq<T>, x: T, key: T -> real): (r: seq<T>)
    ensures multiset(r) == multiset(s) + multiset{x}
    ensures |r| == |s| + 1
  {
    if s == [] || key(s[|s| - 1]) <= key(x) then
      s + [x]
    else
      assert s == s[..|s| - 1] + [s[|s| - 1]];
      Insert(s[..|s| - 1], x, key) + [s[|s| - 1]]
  }

  lemma {:induction false} InsertKeepsOrder<T(!new)>(s: seq<T>, x: T, key: T -> real)
    requires SortedBy(s, key)
    ensures SortedBy(Insert(s, x, key), key)
  {
    hide SortedBy;
    if s != [] && key(s[|s| - 1]) > key(x) {
      var u, last := s[..|s| - 1], s[|s| - 1];
      InitOf(s, key);
      InsertKeepsOrder(u, x, key);
      var r := Insert(u, x, key);
      forall y | y in r ensures key(y) <= key(last) {
        assert y in multiset(r);
        assert y == x || y in u;
        if y in u {
          assert y in s;
          LastIsGreatest(s, y, key);
        }
      }
      AppendKeepsOrder(r, last, key);
    } else {
      forall y | y in s ensures key(y) <= key(x) {
        LastIsGreatest(s, y, key);
      }
      AppendKeepsOrder(s, x, key);
    }
  }

  lemma AppendKeepsOrder<T(!new)>(s: seq<T>, last: T, key: T -> real)
    requires SortedBy(s, key) && forall y :: y in s ==> key(y) <= key(last)
    ensures SortedBy(s + [last], key)
  {
  }

  /** Stable sort by a key, the meaning of `sorted(s, key=...)`. */
  function Sort<T(!new)>(s: seq<T>, key: T -> real): (r: seq<T>)
    ensures SortedBy(r, key)
    ensures multiset(r) == multiset(s)
    ensures |r| == |s|
  {
    if s == [] then []
    else
      assert s == s[..|s| - 1] + [s[|s| - 1]];
      InsertKeepsOrder(Sort(s[..|s| - 1], key), s[|s| - 1], key);
      Insert(Sort(s[..|s| - 1], key), s[|s| - 1], key)
  }

  lemma SortMembers<T(!new)>(s: seq<T>, key: T -> real)
    ensures forall x :: x in Sort(s, key) <==> x in s
  {
    forall x ensures x in Sort(s, key) <==> x in s {
      assert x in multiset(Sort(s, key)) <==> x in multiset(s);
    }
  }

  ghost predicate DistinctKeys<T(!new)>(s: seq<T>, key: T -> real) {
    forall i, j :: 0 <= i < j < |s| ==> key(s[i]) != key(s[j])
  }

  lemma LastIsGreatest<T(!new)>(s: seq<T>, x: T, key: T -> real)
    requires SortedBy(s, key) && x in s
    ensures key(x) <= key(s[|s| - 1])
  {
    var i :| 0 <= i < |s| && s[i] == x;
  }

  lemma LastsAgree<T(!new)>(s: seq<T>, t: seq<T>, key: T -> real)
    requires SortedBy(s, key) && SortedBy(t, key) && DistinctKeys(s, key)
    requires s != [] && t != [] && multiset(s) == multiset(t)
    ensures s[|s| - 1] == t[|t| - 1]
  {
    var a, b := s[|s| - 1], t[|t| - 1];
    assert a in multiset(t) && b in multiset(s);
    LastIsGreatest(t, a, key);
    LastIsGreatest(s, b, key);
    var k :| 0 <= k < |s| && s[k] == b;
    hide SortedBy;
    assert k == |s| - 1;
  }

  lemma InitOf<T(!new)>(s: seq<T>, key: T -> real)
    requires s != []
    ensures multiset(s[..|s| - 1]) == multiset(s) - multiset{s[|s| - 1]}
    ensures SortedBy(s, key) ==> SortedBy(s[..|s| - 1], key)
    ensures DistinctKeys(s, key) ==> DistinctKeys(s[..|s| - 1], key)
  {
    assert s == s[..|s| - 1] + [s[|s| - 1]];
  }

  /** Two sorted arrangements of the same elements agree when no two keys are equal. */
  lemma {:induction false} SortedUnique<T(!new)>(s: seq<T>, t: seq<T>, key: T -> real)
    requires SortedBy(s, key) && SortedBy(t, key)
    requires multiset(s) == multiset(t)
    requires DistinctKeys(s, key)
    ensures s == t
  {
    hide SortedBy, DistinctKeys;
    assert |s| == |multiset(s)| == |multiset(t)| == |t|;
    if s != [] {
      LastsAgree(s, t, key);
      InitOf(s, key);
      InitOf(t, key);
      SortedUnique(s[..|s| - 1], t[..|t| - 1], key);
      assert s == s[..|s| - 1] + [s[|s| - 1]] && t == t[..|t| - 1] + [t[|t| - 1]];
    }
  }

  /** A strictly sorted sequence is left as it is. */
  lemma SortOfSorted<T(!new)>(s: seq<T>, key: T -> real)
    requires SortedBy(s, key) && DistinctKeys(s, key)
    ensures Sort(s, key) == s
  {
    SortedUnique(s, Sort(s, key), key);
  }

  lemma {:induction false} FilterMap<T(!new)>(p: T -> bool, f: T -> T, s: seq<T>)
    requires forall x :: x in s ==> p(f(x)) == p(x)
    ensures Filter(p, Map(f, s)) == Map(f, Filter(p, s))
  {
    if s != [] {
      var init, last := s[..|s| - 1], s[|s| - 1];
      assert s == init + [last] && last in s;
      assert forall x :: x in init ==> x in s;
      FilterMap(p, f, init);
      MapAppend(f, init, last);
      FilterAppend(p, Map(f, init), f(last));
      FilterAppend(p, init, last);
      if p(last) {
        MapAppend(f, Filter(p, init), last);
      }
    }
  }
}
