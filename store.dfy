/** The document store underneath the routes: a collection is a map from
    identifier to document together with the collection's natural (insertion)
    order, which is the order an unsorted `find` returns. `Filter` and
    `SortDesc` are the selections and the `sort({ createdAt: -1 })` the
    handlers ask of the store. */
module Store {
  import opened Common

  ghost predicate Distinct<T>(s: seq<T>) {
    forall i, j | 0 <= i < j < |s| :: s[i] != s[j]
  }

  /** `order` lists every key of `m` exactly once. */
  ghost predicate Indexes<T>(order: seq<Id>, m: map<Id, T>) {
    && Distinct(order)
    && (forall i | 0 <= i < |order| :: order[i] in m)
    && (forall k | k in m :: k in order)
  }

  /** The documents of `m` in the order `order` gives. */
  function Values<T>(order: seq<Id>, m: map<Id, T>): (r: seq<T>)
    requires forall i | 0 <= i < |order| :: order[i] in m
    ensures |r| == |order|
    ensures forall i | 0 <= i < |order| :: r[i] == m[order[i]]
  {
    seq(|order|, i requires 0 <= i < |order| && order[i] in m => m[order[i]])
  }

  /** A listing in natural order holds exactly the documents of the collection. */
  lemma ValuesCover<T>(order: seq<Id>, m: map<Id, T>)
    requires Indexes(order, m)
    ensures forall v :: v in Values(order, m) <==> v in m.Values
  {
    var r := Values(order, m);
    forall v | v in m.Values ensures v in r {
      var k :| k in m && m[k] == v;
      var i :| 0 <= i < |order| && order[i] == k;
      assert r[i] == v;
    }
  }

  lemma {:induction false} DistinctCard<T>(s: seq<T>)
    requires Distinct(s)
    ensures |set x | x in s| == |s|
  {
    if s != [] {
      assert Distinct(s[1..]) by {
        forall i, j | 0 <= i < j < |s[1..]| ensures s[1..][i] != s[1..][j] {
          assert s[1..][i] == s[i + 1] && s[1..][j] == s[j + 1];
        }
      }
      DistinctCard(s[1..]);
      assert (set x | x in s) == (set x | x in s[1..]) + {s[0]} by {
        assert s == [s[0]] + s[1..];
      }
      assert s[0] !in s[1..] by {
        forall j | 0 <= j < |s[1..]| ensures s[1..][j] != s[0] {
          assert s[1..][j] == s[j + 1];
        }
      }
    }
  }

  /** A collection has as many documents as its natural order lists. */
  lemma IndexesCard<T>(order: seq<Id>, m: map<Id, T>)
    requires Indexes(order, m)
    ensures |order| == |m|
  {
    DistinctCard(order);
    assert m.Keys == set x | x in order;
  }

  /** Appending a fresh key keeps `order` an index of the grown map. */
  lemma IndexesInsert<T>(order: seq<Id>, m: map<Id, T>, k: Id, v: T)
    requires Indexes(order, m) && k !in m
    ensures Indexes(order + [k], m[k := v])
  {
    var o := order + [k];
    forall i, j | 0 <= i < j < |o| ensures o[i] != o[j] {
      if j == |order| {
        assert o[i] == order[i] && order[i] in m;
      }
    }
  }

  /** `order` without `x`. */
  function Remove(s: seq<Id>, x: Id): (r: seq<Id>)
    ensures forall y :: y in r <==> y in s && y != x
    ensures Distinct(s) ==> Distinct(r)
  {
    if s == [] then []
    else if s[0] == x then Remove(s[1..], x)
    else
      var rest := Remove(s[1..], x);
      assert Distinct(s) ==> s[0] !in s[1..];
      [s[0]] + rest
  }

  lemma IndexesRemove<T>(order: seq<Id>, m: map<Id, T>, k: Id)
    requires Indexes(order, m)
    ensures Indexes(Remove(order, k), m - {k})
  {
    var r := Remove(order, k);
    forall i | 0 <= i < |r| ensures r[i] in m - {k} {
      assert r[i] in r;
    }
  }

  /** No element occurs twice exactly when every multiplicity is at most one. */
  lemma {:induction false} DistinctMultiset<T>(s: seq<T>)
    ensures Distinct(s) <==> forall x :: multiset(s)[x] <= 1
  {
    if s != [] {
      var t := s[1..];
      assert s == [s[0]] + t;
      DistinctMultiset(t);
      assert Distinct(s) <==> s[0] !in t && Distinct(t) by {
        if Distinct(s) {
          forall i | 0 <= i < |t| ensures t[i] != s[0] {
            assert t[i] == s[i + 1];
          }
          forall i, j | 0 <= i < j < |t| ensures t[i] != t[j] {
            assert t[i] == s[i + 1] && t[j] == s[j + 1];
          }
        }
        if s[0] !in t && Distinct(t) {
          forall i, j | 0 <= i < j < |s| ensures s[i] != s[j] {
            if i == 0 {
              assert s[j] == t[j - 1];
            } else {
              assert s[i] == t[i - 1] && s[j] == t[j - 1];
            }
          }
        }
      }
      assert forall x :: multiset(s)[x] == (if x == s[0] then 1 else 0) + multiset(t)[x];
      assert s[0] in t <==> multiset(t)[s[0]] > 0;
      if Distinct(s) {
        forall x ensures multiset(s)[x] <= 1 {
        }
      }
      if forall x :: multiset(s)[x] <= 1 {
        assert multiset(s)[s[0]] <= 1;
        forall x ensures multiset(t)[x] <= 1 {
          assert multiset(s)[x] <= 1;
        }
      }
    }
  }

  /** The documents of `s` that satisfy `p`, in the order of `s`, each as often
      as in `s`. */
  function Filter<T(!new)>(s: seq<T>, p: T -> bool): (r: seq<T>)
    ensures |r| <= |s|
    ensures forall x :: x in r <==> x in s && p(x)
    ensures forall i | 0 <= i < |r| :: p(r[i])
    ensures multiset(r) <= multiset(s)
    ensures Distinct(s) ==> Distinct(r)
  {
    if s == [] then []
    else
      assert s == [s[0]] + s[1..];
      var rest := Filter(s[1..], p);
      assert Distinct(s) ==> s[0] !in s[1..] && Distinct(s[1..]);
      if p(s[0]) then [s[0]] + rest else rest
  }

  /** `idx` places each element of `r` at a position of `s`, in increasing
      order of position. */
  ghost predicate Embeds<T>(idx: seq<int>, r: seq<T>, s: seq<T>) {
    && |idx| == |r|
    && (forall k | 0 <= k < |idx| :: 0 <= idx[k] < |s| && r[k] == s[idx[k]])
    && (forall k, l | 0 <= k < l < |idx| :: idx[k] < idx[l])
  }

  /** `r` is `s` with some elements left out and the rest in their order. */
  ghost predicate Subsequence<T>(r: seq<T>, s: seq<T>) {
    exists idx :: Embeds(idx, r, s)
  }

  function Shift(idx: seq<int>): (r: seq<int>)
    ensures |r| == |idx| && forall k | 0 <= k < |idx| :: r[k] == idx[k] + 1
  {
    seq(|idx|, k requires 0 <= k < |idx| => idx[k] + 1)
  }

  /** An embedding into the tail of `s` is one into `s`, one place further on. */
  lemma EmbedsInTail<T>(idx: seq<int>, r: seq<T>, s: seq<T>)
    requires s != [] && Embeds(idx, r, s[1..])
    ensures Embeds(Shift(idx), r, s)
  {
    forall k | 0 <= k < |idx| ensures r[k] == s[Shift(idx)[k]] {
      assert s[Shift(idx)[k]] == s[1..][idx[k]];
    }
  }

  /** ... and keeping the head of `s` as well puts it at position 0. */
  lemma EmbedsWithHead<T>(idx: seq<int>, r: seq<T>, s: seq<T>)
    requires s != [] && Embeds(idx, r, s[1..])
    ensures Embeds([0] + Shift(idx), [s[0]] + r, s)
  {
    EmbedsInTail(idx, r, s);
    var j := [0] + Shift(idx);
    var q := [s[0]] + r;
    forall k | 0 <= k < |j| ensures 0 <= j[k] < |s| && q[k] == s[j[k]] {
      if k > 0 {
        assert j[k] == Shift(idx)[k - 1] && q[k] == r[k - 1];
      }
    }
    forall k, l | 0 <= k < l < |j| ensures j[k] < j[l] {
      if k > 0 {
        assert j[k] == Shift(idx)[k - 1] && j[l] == Shift(idx)[l - 1];
      }
    }
  }

  /** A `find` keeps the documents it selects in the order of the collection. */
  lemma {:induction false} FilterKeepsOrder<T(!new)>(s: seq<T>, p: T -> bool)
    ensures Subsequence(Filter(s, p), s)
  {
    if s == [] {
      assert Embeds([], Filter(s, p), s);
    } else {
      var rest := Filter(s[1..], p);
      FilterKeepsOrder(s[1..], p);
      var idx :| Embeds(idx, rest, s[1..]);
      if p(s[0]) {
        EmbedsWithHead(idx, rest, s);
        assert Filter(s, p) == [s[0]] + rest;
      } else {
        EmbedsInTail(idx, rest, s);
        assert Filter(s, p) == rest;
      }
    }
  }

  // ---------------------------------------------------------------------------
  // sort({ key: -1 })

  ghost predicate SortedDesc<T>(s: seq<T>, key: T -> int) {
    forall i, j | 0 <= i < j < |s| :: key(s[i]) >= key(s[j])
  }

  function Insert<T>(x: T, s: seq<T>, key: T -> int): (r: seq<T>)
    requires SortedDesc(s, key)
    ensures SortedDesc(r, key)
    ensures multiset(r) == multiset(s) + multiset{x}
  {
    if s == [] then [x]
    else if key(x) >= key(s[0]) then [x] + s
    else
      var rest := Insert(x, s[1..], key);
      assert s == [s[0]] + s[1..];
      forall y | y in rest ensures key(s[0]) >= key(y) {
        assert y in multiset(rest);
        assert y == x || y in multiset(s[1..]);
      }
      [s[0]] + rest
  }

  /** The documents of `s` by descending `key`; documents with equal keys keep
      their order in `s`. */
  function SortDesc<T>(s: seq<T>, key: T -> int): (r: seq<T>)
    ensures SortedDesc(r, key)
    ensures multiset(r) == multiset(s)
  {
    if s == [] then []
    else
      assert s == [s[0]] + s[1..];
      Insert(s[0], SortDesc(s[1..], key), key)
  }

  lemma SortDescMembers<T>(s: seq<T>, key: T -> int)
    ensures |SortDesc(s, key)| == |s|
    ensures forall x :: x in SortDesc(s, key) <==> x in s
    ensures Distinct(s) ==> Distinct(SortDesc(s, key))
  {
    var r := SortDesc(s, key);
    DistinctMultiset(s);
    DistinctMultiset(r);
    assert |r| == |multiset(r)| == |multiset(s)| == |s|;
    forall x ensures x in r <==> x in s {
      assert x in r <==> x in multiset(r);
      assert x in s <==> x in multiset(s);
    }
  }
}
