/** The ordering `Collections.sort` gives `toJson`'s ranking: a stable sort into
    non-increasing key order. Entries pair a payload with its key; the sort
    is specified by insertion, and the lemmas show that its result is a
    permutation, is non-increasing, keeps every run of equal keys in input
    order, and is the only sequence with those properties. */
module StableSort {

  predicate NonIncreasing<T>(s: seq<(T, int)>)
  {
    forall i, j :: 0 <= i < j < |s| ==> s[i].1 >= s[j].1
  }

  /** `x` placed after every entry of `t` whose key is at least its own. */
  function Insert<T>(t: seq<(T, int)>, x: (T, int)): (r: seq<(T, int)>)
    ensures |r| == |t| + 1
  {
    if t == [] || t[|t| - 1].1 >= x.1 then t + [x]
    else Insert(t[..|t| - 1], x) + [t[|t| - 1]]
  }

  function SortDescending<T>(s: seq<(T, int)>): seq<(T, int)>
  {
    if s == [] then [] else Insert(SortDescending(s[..|s| - 1]), s[|s| - 1])
  }

  /** The entries of `s` whose key is `k`, in order. */
  function WithKey<T>(s: seq<(T, int)>, k: int): seq<(T, int)>
  {
    if s == [] then []
    else WithKey(s[..|s| - 1], k) + (if s[|s| - 1].1 == k then [s[|s| - 1]] else [])
  }

  function Payloads<T>(s: seq<(T, int)>): (p: seq<T>)
    ensures |p| == |s|
  {
    seq(|s|, i requires 0 <= i < |s| => s[i].0)
  }

  // ---------------------------------------------------------------------------
  // Permutation

  lemma {:induction false} InsertPermutes<T>(t: seq<(T, int)>, x: (T, int))
    ensures multiset(Insert(t, x)) == multiset(t) + multiset{x}
    ensures multiset(Payloads(Insert(t, x))) == multiset(Payloads(t)) + multiset{x.0}
  {
    if t == [] || t[|t| - 1].1 >= x.1 {
      assert Payloads(t + [x]) == Payloads(t) + [x.0];
    } else {
      var init, last := t[..|t| - 1], t[|t| - 1];
      InsertPermutes(init, x);
      assert t == init + [last];
      assert Payloads(t) == Payloads(init) + [last.0];
      assert Payloads(Insert(init, x) + [last]) == Payloads(Insert(init, x)) + [last.0];
    }
  }

  /** The sorted sequence holds the same entries, and so the same payloads, as
      its input. */
  lemma {:induction false} SortPermutes<T>(s: seq<(T, int)>)
    ensures multiset(SortDescending(s)) == multiset(s)
    ensures multiset(Payloads(SortDescending(s))) == multiset(Payloads(s))
    ensures |SortDescending(s)| == |s|
  {
    if s != [] {
      var init, last := s[..|s| - 1], s[|s| - 1];
      SortPermutes(init);
      InsertPermutes(SortDescending(init), last);
      assert s == init + [last];
      assert Payloads(s) == Payloads(init) + [last.0];
      assert |SortDescending(s)| == |multiset(SortDescending(s))|;
    }
  }

  // ---------------------------------------------------------------------------
  // Order

  lemma {:induction false} InsertNonIncreasing<T>(t: seq<(T, int)>, x: (T, int))
    requires NonIncreasing(t)
    ensures NonIncreasing(Insert(t, x))
  {
    if t == [] || t[|t| - 1].1 >= x.1 {
      AppendNonIncreasing(t, x);
    } else {
      var init, last := t[..|t| - 1], t[|t| - 1];
      assert NonIncreasing(init) by {
        forall i, j | 0 <= i < j < |init|
          ensures init[i].1 >= init[j].1
        {
          assert init[i] == t[i] && init[j] == t[j];
        }
      }
      InsertNonIncreasing(init, x);
      InsertPermutes(init, x);
      var u := Insert(init, x);
      forall i | 0 <= i < |u|
        ensures u[i].1 >= last.1
      {
        assert u[i] in multiset(init) + multiset{x};
        if u[i] != x {
          assert u[i] in init;
          var j :| 0 <= j < |init| && init[j] == u[i];
          assert t[j] == init[j];
        }
      }
      AppendNonIncreasing(u, last);
    }
  }

  lemma AppendNonIncreasing<T>(u: seq<(T, int)>, e: (T, int))
    requires NonIncreasing(u)
    requires forall i :: 0 <= i < |u| ==> u[i].1 >= e.1
    ensures NonIncreasing(u + [e])
  {
  }

  /** The sorted sequence is non-increasing in its keys. */
  lemma {:induction false} SortNonIncreasing<T>(s: seq<(T, int)>)
    ensures NonIncreasing(SortDescending(s))
  {
    if s != [] {
      SortNonIncreasing(s[..|s| - 1]);
      InsertNonIncreasing(SortDescending(s[..|s| - 1]), s[|s| - 1]);
    }
  }

  // ---------------------------------------------------------------------------
  // Stability

  lemma {:induction false} WithKeyAppend<T>(a: seq<(T, int)>, b: seq<(T, int)>, k: int)
    ensures WithKey(a + b, k) == WithKey(a, k) + WithKey(b, k)
  {
    if b != [] {
      var init, last := b[..|b| - 1], b[|b| - 1];
      assert (a + b)[..|a + b| - 1] == a + init;
      WithKeyAppend(a, init, k);
    } else {
      assert a + b == a;
    }
  }

  lemma {:induction false} InsertWithKey<T>(t: seq<(T, int)>, x: (T, int), k: int)
    ensures WithKey(Insert(t, x), k) == WithKey(t, k) + WithKey([x], k)
  {
    if t == [] || t[|t| - 1].1 >= x.1 {
      WithKeyAppend(t, [x], k);
    } else {
      var init, last := t[..|t| - 1], t[|t| - 1];
      InsertWithKey(init, x, k);
      WithKeyAppend(Insert(init, x), [last], k);
      WithKeyAppend(init, [last], k);
      assert t == init + [last];
      assert WithKey([last], k) == if last.1 == k then [last] else [];
      assert WithKey([x], k) == if x.1 == k then [x] else [];
    }
  }

  /** Entries with equal keys keep their relative input order. */
  lemma {:induction false} SortStable<T>(s: seq<(T, int)>, k: int)
    ensures WithKey(SortDescending(s), k) == WithKey(s, k)
  {
    if s != [] {
      var init, last := s[..|s| - 1], s[|s| - 1];
      SortStable(init, k);
      InsertWithKey(SortDescending(init), last, k);
      assert WithKey([last], k) == if last.1 == k then [last] else [];
    }
  }

  // ---------------------------------------------------------------------------
  // Uniqueness: any stable sort into non-increasing order gives this result

  lemma {:induction false} WithKeyHas<T>(s: seq<(T, int)>, k: int, i: nat)
    requires i < |s| && s[i].1 == k
    ensures WithKey(s, k) != []
  {
    if i < |s| - 1 {
      WithKeyHas(s[..|s| - 1], k, i);
    }
  }

  lemma {:induction false} WithKeyMembers<T>(s: seq<(T, int)>, k: int)
    ensures forall e :: e in WithKey(s, k) ==> e in s && e.1 == k
  {
    if s != [] {
      WithKeyMembers(s[..|s| - 1], k);
    }
  }

  lemma LastKeyLeast<T>(r: seq<(T, int)>)
    requires r != [] && NonIncreasing(r)
    ensures forall e :: e in r ==> e.1 >= r[|r| - 1].1
  {
    forall e | e in r
      ensures e.1 >= r[|r| - 1].1
    {
      var i :| 0 <= i < |r| && r[i] == e;
    }
  }

  /** The last key of `u` is at least the last key of `r` when every run of
      equal keys is the same in both. */
  lemma LastKeyBound<T>(r: seq<(T, int)>, u: seq<(T, int)>)
    requires r != [] && u != [] && NonIncreasing(r)
    requires WithKey(r, u[|u| - 1].1) == WithKey(u, u[|u| - 1].1)
    ensures u[|u| - 1].1 >= r[|r| - 1].1
  {
    var k := u[|u| - 1].1;
    WithKeyHas(u, k, |u| - 1);
    WithKeyMembers(r, k);
    var e := WithKey(r, k)[0];
    assert e in WithKey(r, k);
    LastKeyLeast(r);
  }

  /** Two non-empty non-increasing sequences whose runs agree on the keys of
      their last entries end with the same entry. */
  lemma SameRunsSameLast<T>(r: seq<(T, int)>, u: seq<(T, int)>)
    requires r != [] && u != []
    requires NonIncreasing(r) && NonIncreasing(u)
    requires WithKey(r, r[|r| - 1].1) == WithKey(u, r[|r| - 1].1)
    requires WithKey(r, u[|u| - 1].1) == WithKey(u, u[|u| - 1].1)
    ensures r[|r| - 1] == u[|u| - 1]
  {
    var er, eu := r[|r| - 1], u[|u| - 1];
    LastKeyBound(r, u);
    LastKeyBound(u, r);
    assert er.1 == eu.1;
    var run := WithKey(r, er.1);
    assert run[|run| - 1] == er by {
      assert run == WithKey(r[..|r| - 1], er.1) + [er];
    }
    assert run[|run| - 1] == eu by {
      assert run == WithKey(u, eu.1);
      assert WithKey(u, eu.1) == WithKey(u[..|u| - 1], eu.1) + [eu];
    }
  }

  /** Two non-increasing sequences with the same entries under every key are
      equal. */
  lemma {:induction false} SameRunsSame<T>(r: seq<(T, int)>, u: seq<(T, int)>)
    requires NonIncreasing(r) && NonIncreasing(u)
    requires forall k :: WithKey(r, k) == WithKey(u, k)
    ensures r == u
  {
    if r == [] || u == [] {
      if r != [] {
        WithKeyHas(r, r[0].1, 0);
        assert false;
      }
      if u != [] {
        WithKeyHas(u, u[0].1, 0);
        assert false;
      }
    } else {
      assert WithKey(r, r[|r| - 1].1) == WithKey(u, r[|r| - 1].1);
      assert WithKey(r, u[|u| - 1].1) == WithKey(u, u[|u| - 1].1);
      SameRunsSameLast(r, u);
      var last := r[|r| - 1];
      var r', u' := r[..|r| - 1], u[..|u| - 1];
      forall k
        ensures WithKey(r', k) == WithKey(u', k)
      {
        var x := if last.1 == k then [last] else [];
        assert WithKey(r, k) == WithKey(r', k) + x;
        assert WithKey(u, k) == WithKey(u', k) + x;
        assert WithKey(r, k) == WithKey(u, k);
        assert WithKey(r', k) == WithKey(r, k)[..|WithKey(r', k)|];
        assert WithKey(u', k) == WithKey(u, k)[..|WithKey(u', k)|];
      }
      SameRunsSame(r', u');
      assert r == r' + [last] && u == u' + [last];
    }
  }

  /** A sequence that is non-increasing and keeps each key's entries in input
      order is the insertion-sorted sequence. */
  lemma StableSortUnique<T>(s: seq<(T, int)>, r: seq<(T, int)>)
    requires NonIncreasing(r)
    requires forall k :: WithKey(r, k) == WithKey(s, k)
    ensures r == SortDescending(s)
  {
    SortNonIncreasing(s);
    forall k
      ensures WithKey(r, k) == WithKey(SortDescending(s), k)
    {
      SortStable(s, k);
    }
    SameRunsSame(r, SortDescending(s));
  }

  /** Sorting an already sorted sequence changes nothing. */
  lemma SortIdempotent<T>(s: seq<(T, int)>)
    requires NonIncreasing(s)
    ensures SortDescending(s) == s
  {
    StableSortUnique(s, s);
  }
}
