/** Sums over finite maps and sequences, and sequences put together from parts. */
module Counting {

  ghost function Total<K(!new)>(m: map<K, nat>): nat {
    if m == map[] then 0
    else
      var k :| k in m;
      m[k] + Total(m - {k})
  }

  lemma {:induction false} TotalRemove<K(!new)>(m: map<K, nat>, k: K)
    requires k in m
    ensures Total(m) == m[k] + Total(m - {k})
    decreases |m|
  {
    var j :| j in m && Total(m) == m[j] + Total(m - {j});
    if j == k {
    } else {
      TotalRemove(m - {j}, k);
      TotalRemove(m - {k}, j);
      assert m - {j} - {k} == m - {k} - {j};
    }
  }

  /** A new entry adds its value. */
  lemma TotalInsert<K(!new)>(m: map<K, nat>, k: K, v: nat)
    requires k !in m
    ensures Total(m[k := v]) == Total(m) + v
  {
    TotalRemove(m[k := v], k);
    assert m[k := v] - {k} == m;
  }

  /** Changing one entry changes the sum by the difference. */
  lemma TotalUpdate<K(!new)>(m: map<K, nat>, k: K, v: nat)
    requires k in m
    ensures Total(m[k := v]) == Total(m) - m[k] + v
  {
    TotalRemove(m, k);
    TotalRemove(m[k := v], k);
    assert m[k := v] - {k} == m - {k};
  }

  lemma TotalMoved<K(!new)>(m: map<K, nat>, m': map<K, nat>, k: K, more: nat)
    requires k in m && m' == m[k := m[k] + more]
    ensures Total(m') == Total(m) + more
  {
    TotalUpdate(m, k, m[k] + more);
  }

  function SumBy<T>(s: seq<T>, f: T -> nat): nat {
    if s == [] then 0 else SumBy(s[..|s| - 1], f) + f(s[|s| - 1])
  }

  lemma SumByPush<T>(s: seq<T>, t: T, f: T -> nat)
    ensures SumBy(s + [t], f) == SumBy(s, f) + f(t)
  {
    assert (s + [t])[..|s|] == s;
  }

  lemma {:induction false} SumByBoth<T>(a: seq<T>, b: seq<T>, f: T -> nat)
    ensures SumBy(a + b, f) == SumBy(a, f) + SumBy(b, f)
  {
    if b == [] {
      assert a + b == a;
    } else {
      SumByBoth(a, b[..|b| - 1], f);
      assert (a + b)[..|a + b| - 1] == a + b[..|b| - 1];
    }
  }

  lemma {:induction false} SumByUpdate<T>(s: seq<T>, i: nat, t: T, f: T -> nat)
    requires i < |s|
    ensures SumBy(s[i := t], f) + f(s[i]) == SumBy(s, f) + f(t)
  {
    var last := |s| - 1;
    if i == last {
      assert s[i := t][..last] == s[..last];
    } else {
      SumByUpdate(s[..last], i, t, f);
      assert s[i := t][..last] == s[..last][i := t];
    }
  }

  /** The parts for all elements, one after the other. */
  function Flatten<T, U>(s: seq<T>, f: T -> seq<U>): seq<U> {
    if s == [] then [] else Flatten(s[..|s| - 1], f) + f(s[|s| - 1])
  }

  lemma FlattenPush<T, U>(s: seq<T>, t: T, f: T -> seq<U>)
    ensures Flatten(s + [t], f) == Flatten(s, f) + f(t)
  {
    assert (s + [t])[..|s|] == s;
  }

  lemma {:induction false} FlattenBoth<T, U>(a: seq<T>, b: seq<T>, f: T -> seq<U>)
    ensures Flatten(a + b, f) == Flatten(a, f) + Flatten(b, f)
  {
    if b == [] {
      assert a + b == a;
    } else {
      FlattenBoth(a, b[..|b| - 1], f);
      assert (a + b)[..|a + b| - 1] == a + b[..|b| - 1];
    }
  }

  /** What the parts hold is what the whole holds. */
  lemma {:induction false} InFlatten<T, U>(s: seq<T>, f: T -> seq<U>, x: U)
    ensures x in Flatten(s, f) <==> exists i :: 0 <= i < |s| && x in f(s[i])
  {
    if s == [] {
    } else {
      var before, last := s[..|s| - 1], |s| - 1;
      InFlatten(before, f, x);
      if x in f(s[last]) {
        assert x in Flatten(s, f);
      } else if i :| 0 <= i < |s| && x in f(s[i]) {
        assert before[i] == s[i];
      }
    }
  }

  /** And as often. */
  lemma {:induction false} CountFlatten<T(!new), U>(s: seq<T>, f: T -> seq<U>, x: U, count: T -> nat)
    requires forall t :: count(t) == multiset(f(t))[x]
    ensures multiset(Flatten(s, f))[x] == SumBy(s, count)
  {
    if s == [] {
    } else {
      CountFlatten(s[..|s| - 1], f, x, count);
    }
  }

  lemma {:induction false} SumByAtMost<T(!new)>(s: seq<T>, f: T -> nat, g: T -> nat)
    requires forall t :: f(t) <= g(t)
    ensures SumBy(s, f) <= SumBy(s, g)
  {
    if s == [] {
    } else {
      SumByAtMost(s[..|s| - 1], f, g);
    }
  }

  // ----- Reordering -----

  function Without<T>(s: seq<T>, i: nat): (r: seq<T>)
    requires i < |s|
    ensures |r| == |s| - 1
  {
    s[..i] + s[i + 1..]
  }

  lemma SumByAround<T>(front: seq<T>, t: T, back: seq<T>, f: T -> nat)
    ensures SumBy(front + [t] + back, f) == SumBy(front + back, f) + f(t)
  {
    SumByBoth(front + [t], back, f);
    SumByPush(front, t, f);
    SumByBoth(front, back, f);
  }

  lemma SplitAt<T>(s: seq<T>, i: nat) returns (front: seq<T>, back: seq<T>)
    requires i < |s|
    ensures s == front + [s[i]] + back && Without(s, i) == front + back
  {
    front, back := s[..i], s[i + 1..];
  }

  lemma SumByWithout<T>(s: seq<T>, i: nat, f: T -> nat)
    requires i < |s|
    ensures SumBy(s, f) == SumBy(Without(s, i), f) + f(s[i])
  {
    var front, back := SplitAt(s, i);
    SumByAround(front, s[i], back, f);
  }

  lemma BagAround<T>(front: seq<T>, t: T, back: seq<T>)
    ensures multiset(front + [t] + back) == multiset(front + back) + multiset{t}
  {
  }

  lemma BagWithout<T>(s: seq<T>, i: nat)
    requires i < |s|
    ensures multiset(s) == multiset(Without(s, i)) + multiset{s[i]}
  {
    var front, back := SplitAt(s, i);
    BagAround(front, s[i], back);
  }

  lemma FrontMoved<T>(s: seq<T>, i: nat)
    requires i < |s|
    ensures multiset([s[i]] + Without(s, i)) == multiset(s)
  {
    BagWithout(s, i);
  }

  lemma FoundIn<T>(t: T, s: seq<T>) returns (i: nat)
    requires t in multiset(s)
    ensures i < |s| && s[i] == t
  {
    i :| 0 <= i < |s| && s[i] == t;
  }

  /** The last of one list stands somewhere in a reordering of it. */
  lemma TakeOut<T>(ks: seq<T>, ls: seq<T>) returns (i: nat)
    requires ks != [] && multiset(ks) == multiset(ls)
    ensures i < |ls| && ls[i] == ks[|ks| - 1] && ls == ls[..i] + [ls[i]] + ls[i + 1..]
    ensures multiset(ks[..|ks| - 1]) == multiset(Without(ls, i))
  {
    var last := |ks| - 1;
    BagWithout(ks, last);
    i := FoundIn(ks[last], ls);
    BagWithout(ls, i);
    WithoutOne(multiset(Without(ks, last)), multiset(Without(ls, i)), ks[last]);
    assert Without(ks, last) == ks[..last];
  }

  lemma WithoutOne<T>(a: multiset<T>, b: multiset<T>, k: T)
    requires a + multiset{k} == b + multiset{k}
    ensures a == b
  {
    assert a == (a + multiset{k}) - multiset{k};
    assert b == (b + multiset{k}) - multiset{k};
  }

  lemma {:induction false} SumByReordered<T>(a: seq<T>, b: seq<T>, f: T -> nat)
    requires multiset(a) == multiset(b)
    ensures SumBy(a, f) == SumBy(b, f)
    decreases |a|
  {
    if a == [] {
      assert |multiset(b)| == |b|;
    } else {
      var i := TakeOut(a, b);
      SumByReordered(a[..|a| - 1], Without(b, i), f);
      SumByWithout(b, i, f);
    }
  }

  lemma SumByDivided<T>(a: seq<T>, b: seq<T>, all: seq<T>, f: T -> nat)
    requires multiset(a) + multiset(b) == multiset(all)
    ensures SumBy(a, f) + SumBy(b, f) == SumBy(all, f)
  {
    assert multiset(a + b) == multiset(a) + multiset(b);
    SumByReordered(a + b, all, f);
    SumByBoth(a, b, f);
  }
}
