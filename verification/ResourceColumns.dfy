/** The utilization columns: the average over the metrics of a resource's leaves. */
module ResourceColumns {
  import opened Wrappers
  import opened Counting
  import opened Ownership

  /** A resource that owns nothing and has metrics contributes its usage. */
  function Sample(g: Graph, podMetrics: map<string, real>, k: Key): seq<real> {
    if k in g && g[k].owned.None? && g[k].podKey in podMetrics then [podMetrics[g[k].podKey]] else []
  }

  function SampleOf(g: Graph, podMetrics: map<string, real>): Key -> seq<real> {
    (k: Key) => Sample(g, podMetrics, k)
  }

  function Samples(g: Graph, podMetrics: map<string, real>, ks: seq<Key>): seq<real> {
    Flatten(ks, SampleOf(g, podMetrics))
  }

  function Sum(xs: seq<real>): real {
    if xs == [] then 0.0 else Sum(xs[..|xs| - 1]) + xs[|xs| - 1]
  }

  lemma SumAppend(xs: seq<real>, x: real)
    ensures Sum(xs + [x]) == Sum(xs) + x
  {
    assert (xs + [x])[..|xs|] == xs;
  }

  lemma SamplesAppend(g: Graph, podMetrics: map<string, real>, ks: seq<Key>, k: Key)
    ensures Samples(g, podMetrics, ks + [k]) == Samples(g, podMetrics, ks) + Sample(g, podMetrics, k)
    ensures Sum(Samples(g, podMetrics, ks + [k]))
            == Sum(Samples(g, podMetrics, ks)) + if Sample(g, podMetrics, k) == [] then 0.0 else podMetrics[g[k].podKey]
    ensures |Samples(g, podMetrics, ks + [k])| == |Samples(g, podMetrics, ks)| + |Sample(g, podMetrics, k)|
  {
    FlattenPush(ks, k, SampleOf(g, podMetrics));
    var before, one := Samples(g, podMetrics, ks), Sample(g, podMetrics, k);
    if one == [] {
      assert before + one == before;
    } else {
      SumAppend(before, one[0]);
    }
  }

  function Average(samples: seq<real>): Option<real> {
    if samples == [] then None else Some(Sum(samples) / |samples| as real)
  }

  /** A resource that owns nothing and has metrics. */
  predicate IsLeaf(g: Graph, podMetrics: map<string, real>, d: Key) {
    d in g && g[d].owned == None && g[d].podKey in podMetrics
  }

  /** Every leaf below `root` that has metrics uses between `low` and `high`. */
  ghost predicate LeavesWithin(g: Graph, podMetrics: map<string, real>, root: Key, low: real, high: real) {
    forall d :: Descendant(g, root, d) && IsLeaf(g, podMetrics, d) ==> low <= podMetrics[g[d].podKey] <= high
  }

  /** How many of the resources are leaves, and their usage added up. */
  function LeafCount(g: Graph, podMetrics: map<string, real>, ks: seq<Key>): nat {
    if ks == [] then 0
    else LeafCount(g, podMetrics, ks[..|ks| - 1]) + if IsLeaf(g, podMetrics, ks[|ks| - 1]) then 1 else 0
  }

  function Used(g: Graph, podMetrics: map<string, real>, ks: seq<Key>): real {
    if ks == [] then 0.0
    else
      var last := ks[|ks| - 1];
      Used(g, podMetrics, ks[..|ks| - 1])
      + if IsLeaf(g, podMetrics, last) then podMetrics[g[last].podKey] else 0.0
  }

  /** `shown` is the mean usage of the leaves among the resources, if there is one. */
  predicate IsMean(g: Graph, podMetrics: map<string, real>, ks: seq<Key>, shown: Option<real>) {
    var n := LeafCount(g, podMetrics, ks);
    if n == 0 then shown == None else shown == Some(Used(g, podMetrics, ks) / n as real)
  }

  lemma {:induction false} SamplesAreLeaves(g: Graph, podMetrics: map<string, real>, ks: seq<Key>)
    ensures Sum(Samples(g, podMetrics, ks)) == Used(g, podMetrics, ks)
    ensures |Samples(g, podMetrics, ks)| == LeafCount(g, podMetrics, ks)
  {
    if ks == [] {
    } else {
      var before, last := ks[..|ks| - 1], ks[|ks| - 1];
      SamplesAreLeaves(g, podMetrics, before);
      SamplesAppend(g, podMetrics, before, last);
      assert ks == before + [last];
    }
  }

  lemma AverageIsMean(g: Graph, podMetrics: map<string, real>, ks: seq<Key>)
    ensures IsMean(g, podMetrics, ks, Average(Samples(g, podMetrics, ks)))
  {
    SamplesAreLeaves(g, podMetrics, ks);
  }

  /** `ks` lists all that `root` owns, each resource once. */
  ghost predicate Owned(g: Graph, root: Key, ks: seq<Key>) {
    Distinct(ks) && forall d :: d in ks <==> Descendant(g, root, d)
  }

  /** On an ownership forest those samples come from every resource below `root` exactly
      once. */
  lemma SampledOnce(g: Graph, root: Key, n: nat)
    requires Closed(g) && SingleOwner(g) && EndsIn(g, OwnedBy(g, root), n)
    ensures var visited := Visited(g, OwnedBy(g, root), n);
            && (forall d :: d in visited <==> Descendant(g, root, d))
            && (forall i, j :: 0 <= i < j < |visited| ==> visited[i] != visited[j])
  {
    var visited, all := Visited(g, OwnedBy(g, root), n), Visited(g, [root], n + 1);
    assert [root][1..] + OwnedBy(g, root) == OwnedBy(g, root);
    assert all == [root] + visited;
    ForestVisited(g, root, n + 1);
    NotBelowItself(g, root, n + 1);
    assert forall i :: 0 <= i < |visited| ==> visited[i] == all[i + 1];
    forall d ensures d in visited <==> Descendant(g, root, d) {
      BelowStep(g, root, d);
      assert d in all <==> d == root || d in visited;
      assert all[0] == root;
    }
  }

  lemma NotBelowItself(g: Graph, root: Key, n: nat)
    requires Closed(g) && EndsIn(g, [root], n)
    ensures !Descendant(g, root, root)
  {
    LoopEndsIff(g, root);
    var rank: map<Key, nat> :| root in rank && Ranked(g, rank);
    if Descendant(g, root, root) {
      var c :| c in OwnedBy(g, root) && Below(g, c, root);
      BelowRank(g, rank, c, root);
    }
  }

  /** The average lies between the smallest and the largest leaf. */
  lemma MeanBetween(xs: seq<real>, low: real, high: real)
    requires xs != [] && forall i :: 0 <= i < |xs| ==> low <= xs[i] <= high
    ensures low <= Sum(xs) / |xs| as real <= high
  {
    SumBetween(xs, low, high);
    QuotientBetween(low, Sum(xs), high, |xs| as real);
  }

  lemma QuotientBetween(low: real, sum: real, high: real, n: real)
    requires n > 0.0 && low * n <= sum <= high * n
    ensures low <= sum / n <= high
  {
    var mean := sum / n;
    assert mean * n == sum;
    if mean < low {
      TimesGrows(mean, low, n);
    }
    if high < mean {
      TimesGrows(high, mean, n);
    }
  }

  lemma TimesGrows(a: real, b: real, n: real)
    requires a < b && n > 0.0
    ensures a * n < b * n
  {
    assert (b - a) * n > 0.0;
  }

  lemma {:induction false} SumBetween(xs: seq<real>, low: real, high: real)
    requires forall i :: 0 <= i < |xs| ==> low <= xs[i] <= high
    ensures low * |xs| as real <= Sum(xs) <= high * |xs| as real
  {
    if xs == [] {
    } else {
      SumBetween(xs[..|xs| - 1], low, high);
    }
  }

  lemma {:induction false} SampleOfSome(g: Graph, podMetrics: map<string, real>, ks: seq<Key>, x: real)
    requires x in Samples(g, podMetrics, ks)
    ensures exists d :: d in ks && x in Sample(g, podMetrics, d)
  {
    var rest, last := ks[..|ks| - 1], ks[|ks| - 1];
    if x in Sample(g, podMetrics, last) {
    } else {
      SampleOfSome(g, podMetrics, rest, x);
    }
  }

  /** The value shown lies between the smallest and the largest leaf. */
  lemma AverageWithinLeaves(g: Graph, podMetrics: map<string, real>, root: Key, n: nat, shown: Option<real>)
    requires shown == Average(Samples(g, podMetrics, Visited(g, OwnedBy(g, root), n)))
    ensures shown.Some? ==>
              forall low, high :: LeavesWithin(g, podMetrics, root, low, high) ==> low <= shown.value <= high
  {
    var visited := Visited(g, OwnedBy(g, root), n);
    var samples := Samples(g, podMetrics, visited);
    forall low, high | shown.Some? && LeavesWithin(g, podMetrics, root, low, high) ensures low <= shown.value <= high {
      forall i | 0 <= i < |samples| ensures low <= samples[i] <= high {
        SampleOfSome(g, podMetrics, visited, samples[i]);
        var d :| d in visited && samples[i] in Sample(g, podMetrics, d);
        VisitedIsBelow(g, OwnedBy(g, root), n, d);
        assert IsLeaf(g, podMetrics, d);
      }
      MeanBetween(samples, low, high);
    }
  }

  lemma {:induction false} SumBoth(xs: seq<real>, ys: seq<real>)
    ensures Sum(xs + ys) == Sum(xs) + Sum(ys)
  {
    if ys == [] {
      assert xs + ys == xs;
    } else {
      SumBoth(xs, ys[..|ys| - 1]);
      assert (xs + ys)[..|xs + ys| - 1] == xs + ys[..|ys| - 1];
    }
  }

  /** Reordering the resources changes neither the sum nor the number of their samples. */
  lemma {:induction false} SamplesReordered(g: Graph, podMetrics: map<string, real>, ks: seq<Key>, ls: seq<Key>)
    requires multiset(ks) == multiset(ls)
    ensures Sum(Samples(g, podMetrics, ks)) == Sum(Samples(g, podMetrics, ls))
    ensures |Samples(g, podMetrics, ks)| == |Samples(g, podMetrics, ls)|
    decreases |ks|
  {
    if ks == [] {
      assert |multiset(ls)| == |ls|;
    } else {
      var i := TakeOut(ks, ls);
      SamplesReordered(g, podMetrics, ks[..|ks| - 1], ls[..i] + ls[i + 1..]);
      SamplesAround(g, podMetrics, ls[..i], ls[i], ls[i + 1..]);
      SumBoth(Samples(g, podMetrics, ks[..|ks| - 1]), Sample(g, podMetrics, ks[|ks| - 1]));
    }
  }

  lemma SamplesAround(g: Graph, podMetrics: map<string, real>, ks: seq<Key>, k: Key, ls: seq<Key>)
    ensures var one := Sample(g, podMetrics, k);
            var all, others := Samples(g, podMetrics, ks + [k] + ls), Samples(g, podMetrics, ks + ls);
            Sum(all) == Sum(others) + Sum(one) && |all| == |others| + |one|
  {
    var before, one, after := Samples(g, podMetrics, ks), Sample(g, podMetrics, k), Samples(g, podMetrics, ls);
    FlattenBoth(ks + [k], ls, SampleOf(g, podMetrics));
    FlattenPush(ks, k, SampleOf(g, podMetrics));
    FlattenBoth(ks, ls, SampleOf(g, podMetrics));
    SumBoth(before + one, after);
    SumBoth(before, one);
    SumBoth(before, after);
  }

  /** On an ownership forest the value shown is the average over all that is owned, each
      resource counted once. */
  lemma ForestAverage(g: Graph, podMetrics: map<string, real>, root: Key, n: nat, ks: seq<Key>)
    requires Closed(g) && SingleOwner(g) && EndsIn(g, OwnedBy(g, root), n) && Owned(g, root, ks)
    ensures Average(Samples(g, podMetrics, Visited(g, OwnedBy(g, root), n))) == Average(Samples(g, podMetrics, ks))
  {
    SampledOnce(g, root, n);
    assert Distinct(Visited(g, OwnedBy(g, root), n));
    SameMembers(Visited(g, OwnedBy(g, root), n), ks);
    SamplesReordered(g, podMetrics, Visited(g, OwnedBy(g, root), n), ks);
  }

  lemma ForestMean(g: Graph, podMetrics: map<string, real>, root: Key, n: nat, shown: Option<real>)
    requires Closed(g) && EndsIn(g, OwnedBy(g, root), n)
    requires shown == Average(Samples(g, podMetrics, Visited(g, OwnedBy(g, root), n)))
    ensures SingleOwner(g) ==> forall ks :: Owned(g, root, ks) ==> IsMean(g, podMetrics, ks, shown)
  {
    forall ks | SingleOwner(g) && Owned(g, root, ks) ensures IsMean(g, podMetrics, ks, shown) {
      ForestAverage(g, podMetrics, root, n, ks);
      AverageIsMean(g, podMetrics, ks);
    }
  }

  /** The value shown for a resource that is not a pod: the mean usage of the leaves below
      it that have metrics, and nothing if there is none. */
  method OwnedAverage(g: Graph, podMetrics: map<string, real>, root: Key, ghost turns: nat)
    returns (shown: Option<real>)
    requires Closed(g) && root in g && EndsIn(g, OwnedBy(g, root), turns)
    ensures shown == Average(Samples(g, podMetrics, Visited(g, OwnedBy(g, root), turns)))
    ensures shown.Some? ==>
              forall low, high :: LeavesWithin(g, podMetrics, root, low, high) ==> low <= shown.value <= high
    ensures IsMean(g, podMetrics, Visited(g, OwnedBy(g, root), turns), shown)
    ensures SingleOwner(g) ==> forall ks :: Owned(g, root, ks) ==> IsMean(g, podMetrics, ks, shown)
  {
    shown := None;
    if g[root].owned.Some? {
      var total, count := 0.0, 0;
      var owned := OwnedBy(g, root);
      ghost var left := turns;
      ghost var visited := [];
      while owned != []
        invariant forall k :: k in owned ==> k in g
        invariant Underway(g, visited, owned, left, Visited(g, OwnedBy(g, root), turns))
        invariant total == Sum(Samples(g, podMetrics, visited))
        invariant count == |Samples(g, podMetrics, visited)|
        decreases left
      {
        var k := owned[0];
        var r := g[k];
        SamplesAppend(g, podMetrics, visited, k);
        UnderwayTurn(g, visited, owned, left, Visited(g, OwnedBy(g, root), turns));
        owned := owned[1..];
        if r.owned.Some? {
          owned := owned + r.owned.value;
        } else {
          assert owned + [] == owned;
          if r.podKey in podMetrics {
            total := total + podMetrics[r.podKey];
            count := count + 1;
          }
        }
        left := left - 1;
        visited := visited + [k];
      }
      assert visited == Visited(g, OwnedBy(g, root), turns);
      if count != 0 {
        shown := Some(total / count as real);
      }
    }
    AverageIsMean(g, podMetrics, Visited(g, OwnedBy(g, root), turns));
    AverageWithinLeaves(g, podMetrics, root, turns, shown);
    ForestMean(g, podMetrics, root, turns, shown);
  }
}
