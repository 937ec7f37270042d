/** `resolveRelated`: everything a resource owns, plus everything reachable from that by
    "related" links, which may form cycles. */
module RelatedResources {
  import opened Wrappers
  import opened Ownership

  // ----- What should be found -----

  ghost predicate RelatedPath(g: Graph, p: seq<Key>) {
    p != [] && forall i :: 0 <= i < |p| - 1 ==> p[i + 1] in RelatedTo(g, p[i])
  }

  /** `d` can be reached from `k` by any number of related links, even none. */
  ghost predicate Linked(g: Graph, k: Key, d: Key) {
    exists p :: RelatedPath(g, p) && p[0] == k && p[|p| - 1] == d
  }

  /** `d` is reached by at least one related link from something `root` owns. */
  ghost predicate RelatedBelow(g: Graph, root: Key, d: Key) {
    exists o, k :: Descendant(g, root, o) && k in RelatedTo(g, o) && Linked(g, k, d)
  }

  /** Related links go along what is stored as well. */
  lemma LinkedMeans(g: Graph, k: Key, d: Key)
    ensures Linked(g, k, d)
            <==> exists p: seq<Key> :: p != [] && p[0] == k && p[|p| - 1] == d
                                       && forall i, j :: 0 <= i && j == i + 1 < |p| ==> Relates(g, p[i], p[j])
  {
    if p: seq<Key> :| RelatedPath(g, p) && p[0] == k && p[|p| - 1] == d {
      forall i, j | 0 <= i && j == i + 1 < |p| ensures Relates(g, p[i], p[j]) {
        LinksAreStored(g, p[i], p[i + 1]);
      }
    }
    if p: seq<Key> :| p != [] && p[0] == k && p[|p| - 1] == d
                      && forall i, j :: 0 <= i && j == i + 1 < |p| ==> Relates(g, p[i], p[j]) {
      forall i | 0 <= i < |p| - 1 ensures p[i + 1] in RelatedTo(g, p[i]) {
        LinksAreStored(g, p[i], p[i + 1]);
      }
      assert RelatedPath(g, p);
    }
  }

  lemma RelatedBelowMeans(g: Graph, root: Key, d: Key)
    ensures RelatedBelow(g, root, d) <==> exists o, k :: Descendant(g, root, o) && Relates(g, o, k) && Linked(g, k, d)
  {
    if o, k :| Descendant(g, root, o) && k in RelatedTo(g, o) && Linked(g, k, d) {
      LinksAreStored(g, o, k);
    }
    if o, k :| Descendant(g, root, o) && Relates(g, o, k) && Linked(g, k, d) {
      LinksAreStored(g, o, k);
    }
  }

  lemma LinkedSelf(g: Graph, k: Key)
    ensures Linked(g, k, k)
  {
    assert RelatedPath(g, [k]);
  }

  lemma LinkedMore(g: Graph, k: Key, d: Key, e: Key)
    requires Linked(g, k, d) && e in RelatedTo(g, d)
    ensures Linked(g, k, e)
  {
    var p :| RelatedPath(g, p) && p[0] == k && p[|p| - 1] == d;
    var q := p + [e];
    assert forall i :: 0 <= i < |p| ==> q[i] == p[i];
    assert RelatedPath(g, q) && q[0] == k && q[|q| - 1] == e;
  }

  /** A set closed under related links holds everything linked to its members. */
  lemma {:induction false} ClosedHoldsLinked(g: Graph, s: set<Key>, p: seq<Key>)
    requires RelatedPath(g, p) && p[0] in s
    requires forall k, e :: k in s && e in RelatedTo(g, k) ==> e in s
    ensures p[|p| - 1] in s
  {
    if |p| <= 1 {
    } else {
      assert p[1] in RelatedTo(g, p[0]);
      ClosedHoldsLinked(g, s, p[1..]);
    }
  }

  // ----- resolveOwned -----

  ghost predicate SomeBelow(g: Graph, q: seq<Key>, d: Key) {
    exists k :: k in q && Below(g, k, d)
  }

  /** Fills `related` with everything `root` owns. */
  method ResolveOwned(g: Graph, root: Key, ghost turns: nat) returns (related: set<Key>)
    requires Closed(g) && EndsIn(g, OwnedBy(g, root), turns)
    ensures forall d :: d in related <==> Descendant(g, root, d)
  {
    related := {};
    var owned := OwnedBy(g, root);
    ghost var left := turns;
    assert forall d :: SomeBelow(g, owned, d) <==> Descendant(g, root, d);
    while owned != []
      invariant EndsIn(g, owned, left)
      invariant forall d :: Descendant(g, root, d) <==> d in related || SomeBelow(g, owned, d)
      decreases left
    {
      forall d ensures SomeBelow(g, owned, d) <==> d == owned[0] || SomeBelow(g, Turn(g, owned), d) {
        TurnBelow(g, owned, d);
      }
      var r := owned[0];
      owned, left := owned[1..] + OwnedBy(g, r), left - 1;
      related := related + {r};
    }
  }

  // ----- resolveRelated -----

  /** The keys related to each of the owned resources, one after the other. */
  method InitialKeys(g: Graph, related: set<Key>) returns (relKeys: seq<Key>)
    ensures forall k :: k in relKeys <==> exists o :: o in related && k in RelatedTo(g, o)
  {
    relKeys := [];
    var rest := related;
    while rest != {}
      invariant rest <= related
      invariant forall k :: k in relKeys <==> exists o :: o in related - rest && k in RelatedTo(g, o)
      decreases rest
    {
      var o :| o in rest;
      relKeys := relKeys + RelatedTo(g, o);
      rest := rest - {o};
    }
  }

  /** The keys a resource adds to the queue: its related keys not seen yet. */
  function NewKeys(ks: seq<Key>, seen: set<Key>): (r: seq<Key>)
    ensures forall k :: k in r <==> k in ks && k !in seen
  {
    if ks == [] then []
    else (if ks[0] !in seen then [ks[0]] else []) + NewKeys(ks[1..], seen)
  }

  /** `d` can be reached from one of the initial keys. */
  ghost predicate FromInitial(g: Graph, initial: seq<Key>, d: Key) {
    exists k :: k in initial && Linked(g, k, d)
  }

  /** Everything seen or queued is reachable, and nothing reachable is lost: seen
      resources lead only to resources that are seen or still in the queue. */
  ghost predicate Frontier(g: Graph, initial: seq<Key>, seen: set<Key>, queue: seq<Key>) {
    && (forall k :: k in initial ==> k in seen || k in queue)
    && (forall k :: k in seen || k in queue ==> FromInitial(g, initial, k))
    && (forall k, e :: k in seen && e in RelatedTo(g, k) ==> e in seen || e in queue)
  }

  lemma FrontierStep(g: Graph, initial: seq<Key>, seen: set<Key>, queue: seq<Key>, more: seq<Key>)
    requires queue != [] && Frontier(g, initial, seen, queue)
    requires forall e :: e in more <==> e in RelatedTo(g, queue[0]) && e !in seen + {queue[0]}
    ensures Frontier(g, initial, seen + {queue[0]}, queue[1..] + more)
  {
    var key, rest := queue[0], queue[1..];
    assert queue == [key] + rest;
    forall e | e in more ensures FromInitial(g, initial, e) {
      var k :| k in initial && Linked(g, k, key);
      LinkedMore(g, k, key, e);
    }
    var queue' := rest + more;
    assert forall e :: e in queue' <==> e in rest || e in more;
    assert forall e :: e in queue <==> e == key || e in rest;
  }

  lemma FrontierSkip(g: Graph, initial: seq<Key>, seen: set<Key>, queue: seq<Key>)
    requires queue != [] && Frontier(g, initial, seen, queue) && queue[0] in seen
    ensures Frontier(g, initial, seen, queue[1..])
  {
    assert queue == [queue[0]] + queue[1..];
  }

  lemma FrontierDone(g: Graph, initial: seq<Key>, seen: set<Key>)
    requires Frontier(g, initial, seen, [])
    ensures forall d :: d in seen <==> FromInitial(g, initial, d)
  {
    forall d | FromInitial(g, initial, d) ensures d in seen {
      var k :| k in initial && Linked(g, k, d);
      var p :| RelatedPath(g, p) && p[0] == k && p[|p| - 1] == d;
      ClosedHoldsLinked(g, seen, p);
    }
  }

  /** Follows related links from `initial`; looking up a key with no resource behind it
      ends in an exception, modelled by `None`. */
  method FollowRelated(g: Graph, initial: seq<Key>) returns (found: Option<set<Key>>)
    ensures found.None? ==> exists d :: FromInitial(g, initial, d) && d !in g
    ensures found.Some? ==> found.value <= g.Keys && forall d :: d in found.value <==> FromInitial(g, initial, d)
  {
    var relKeys := initial;
    var seen: set<Key> := {};
    forall k | k in initial ensures FromInitial(g, initial, k) {
      LinkedSelf(g, k);
    }
    while relKeys != []
      invariant seen <= g.Keys && Frontier(g, initial, seen, relKeys)
      decreases g.Keys - seen, |relKeys|
    {
      var key := relKeys[0];
      if key !in seen {
        if key !in g {
          assert FromInitial(g, initial, key);
          return None;
        }
        var more := NewKeys(RelatedTo(g, key), seen + {key});
        FrontierStep(g, initial, seen, relKeys, more);
        seen := seen + {key};
        relKeys := relKeys[1..] + more;
      } else {
        FrontierSkip(g, initial, seen, relKeys);
        relKeys := relKeys[1..];
      }
    }
    FrontierDone(g, initial, seen);
    found := Some(seen);
  }

  lemma RelatedFromInitial(g: Graph, root: Key, relKeys: seq<Key>, d: Key)
    requires forall k :: k in relKeys <==> exists o :: Descendant(g, root, o) && k in RelatedTo(g, o)
    ensures RelatedBelow(g, root, d) <==> FromInitial(g, relKeys, d)
  {
  }

  /** The resources shown: the unfiltered ones among everything owned and everything
      related to that, or an exception exactly if some related key is unknown. */
  method ResolveRelated(g: Graph, root: Key, ghost turns: nat) returns (shown: Option<set<Key>>)
    requires Closed(g) && root in g && EndsIn(g, OwnedBy(g, root), turns)
    ensures shown.None? <==> exists d :: RelatedBelow(g, root, d) && d !in g
    ensures shown.Some? ==>
              forall d :: d in shown.value <==>
                (Descendant(g, root, d) || RelatedBelow(g, root, d)) && d in g && !g[d].isFiltered
  {
    var related := ResolveOwned(g, root, turns);
    var relKeys := InitialKeys(g, related);
    var relatedResources := FollowRelated(g, relKeys);
    forall d ensures RelatedBelow(g, root, d) <==> FromInitial(g, relKeys, d) {
      RelatedFromInitial(g, root, relKeys, d);
    }
    if relatedResources.None? {
      return None;
    }
    var all := related + relatedResources.value;
    shown := Some(set d | d in all && d in g && !g[d].isFiltered);
  }

  /** A related key with no resource behind it ends in the exception. */
  lemma UnknownRelated(root: Key, owned: Key, gone: Key)
    requires root != owned && root != gone && owned != gone
    ensures var g := map[root := Resource(Some([owned]), None, false, ""),
                         owned := Resource(None, Some([gone]), false, "")];
            Closed(g) && RelatedBelow(g, root, gone) && gone !in g
  {
    var g := map[root := Resource(Some([owned]), None, false, ""), owned := Resource(None, Some([gone]), false, "")];
    assert owned in OwnedBy(g, root) && gone in RelatedTo(g, owned);
    BelowSelf(g, owned);
    LinkedSelf(g, gone);
    assert Descendant(g, root, owned);
  }
}
