/** Queue loops over owned resources: the ownership test and the event selection. */
module ResourceUtils {
  import opened Wrappers
  import opened Counting
  import opened Ownership

  // ----- isResourceOwnedBy -----

  ghost predicate SomeOwns(g: Graph, ks: seq<Key>, d: Key) {
    exists k :: k in ks && Descendant(g, k, d)
  }

  /** A target that does not own `d` itself passes the question on to what it owns. */
  lemma OwnsTurn(g: Graph, q: seq<Key>, d: Key)
    requires q != [] && d !in OwnedBy(g, q[0])
    ensures SomeOwns(g, q, d) <==> SomeOwns(g, Turn(g, q), d)
  {
    assert q == [q[0]] + q[1..];
    if Descendant(g, q[0], d) {
      var c :| c in OwnedBy(g, q[0]) && Below(g, c, d);
      BelowStep(g, c, d);
      assert c in Turn(g, q);
    }
    forall c | c in OwnedBy(g, q[0]) && Descendant(g, c, d) ensures Descendant(g, q[0], d) {
      BelowStep(g, c, d);
    }
  }

  /** Within n turns the loop has found `d` or is over. */
  ghost predicate Decides(g: Graph, q: seq<Key>, d: Key, n: nat)
    decreases n
  {
    q == [] || d in OwnedBy(g, q[0]) || (n > 0 && Decides(g, Turn(g, q), d, n - 1))
  }

  /** The test for `d` owned by `owner` comes to a decision within n turns. */
  ghost predicate DecidesIn(g: Graph, owner: Key, d: Key, n: nat) {
    Decides(g, [owner], d, n)
  }

  /** True exactly for resources owned by `owner`, directly or transitively, given that the
      loop comes to a decision. */
  method IsResourceOwnedBy(g: Graph, resource: Option<Key>, owner: Option<Key>, ghost turns: nat)
    returns (result: bool)
    requires resource.Some? && owner.Some? ==> DecidesIn(g, owner.value, resource.value, turns)
    ensures result <==> resource.Some? && owner.Some? && Descendant(g, owner.value, resource.value)
  {
    if resource.Some? && owner.Some? {
      var key := resource.value;
      var owners := [owner.value];
      ghost var left := turns;
      assert SomeOwns(g, owners, key) <==> Descendant(g, owner.value, key);
      while owners != []
        invariant Decides(g, owners, key, left)
        invariant SomeOwns(g, owners, key) <==> Descendant(g, owner.value, key)
        decreases left, owners != []
      {
        var target := owners[0];
        if key in OwnedBy(g, target) {
          DirectlyOwned(g, owners, key);
          return true;
        }
        OwnsTurn(g, owners, key);
        owners, left := owners[1..] + OwnedBy(g, target), left - 1;
      }
    }
    return false;
  }

  lemma DirectlyOwned(g: Graph, q: seq<Key>, d: Key)
    requires q != [] && d in OwnedBy(g, q[0])
    ensures SomeOwns(g, q, d)
  {
    BelowSelf(g, d);
    assert Descendant(g, q[0], d);
  }

  /** What the queue is on its way to, it finds: a resource at any place of the queue is
      taken out after as many turns as there are before it. */
  lemma {:induction false} QueueFinds(g: Graph, q: seq<Key>, i: nat, p: seq<Key>, d: Key) returns (n: nat)
    requires i < |q| && OwnPath(g, p) && p[0] == q[i] && d in OwnedBy(g, p[|p| - 1])
    ensures Decides(g, q, d, n)
    decreases |p|, i
  {
    n := 0;
    if d in OwnedBy(g, q[0]) {
    } else {
      var rest, j := p, i - 1;
      if i == 0 {
        assert |p| > 1 && p[0 + 1] in OwnedBy(g, p[0]);
        var k :| 0 <= k < |OwnedBy(g, q[0])| && OwnedBy(g, q[0])[k] == p[1];
        rest, j := p[1..], |q| - 1 + k;
      }
      n := QueueFinds(g, Turn(g, q), j, rest, d);
      n := n + 1;
    }
  }

  lemma {:induction false} EndedDecides(g: Graph, q: seq<Key>, d: Key, n: nat)
    requires EndsIn(g, q, n)
    ensures Decides(g, q, d, n)
    decreases n
  {
    if q == [] {
    } else {
      EndedDecides(g, Turn(g, q), d, n - 1);
    }
  }

  lemma {:induction false} UnfoundEnds(g: Graph, q: seq<Key>, d: Key, n: nat)
    requires Decides(g, q, d, n) && !SomeOwns(g, q, d)
    ensures EndsIn(g, q, n)
    decreases n
  {
    if q == [] {
    } else {
      if d in OwnedBy(g, q[0]) {
        DirectlyOwned(g, q, d);
      }
      OwnsTurn(g, q, d);
      UnfoundEnds(g, Turn(g, q), d, n - 1);
    }
  }

  /** The path to the owner of a descendant. */
  lemma OwnerPath(g: Graph, k: Key, d: Key) returns (p: seq<Key>)
    requires Descendant(g, k, d)
    ensures OwnPath(g, p) && p[0] == k && d in OwnedBy(g, p[|p| - 1])
  {
    var c :| c in OwnedBy(g, k) && Below(g, c, d);
    var r :| OwnPath(g, r) && r[0] == c && r[|r| - 1] == d;
    p := [k] + r[..|r| - 1];
    forall i | 0 <= i < |p| - 1 ensures p[i + 1] in OwnedBy(g, p[i]) {
      assert p[i + 1] == r[i];
      assert i > 0 ==> p[i] == r[i - 1] && r[i - 1 + 1] in OwnedBy(g, r[i - 1]);
    }
    if |r| > 1 {
      var last := |r| - 2;
      assert p[|p| - 1] == r[last] && r[last + 1] in OwnedBy(g, r[last]);
    }
  }

  /** The test comes to a decision exactly if the one resource is owned by the other, or
      no ownership cycle can be reached. */
  lemma DecidesIff(g: Graph, owner: Key, d: Key)
    requires Closed(g)
    ensures (exists n :: DecidesIn(g, owner, d, n)) <==> Descendant(g, owner, d) || !CycleBelow(g, owner)
  {
    LoopEndsIff(g, owner);
    if Descendant(g, owner, d) {
      var p := OwnerPath(g, owner, d);
      var n := QueueFinds(g, [owner], 0, p, d);
      assert DecidesIn(g, owner, d, n);
    } else {
      assert !SomeOwns(g, [owner], d);
      if n: nat :| DecidesIn(g, owner, d, n) {
        UnfoundEnds(g, [owner], d, n);
      }
      if n: nat :| EndsIn(g, [owner], n) {
        EndedDecides(g, [owner], d, n);
        assert DecidesIn(g, owner, d, n);
      }
    }
  }

  // ----- eventsForResource -----

  datatype Event = Event(name: string, lastTimestamp: string)

  /** The events filed under a resource, in the order in which a loop sees them. */
  type EventIndex = map<Key, seq<Event>>

  /** How `localeCompare` orders two texts: the first does not come before the second. */
  type Collation = (string, string) -> bool

  /** Any two texts compare, consistently. */
  ghost predicate Collates(newer: Collation) {
    && (forall a, b :: newer(a, b) || newer(b, a))
    && (forall a, b, c :: newer(a, b) && newer(b, c) ==> newer(a, c))
  }

  function EventsAt(events: EventIndex, k: Key): seq<Event> {
    if k in events then events[k] else []
  }

  function EventsFor(events: EventIndex): Key -> seq<Event> {
    (k: Key) => EventsAt(events, k)
  }

  function EventsOf(events: EventIndex, ks: seq<Key>): seq<Event> {
    Flatten(ks, EventsFor(events))
  }

  predicate NoOlder(newer: Collation, e: Event, f: Event) {
    newer(e.lastTimestamp, f.lastTimestamp)
  }

  ghost predicate NewestFirst(newer: Collation, es: seq<Event>) {
    forall i, j :: 0 <= i < j < |es| ==> NoOlder(newer, es[i], es[j])
  }

  lemma HeadIsNewest(newer: Collation, es: seq<Event>, x: Event)
    requires Collates(newer) && NewestFirst(newer, es) && x in es
    ensures NoOlder(newer, es[0], x)
  {
  }

  lemma NewestFirstCons(newer: Collation, e: Event, es: seq<Event>)
    requires NewestFirst(newer, es) && forall x :: x in es ==> NoOlder(newer, e, x)
    ensures NewestFirst(newer, [e] + es)
  {
    var r := [e] + es;
    forall i, j | 0 <= i < j < |r| ensures NoOlder(newer, r[i], r[j]) {
      assert r[j] == es[j - 1];
    }
  }

  function Insert(newer: Collation, es: seq<Event>, e: Event): seq<Event> {
    if es == [] || NoOlder(newer, e, es[0]) then [e] + es
    else [es[0]] + Insert(newer, es[1..], e)
  }

  lemma {:induction false} InsertHolds(newer: Collation, es: seq<Event>, e: Event)
    ensures multiset(Insert(newer, es, e)) == multiset(es) + multiset{e}
  {
    if es == [] || NoOlder(newer, e, es[0]) {
    } else {
      InsertHolds(newer, es[1..], e);
      assert es == [es[0]] + es[1..];
    }
  }

  lemma {:induction false} InsertSorted(newer: Collation, es: seq<Event>, e: Event)
    requires Collates(newer) && NewestFirst(newer, es)
    ensures NewestFirst(newer, Insert(newer, es, e))
  {
    if es == [] {
    } else if NoOlder(newer, e, es[0]) {
      forall x | x in es ensures NoOlder(newer, e, x) {
        HeadIsNewest(newer, es, x);
      }
      NewestFirstCons(newer, e, es);
    } else {
      var rest := Insert(newer, es[1..], e);
      InsertSorted(newer, es[1..], e);
      InsertHolds(newer, es[1..], e);
      forall x | x in rest ensures NoOlder(newer, es[0], x) {
        assert x in multiset(rest);
        if x != e {
          assert x in multiset(es[1..]);
          HeadIsNewest(newer, es, x);
        }
      }
      NewestFirstCons(newer, es[0], rest);
    }
  }

  /** `Array.sort` with the newest-first comparator. */
  method Sort(newer: Collation, es: seq<Event>) returns (sorted: seq<Event>)
    requires Collates(newer)
    ensures NewestFirst(newer, sorted) && multiset(sorted) == multiset(es)
    ensures forall i, j :: 0 <= i < j < |sorted| ==> newer(sorted[i].lastTimestamp, sorted[j].lastTimestamp)
  {
    sorted := [];
    for i := 0 to |es|
      invariant NewestFirst(newer, sorted) && multiset(sorted) == multiset(es[..i])
    {
      InsertSorted(newer, sorted, es[i]);
      InsertHolds(newer, sorted, es[i]);
      sorted := Insert(newer, sorted, es[i]);
      assert es[..i + 1] == es[..i] + [es[i]];
    }
    assert es[..|es|] == es;
    assert forall i, j :: 0 <= i < j < |sorted| ==> NoOlder(newer, sorted[i], sorted[j]);
  }

  /** Reordering the resources reorders their events. */
  lemma {:induction false} EventsOfReordered(events: EventIndex, ks: seq<Key>, ls: seq<Key>)
    requires multiset(ks) == multiset(ls)
    ensures multiset(EventsOf(events, ks)) == multiset(EventsOf(events, ls))
    decreases |ks|
  {
    if ks == [] {
      assert |multiset(ls)| == |ls|;
    } else {
      var i := TakeOut(ks, ls);
      EventsOfReordered(events, ks[..|ks| - 1], ls[..i] + ls[i + 1..]);
      EventsAround(events, ls[..i], ls[i], ls[i + 1..]);
    }
  }

  lemma EventsAround(events: EventIndex, ks: seq<Key>, k: Key, ls: seq<Key>)
    ensures multiset(EventsOf(events, ks + [k] + ls))
            == multiset(EventsOf(events, ks + ls)) + multiset(EventsAt(events, k))
  {
    FlattenBoth(ks, ls, EventsFor(events));
    FlattenBoth(ks + [k], ls, EventsFor(events));
    FlattenPush(ks, k, EventsFor(events));
  }

  /** On an ownership forest the events are those of the resource and all it owns, of each
      resource once. */
  lemma ForestEvents(g: Graph, events: EventIndex, root: Key, n: nat, ks: seq<Key>)
    requires Closed(g) && SingleOwner(g) && EndsIn(g, [root], n) && Subtree(g, root, ks)
    ensures multiset(EventsOf(events, Visited(g, [root], n))) == multiset(EventsOf(events, ks))
  {
    ForestVisited(g, root, n);
    SameMembers(Visited(g, [root], n), ks);
    EventsOfReordered(events, Visited(g, [root], n), ks);
  }

  /** How often an event is filed under a resource. */
  function Copies(events: EventIndex, e: Event): Key -> nat {
    (k: Key) => if k in events then multiset(events[k])[e] else 0
  }

  /** An event is selected exactly if it is filed under the resource or one that it owns,
      directly or not. */
  lemma SelectedIff(g: Graph, events: EventIndex, root: Key, n: nat, e: Event)
    requires EndsIn(g, [root], n)
    ensures e in EventsOf(events, Visited(g, [root], n))
            <==> exists k :: Below(g, root, k) && k in events && e in events[k]
  {
    var visited := Visited(g, [root], n);
    InFlatten(visited, EventsFor(events), e);
    if i :| 0 <= i < |visited| && e in EventsFor(events)(visited[i]) {
      VisitedIffBelow(g, root, n, visited[i]);
    }
    if k :| Below(g, root, k) && k in events && e in events[k] {
      VisitedIffBelow(g, root, n, k);
      var i :| 0 <= i < |visited| && visited[i] == k;
      assert e in EventsFor(events)(visited[i]);
    }
  }

  /** On an ownership forest it is selected as often as it is filed there in all. */
  lemma ForestCopies(g: Graph, events: EventIndex, root: Key, n: nat, ks: seq<Key>, e: Event)
    requires Closed(g) && SingleOwner(g) && EndsIn(g, [root], n) && Subtree(g, root, ks)
    ensures multiset(EventsOf(events, Visited(g, [root], n)))[e] == SumBy(ks, Copies(events, e))
  {
    ForestEvents(g, events, root, n, ks);
    CountFlatten(ks, EventsFor(events), e, Copies(events, e));
  }

  /** The events of everything the queue visits, newest first. */
  method EventsForResource(g: Graph, events: EventIndex, root: Key, newer: Collation, ghost turns: nat)
    returns (selected: seq<Event>)
    requires EndsIn(g, [root], turns) && Collates(newer)
    ensures forall i, j :: 0 <= i < j < |selected| ==> newer(selected[i].lastTimestamp, selected[j].lastTimestamp)
    ensures multiset(selected) == multiset(EventsOf(events, Visited(g, [root], turns)))
    ensures forall e :: e in selected <==> exists k :: Below(g, root, k) && k in events && e in events[k]
    ensures Closed(g) && SingleOwner(g) ==>
              forall ks, e :: Subtree(g, root, ks) ==> multiset(selected)[e] == SumBy(ks, Copies(events, e))
  {
    selected := [];
    var owners := [root];
    ghost var left := turns;
    ghost var visited := [];
    while owners != []
      invariant Underway(g, visited, owners, left, Visited(g, [root], turns))
      invariant selected == EventsOf(events, visited)
      decreases left
    {
      var owner := owners[0];
      FlattenPush(visited, owner, EventsFor(events));
      UnderwayTurn(g, visited, owners, left, Visited(g, [root], turns));
      visited := visited + [owner];
      selected := selected + EventsAt(events, owner);
      owners, left := owners[1..] + OwnedBy(g, owner), left - 1;
    }
    assert visited == Visited(g, [root], turns);
    ghost var unsorted := selected;
    selected := Sort(newer, selected);
    forall e ensures e in selected <==> exists k :: Below(g, root, k) && k in events && e in events[k] {
      SelectedIff(g, events, root, turns, e);
      assert e in selected <==> e in multiset(selected);
      assert e in unsorted <==> e in multiset(unsorted);
    }
    if Closed(g) && SingleOwner(g) {
      forall ks, e | Subtree(g, root, ks) ensures multiset(selected)[e] == SumBy(ks, Copies(events, e)) {
        ForestCopies(g, events, root, turns, ks, e);
      }
    }
  }
}
