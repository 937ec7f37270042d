/** The resource graph: which resources own which, and when the queue loops over owned
    resources end. */
module Ownership {
  import opened Wrappers

  /** A `kind/namespace/name` key; only its identity matters here. */
  type Key(==, !new)

  /** `owned` and `related` are missing on resources that have none; their keys are in
      the order in which a loop sees them. */
  datatype Resource = Resource(owned: Option<seq<Key>>, related: Option<seq<Key>>,
                               isFiltered: bool, podKey: string)

  type Graph = map<Key, Resource>

  function OwnedBy(g: Graph, k: Key): seq<Key> {
    if k in g && g[k].owned.Some? then g[k].owned.value else []
  }

  function RelatedTo(g: Graph, k: Key): seq<Key> {
    if k in g && g[k].related.Some? then g[k].related.value else []
  }

  /** A link of the graph as it is stored. */
  predicate Owns(g: Graph, k: Key, c: Key) {
    k in g && g[k].owned.Some? && c in g[k].owned.value
  }

  predicate Relates(g: Graph, k: Key, c: Key) {
    k in g && g[k].related.Some? && c in g[k].related.value
  }

  lemma LinksAreStored(g: Graph, k: Key, c: Key)
    ensures c in OwnedBy(g, k) <==> Owns(g, k, c)
    ensures c in RelatedTo(g, k) <==> Relates(g, k, c)
    ensures multiset(OwnedBy(g, k))[c] == if k in g && g[k].owned.Some? then multiset(g[k].owned.value)[c] else 0
  {
  }

  // ----- Paths -----

  ghost predicate OwnPath(g: Graph, p: seq<Key>) {
    p != [] && forall i :: 0 <= i < |p| - 1 ==> p[i + 1] in OwnedBy(g, p[i])
  }

  /** `d` is `k` itself or owned by it, directly or not. */
  ghost predicate Below(g: Graph, k: Key, d: Key) {
    exists p :: OwnPath(g, p) && p[0] == k && p[|p| - 1] == d
  }

  /** `d` is owned by `k`, directly or not. */
  ghost predicate Descendant(g: Graph, k: Key, d: Key) {
    exists c :: c in OwnedBy(g, k) && Below(g, c, d)
  }

  /** Ownership goes along the stored links. */
  lemma BelowMeans(g: Graph, k: Key, d: Key)
    ensures Below(g, k, d)
            <==> exists p: seq<Key> :: p != [] && p[0] == k && p[|p| - 1] == d
                                       && forall i, j :: 0 <= i && j == i + 1 < |p| ==> Owns(g, p[i], p[j])
  {
    if p: seq<Key> :| OwnPath(g, p) && p[0] == k && p[|p| - 1] == d {
      forall i, j | 0 <= i && j == i + 1 < |p| ensures Owns(g, p[i], p[j]) {
        LinksAreStored(g, p[i], p[i + 1]);
      }
    }
    if p: seq<Key> :| p != [] && p[0] == k && p[|p| - 1] == d
                      && forall i, j :: 0 <= i && j == i + 1 < |p| ==> Owns(g, p[i], p[j]) {
      forall i | 0 <= i < |p| - 1 ensures p[i + 1] in OwnedBy(g, p[i]) {
        LinksAreStored(g, p[i], p[i + 1]);
      }
      assert OwnPath(g, p);
    }
  }

  lemma DescendantMeans(g: Graph, k: Key, d: Key)
    ensures Descendant(g, k, d) <==> exists c :: Owns(g, k, c) && Below(g, c, d)
  {
    if c :| c in OwnedBy(g, k) && Below(g, c, d) {
      LinksAreStored(g, k, c);
    }
    if c :| Owns(g, k, c) && Below(g, c, d) {
      LinksAreStored(g, k, c);
    }
  }

  lemma BelowSelf(g: Graph, k: Key)
    ensures Below(g, k, k)
  {
    assert OwnPath(g, [k]);
  }

  lemma BelowStep(g: Graph, k: Key, d: Key)
    ensures Below(g, k, d) <==> k == d || Descendant(g, k, d)
  {
    BelowSelf(g, k);
    if Below(g, k, d) && k != d {
      var p :| OwnPath(g, p) && p[0] == k && p[|p| - 1] == d;
      assert OwnPath(g, p[1..]);
      assert p[1] in OwnedBy(g, k) && Below(g, p[1], d);
    }
    if Descendant(g, k, d) {
      var c :| c in OwnedBy(g, k) && Below(g, c, d);
      var p :| OwnPath(g, p) && p[0] == c && p[|p| - 1] == d;
      var q := [k] + p;
      assert forall i :: 0 < i < |q| - 1 ==> q[i] == p[i - 1] && q[i + 1] == p[i];
      assert OwnPath(g, q);
    }
  }

  lemma BelowTrans(g: Graph, a: Key, b: Key, c: Key)
    requires Below(g, a, b) && Below(g, b, c)
    ensures Below(g, a, c)
  {
    var p :| OwnPath(g, p) && p[0] == a && p[|p| - 1] == b;
    var q :| OwnPath(g, q) && q[0] == b && q[|q| - 1] == c;
    var r := p + q[1..];
    assert forall i :: |p| - 1 <= i < |r| ==> r[i] == q[i - (|p| - 1)];
    assert OwnPath(g, r) && r[0] == a && r[|r| - 1] == c;
  }

  // ----- Ownership without cycles -----

  /** Every resource ranked owns only resources of lower rank. */
  ghost predicate Ranked(g: Graph, rank: map<Key, nat>) {
    forall k, c :: k in rank && c in OwnedBy(g, k) ==> c in rank && rank[c] < rank[k]
  }

  /** No ownership cycle can be reached from `k`. */
  ghost predicate Grounded(g: Graph, k: Key) {
    exists rank: map<Key, nat> :: k in rank && Ranked(g, rank)
  }

  /** How often a queue loop started at `k` takes each resource out of the queue: once
      for every way down to it. */
  ghost function Visits(g: Graph, rank: map<Key, nat>, k: Key): multiset<Key>
    requires Ranked(g, rank) && k in rank
    decreases rank[k], 1, 0
  {
    multiset{k} + VisitsAll(g, rank, OwnedBy(g, k), rank[k])
  }

  ghost function VisitsAll(g: Graph, rank: map<Key, nat>, ks: seq<Key>, bound: nat): multiset<Key>
    requires Ranked(g, rank) && forall k :: k in ks ==> k in rank && rank[k] < bound
    decreases bound, 0, |ks|
  {
    if ks == [] then multiset{} else Visits(g, rank, ks[0]) + VisitsAll(g, rank, ks[1..], bound)
  }

  lemma {:induction false} VisitsBound(g: Graph, rank: map<Key, nat>, ks: seq<Key>, b: nat, b': nat)
    requires Ranked(g, rank) && forall k :: k in ks ==> k in rank && rank[k] < b && rank[k] < b'
    ensures VisitsAll(g, rank, ks, b) == VisitsAll(g, rank, ks, b')
  {
    if ks == [] {
    } else {
      VisitsBound(g, rank, ks[1..], b, b');
    }
  }

  lemma {:induction false} VisitsAppend(g: Graph, rank: map<Key, nat>, ks: seq<Key>, more: seq<Key>, b: nat)
    requires Ranked(g, rank) && forall k :: k in ks + more ==> k in rank && rank[k] < b
    ensures VisitsAll(g, rank, ks + more, b) == VisitsAll(g, rank, ks, b) + VisitsAll(g, rank, more, b)
  {
    if ks == [] {
      assert ks + more == more;
    } else {
      assert (ks + more)[1..] == ks[1..] + more;
      VisitsAppend(g, rank, ks[1..], more, b);
    }
  }

  /** All keys of a queue are ranked below `b`. */
  ghost predicate QueueOk(rank: map<Key, nat>, q: seq<Key>, b: nat) {
    forall k :: k in q ==> k in rank && rank[k] < b
  }

  /** One turn of a queue loop: the first resource is replaced by what it owns. */
  function Turn(g: Graph, q: seq<Key>): seq<Key>
    requires q != []
  {
    q[1..] + OwnedBy(g, q[0])
  }

  lemma QueueRest(rank: map<Key, nat>, q: seq<Key>, b: nat)
    requires q != [] && QueueOk(rank, q, b)
    ensures q[0] in rank && rank[q[0]] < b && QueueOk(rank, q[1..], b)
  {
  }

  lemma TurnOk(g: Graph, rank: map<Key, nat>, q: seq<Key>, b: nat)
    requires Ranked(g, rank) && q != [] && QueueOk(rank, q, b)
    ensures QueueOk(rank, Turn(g, q), b) && QueueOk(rank, OwnedBy(g, q[0]), rank[q[0]])
  {
    QueueRest(rank, q, b);
  }

  /** A turn visits one resource and leaves the rest of the visits to come. */
  lemma TurnVisits(g: Graph, rank: map<Key, nat>, q: seq<Key>, b: nat)
    requires Ranked(g, rank) && q != [] && QueueOk(rank, q, b) && QueueOk(rank, Turn(g, q), b)
    ensures VisitsAll(g, rank, q, b) == multiset{q[0]} + VisitsAll(g, rank, Turn(g, q), b)
    ensures |VisitsAll(g, rank, q, b)| == 1 + |VisitsAll(g, rank, Turn(g, q), b)|
  {
    QueueRest(rank, q, b);
    TurnOk(g, rank, q, b);
    VisitsBound(g, rank, OwnedBy(g, q[0]), b, rank[q[0]]);
    VisitsAppend(g, rank, q[1..], OwnedBy(g, q[0]), b);
  }

  /** Turning over the front of the queue loses no descendant. */
  lemma TurnBelow(g: Graph, q: seq<Key>, d: Key)
    requires q != []
    ensures (exists k :: k in q && Below(g, k, d))
            <==> q[0] == d || exists k :: k in Turn(g, q) && Below(g, k, d)
  {
    BelowStep(g, q[0], d);
    assert q == [q[0]] + q[1..];
  }

  // ----- The loops end exactly when there is no cycle below -----

  ghost function TurnsLater(g: Graph, q: seq<Key>, n: nat): seq<Key>
    decreases n
  {
    if n == 0 || q == [] then q else TurnsLater(g, Turn(g, q), n - 1)
  }

  /** `k` owns something in `c`. */
  ghost predicate OwnsIn(g: Graph, k: Key, c: set<Key>) {
    exists d :: d in OwnedBy(g, k) && d in c
  }

  /** Something in `c` lies below `k`. */
  ghost predicate LeadsTo(g: Graph, k: Key, c: set<Key>) {
    exists d :: d in c && Below(g, k, d)
  }

  /** The queue loop from `q` is over after at most `n` turns. */
  ghost predicate EndsIn(g: Graph, q: seq<Key>, n: nat) {
    TurnsLater(g, q, n) == []
  }

  /** The resources taken out of the queue in the first `n` turns, in order. */
  ghost function Visited(g: Graph, q: seq<Key>, n: nat): seq<Key>
    decreases n
  {
    if n == 0 || q == [] then [] else [q[0]] + Visited(g, Turn(g, q), n - 1)
  }

  /** The invariant of a queue loop: what was visited, then what is still to come. */
  ghost predicate Underway(g: Graph, visited: seq<Key>, q: seq<Key>, left: nat, all: seq<Key>) {
    EndsIn(g, q, left) && visited + Visited(g, q, left) == all
  }

  lemma UnderwayTurn(g: Graph, visited: seq<Key>, q: seq<Key>, left: nat, all: seq<Key>)
    requires q != [] && Underway(g, visited, q, left, all)
    ensures left > 0 && Underway(g, visited + [q[0]], Turn(g, q), left - 1, all)
  {
    var later := Visited(g, Turn(g, q), left - 1);
    assert visited + ([q[0]] + later) == visited + [q[0]] + later;
  }

  /** A queue loop visits each resource once for every way down to it. */
  lemma {:induction false} VisitedIsVisits(g: Graph, rank: map<Key, nat>, q: seq<Key>, b: nat, n: nat)
    requires Ranked(g, rank) && QueueOk(rank, q, b) && EndsIn(g, q, n)
    ensures multiset(Visited(g, q, n)) == VisitsAll(g, rank, q, b)
    decreases n
  {
    if q == [] {
    } else {
      TurnOk(g, rank, q, b);
      TurnVisits(g, rank, q, b);
      VisitedIsVisits(g, rank, Turn(g, q), b, n - 1);
    }
  }

  /** Following ownership inside `c` never has to stop: `c` holds an ownership cycle. */
  ghost predicate Endless(g: Graph, c: set<Key>) {
    c != {} && forall k {:trigger OwnsIn(g, k, c)} :: k in c ==> OwnsIn(g, k, c)
  }

  ghost predicate CycleBelow(g: Graph, k: Key) {
    exists c :: Endless(g, c) && LeadsTo(g, k, c)
  }

  lemma EndlessStep(g: Graph, c: set<Key>, k: Key)
    requires Endless(g, c) && LeadsTo(g, k, c)
    ensures exists k' :: k' in OwnedBy(g, k) && LeadsTo(g, k', c)
  {
    var d :| d in c && Below(g, k, d);
    if k == d {
      assert OwnsIn(g, k, c);
      var d' :| d' in OwnedBy(g, k) && d' in c;
      BelowSelf(g, d');
      assert LeadsTo(g, d', c);
    } else {
      BelowStep(g, k, d);
    }
  }

  /** Something in the queue leads to `c`. */
  ghost predicate QueueLeadsTo(g: Graph, q: seq<Key>, c: set<Key>) {
    exists k :: k in q && LeadsTo(g, k, c)
  }

  lemma TurnLeadsTo(g: Graph, c: set<Key>, q: seq<Key>)
    requires Endless(g, c) && q != [] && QueueLeadsTo(g, q, c)
    ensures QueueLeadsTo(g, Turn(g, q), c)
  {
    var k :| k in q && LeadsTo(g, k, c);
    assert q == [q[0]] + q[1..];
    if k == q[0] {
      EndlessStep(g, c, k);
      var k' :| k' in OwnedBy(g, k) && LeadsTo(g, k', c);
      assert k' in Turn(g, q);
    } else {
      assert k in Turn(g, q);
    }
  }

  lemma {:induction false} CycleKeepsQueue(g: Graph, c: set<Key>, q: seq<Key>, n: nat)
    requires Endless(g, c) && QueueLeadsTo(g, q, c)
    ensures TurnsLater(g, q, n) != []
    decreases n
  {
    if n == 0 {
    } else {
      TurnLeadsTo(g, c, q);
      CycleKeepsQueue(g, c, Turn(g, q), n - 1);
    }
  }

  lemma {:induction false} RankedEnds(g: Graph, rank: map<Key, nat>, q: seq<Key>, b: nat)
    requires Ranked(g, rank) && QueueOk(rank, q, b)
    ensures TurnsLater(g, q, |VisitsAll(g, rank, q, b)|) == []
    decreases |VisitsAll(g, rank, q, b)|
  {
    if q == [] {
    } else {
      TurnOk(g, rank, q, b);
      TurnVisits(g, rank, q, b);
      RankedEnds(g, rank, Turn(g, q), b);
    }
  }

  /** Without an endless part, peeling off resources that own nothing of the rest ranks
      them all. */
  lemma {:induction false} PeelRank(g: Graph, u: set<Key>) returns (rank: map<Key, nat>)
    requires forall c :: c <= u ==> !Endless(g, c)
    ensures rank.Keys == u
    ensures forall k, c :: k in rank && c in OwnedBy(g, k) && c in rank ==> rank[c] < rank[k]
    decreases |u|
  {
    if u == {} {
      rank := map[];
    } else {
      assert !Endless(g, u);
      var leaf :| leaf in u && !OwnsIn(g, leaf, u);
      var above := PeelRank(g, u - {leaf});
      rank := map k | k in u :: if k == leaf then 0 else above[k] + 1;
    }
  }

  ghost function AllBelow(g: Graph, k: Key): set<Key> {
    set d | d in g.Keys + {k} && Below(g, k, d)
  }

  /** Owned resources are known resources. */
  ghost predicate Closed(g: Graph) {
    forall k, c :: k in g && c in OwnedBy(g, k) ==> c in g
  }

  lemma EndlessBelow(g: Graph, k: Key, c: set<Key>)
    requires Endless(g, c) && c <= AllBelow(g, k)
    ensures CycleBelow(g, k)
  {
    var d :| d in c;
    assert LeadsTo(g, k, c);
  }

  lemma AcyclicGrounded(g: Graph, k: Key)
    requires Closed(g) && !CycleBelow(g, k)
    ensures Grounded(g, k)
  {
    var u := AllBelow(g, k);
    BelowSelf(g, k);
    forall c | c <= u ensures !Endless(g, c) {
      if Endless(g, c) {
        EndlessBelow(g, k, c);
      }
    }
    var rank := PeelRank(g, u);
    forall x ensures x in rank <==> Below(g, k, x) {
      if Below(g, k, x) {
        BelowIsKnown(g, k, x);
      }
    }
    PeeledIsRanked(g, k, rank);
  }

  lemma PeeledIsRanked(g: Graph, k: Key, rank: map<Key, nat>)
    requires forall x :: x in rank <==> Below(g, k, x)
    requires forall x, c :: x in rank && c in OwnedBy(g, x) && c in rank ==> rank[c] < rank[x]
    ensures Ranked(g, rank)
  {
    forall x, c | x in rank && c in OwnedBy(g, x) ensures c in rank && rank[c] < rank[x] {
      OwnedIsBelow(g, k, x, c);
    }
  }

  lemma OwnedIsBelow(g: Graph, k: Key, x: Key, c: Key)
    requires Below(g, k, x) && c in OwnedBy(g, x)
    ensures Below(g, k, c)
  {
    BelowSelf(g, c);
    BelowStep(g, x, c);
    BelowTrans(g, k, x, c);
  }

  lemma BelowIsKnown(g: Graph, k: Key, d: Key)
    requires Closed(g) && Below(g, k, d)
    ensures d in AllBelow(g, k)
  {
    var p :| OwnPath(g, p) && p[0] == k && p[|p| - 1] == d;
    if |p| > 1 {
      assert p[|p| - 1] in OwnedBy(g, p[|p| - 2]);
    }
  }

  /** The queue loop started with `k` comes to an end exactly when no ownership cycle
      can be reached from `k`; and then the resources below `k` can be ranked. */
  lemma LoopEndsIff(g: Graph, k: Key)
    requires Closed(g)
    ensures (exists n :: EndsIn(g, [k], n)) <==> !CycleBelow(g, k)
    ensures Grounded(g, k) <==> !CycleBelow(g, k)
  {
    if CycleBelow(g, k) {
      var c :| Endless(g, c) && LeadsTo(g, k, c);
      assert QueueLeadsTo(g, [k], c);
      forall n: nat ensures !EndsIn(g, [k], n) {
        CycleKeepsQueue(g, c, [k], n);
      }
    } else {
      AcyclicGrounded(g, k);
    }
    if Grounded(g, k) {
      var rank: map<Key, nat> :| k in rank && Ranked(g, rank);
      RankedEnds(g, rank, [k], rank[k] + 1);
      assert EndsIn(g, [k], |VisitsAll(g, rank, [k], rank[k] + 1)|);
    }
  }

  // ----- Single ownership: every resource is visited once -----

  /** No resource has two owners or is listed twice by one. */
  ghost predicate SingleOwner(g: Graph) {
    && (forall p, q, c :: c in OwnedBy(g, p) && c in OwnedBy(g, q) ==> p == q)
    && (forall p, i, j :: 0 <= i < j < |OwnedBy(g, p)| ==> OwnedBy(g, p)[i] != OwnedBy(g, p)[j])
  }

  lemma {:induction false} PathRank(g: Graph, rank: map<Key, nat>, p: seq<Key>)
    requires Ranked(g, rank) && OwnPath(g, p) && p[0] in rank
    ensures p[|p| - 1] in rank && rank[p[|p| - 1]] + |p| - 1 <= rank[p[0]]
  {
    if |p| <= 1 {
    } else {
      assert p[1] in OwnedBy(g, p[0]);
      PathRank(g, rank, p[1..]);
    }
  }

  lemma BelowRank(g: Graph, rank: map<Key, nat>, k: Key, d: Key)
    requires Ranked(g, rank) && k in rank && Below(g, k, d)
    ensures d in rank && rank[d] <= rank[k]
  {
    var p :| OwnPath(g, p) && p[0] == k && p[|p| - 1] == d;
    PathRank(g, rank, p);
  }

  /** With single owners, two resources with a common resource below lie on one line. */
  lemma {:induction false} OnOneLine(g: Graph, p: seq<Key>, q: seq<Key>)
    requires SingleOwner(g) && OwnPath(g, p) && OwnPath(g, q) && p[|p| - 1] == q[|q| - 1]
    ensures Below(g, p[0], q[0]) || Below(g, q[0], p[0])
    decreases |p|
  {
    if |p| <= 1 || |q| <= 1 {
    } else {
      var p', q' := p[..|p| - 1], q[..|q| - 1];
      assert p[|p| - 1] in OwnedBy(g, p[|p| - 2]) && q[|q| - 1] in OwnedBy(g, q[|q| - 2]);
      OnOneLine(g, p', q');
    }
  }

  lemma OwnerBetween(g: Graph, a: Key, b: Key, k: Key)
    requires SingleOwner(g) && Below(g, a, b) && a != b && b in OwnedBy(g, k)
    ensures Below(g, a, k)
  {
    var p :| OwnPath(g, p) && p[0] == a && p[|p| - 1] == b;
    assert p[|p| - 1] in OwnedBy(g, p[|p| - 2]);
    assert OwnPath(g, p[..|p| - 1]);
  }

  lemma SiblingsApart(g: Graph, rank: map<Key, nat>, k: Key, a: Key, b: Key, d: Key)
    requires SingleOwner(g) && Ranked(g, rank) && k in rank
    requires a in OwnedBy(g, k) && b in OwnedBy(g, k) && Below(g, a, d) && Below(g, b, d)
    ensures a == b
  {
    if a != b {
      var p :| OwnPath(g, p) && p[0] == a && p[|p| - 1] == d;
      var q :| OwnPath(g, q) && q[0] == b && q[|q| - 1] == d;
      OnOneLine(g, p, q);
      var upper, lower := if Below(g, a, b) then a else b, if Below(g, a, b) then b else a;
      OwnerBetween(g, upper, lower, k);
      BelowRank(g, rank, upper, k);
    }
  }

  ghost predicate SomeBelow(g: Graph, ks: seq<Key>, d: Key) {
    exists c :: c in ks && Below(g, c, d)
  }

  /** A queue loop over a forest takes every resource out exactly once. */
  lemma {:induction false} VisitedOnce(g: Graph, rank: map<Key, nat>, k: Key, d: Key)
    requires SingleOwner(g) && Ranked(g, rank) && k in rank
    ensures Visits(g, rank, k)[d] == if Below(g, k, d) then 1 else 0
    decreases rank[k], 1, 0
  {
    var owned := OwnedBy(g, k);
    SiblingsVisitedOnce(g, rank, k, owned, d);
    BelowStep(g, k, d);
    if k == d && SomeBelow(g, owned, d) {
      var c :| c in owned && Below(g, c, d);
      BelowRank(g, rank, c, d);
    }
  }

  lemma {:induction false} SiblingsVisitedOnce(g: Graph, rank: map<Key, nat>, k: Key, ks: seq<Key>, d: Key)
    requires SingleOwner(g) && Ranked(g, rank) && k in rank
    requires forall c :: c in ks ==> c in OwnedBy(g, k)
    requires forall i, j :: 0 <= i < j < |ks| ==> ks[i] != ks[j]
    ensures VisitsAll(g, rank, ks, rank[k])[d] == if SomeBelow(g, ks, d) then 1 else 0
    decreases rank[k], 0, |ks|
  {
    if ks == [] {
    } else {
      assert ks == [ks[0]] + ks[1..];
      VisitedOnce(g, rank, ks[0], d);
      SiblingsVisitedOnce(g, rank, k, ks[1..], d);
      if Below(g, ks[0], d) && SomeBelow(g, ks[1..], d) {
        var c :| c in ks[1..] && Below(g, c, d);
        SiblingsApart(g, rank, k, ks[0], c, d);
      }
    }
  }

  /** On an ownership forest the loop from `root` takes out `root` and everything it
      owns, each exactly once. */
  lemma ForestVisited(g: Graph, root: Key, n: nat)
    requires Closed(g) && SingleOwner(g) && EndsIn(g, [root], n)
    ensures forall d :: d in Visited(g, [root], n) <==> Below(g, root, d)
    ensures forall i, j :: 0 <= i < j < |Visited(g, [root], n)| ==> Visited(g, [root], n)[i] != Visited(g, [root], n)[j]
  {
    var visited := Visited(g, [root], n);
    forall d ensures multiset(visited)[d] == if Below(g, root, d) then 1 else 0 {
      ForestCount(g, root, n, d);
    }
    forall d ensures d in visited <==> Below(g, root, d) {
      assert d in visited <==> d in multiset(visited);
    }
    forall i, j | 0 <= i < j < |visited| ensures visited[i] != visited[j] {
      if visited[i] == visited[j] {
        TwiceInBag(visited, i, j);
      }
    }
  }

  lemma ForestCount(g: Graph, root: Key, n: nat, d: Key)
    requires Closed(g) && SingleOwner(g) && EndsIn(g, [root], n)
    ensures multiset(Visited(g, [root], n))[d] == if Below(g, root, d) then 1 else 0
  {
    LoopEndsIff(g, root);
    var rank: map<Key, nat> :| root in rank && Ranked(g, rank);
    VisitedIsVisits(g, rank, [root], rank[root] + 1, n);
    assert VisitsAll(g, rank, [root][1..], rank[root] + 1) == multiset{};
    VisitedOnce(g, rank, root, d);
  }

  lemma TwiceInBag(ks: seq<Key>, i: nat, j: nat)
    requires i < j < |ks| && ks[i] == ks[j]
    ensures multiset(ks)[ks[i]] >= 2
  {
    assert ks == ks[..j] + ks[j..];
    assert ks[i] in ks[..j] && ks[j] in ks[j..];
  }

  ghost predicate Distinct(ks: seq<Key>) {
    forall i, j :: 0 <= i < j < |ks| ==> ks[i] != ks[j]
  }

  /** `ks` lists the resource and all it owns, each once. */
  ghost predicate Subtree(g: Graph, root: Key, ks: seq<Key>) {
    Distinct(ks) && forall d :: d in ks <==> Below(g, root, d)
  }

  lemma {:induction false} CountedOnce(ks: seq<Key>, k: Key)
    requires Distinct(ks)
    ensures multiset(ks)[k] == if k in ks then 1 else 0
  {
    if ks == [] {
    } else {
      var rest, last := ks[..|ks| - 1], ks[|ks| - 1];
      CountedOnce(rest, k);
      assert ks == rest + [last];
      assert last !in rest;
    }
  }

  /** Lists without repetition that hold the same are reorderings of each other. */
  lemma SameMembers(ks: seq<Key>, ls: seq<Key>)
    requires Distinct(ks) && Distinct(ls) && forall k :: k in ks <==> k in ls
    ensures multiset(ks) == multiset(ls)
  {
    forall k ensures multiset(ks)[k] == multiset(ls)[k] {
      CountedOnce(ks, k);
      CountedOnce(ls, k);
    }
  }

  /** The loop takes out nothing but what its queue leads to, and all of that if it ends. */
  lemma {:induction false} VisitedIsBelow(g: Graph, q: seq<Key>, n: nat, d: Key)
    ensures d in Visited(g, q, n) ==> exists k :: k in q && Below(g, k, d)
    ensures EndsIn(g, q, n) && (exists k :: k in q && Below(g, k, d)) ==> d in Visited(g, q, n)
    decreases n
  {
    if n == 0 || q == [] {
    } else {
      TurnBelow(g, q, d);
      VisitedIsBelow(g, Turn(g, q), n - 1, d);
    }
  }

  lemma VisitedIffBelow(g: Graph, root: Key, n: nat, d: Key)
    requires EndsIn(g, [root], n)
    ensures d in Visited(g, [root], n) <==> Below(g, root, d)
  {
    VisitedIsBelow(g, [root], n, d);
  }

  lemma VisitedIffOwned(g: Graph, root: Key, n: nat, d: Key)
    requires EndsIn(g, OwnedBy(g, root), n)
    ensures d in Visited(g, OwnedBy(g, root), n) <==> Descendant(g, root, d)
  {
    VisitedIsBelow(g, OwnedBy(g, root), n, d);
  }

  /** A resource that owns itself keeps the loop going. */
  lemma OwnsItself(k: Key)
    ensures var g := map[k := Resource(Some([k]), None, false, "")]; Closed(g) && forall n :: !EndsIn(g, [k], n)
  {
    var g := map[k := Resource(Some([k]), None, false, "")];
    BelowSelf(g, k);
    assert Endless(g, {k}) && LeadsTo(g, k, {k});
    LoopEndsIff(g, k);
  }
}
