/** Walks made of steps, each of which moves on or stays, and the path that they leave. */
module Stepping {

  function Fold<P, T>(step: (P, T) -> P, from: P, ts: seq<T>): P {
    if ts == [] then from else step(Fold(step, from, ts[..|ts| - 1]), ts[|ts| - 1])
  }

  lemma FoldPush<P, T>(step: (P, T) -> P, from: P, ts: seq<T>, t: T)
    ensures Fold(step, from, ts + [t]) == step(Fold(step, from, ts), t)
  {
    assert (ts + [t])[..|ts|] == ts;
  }

  lemma {:induction false} FoldBoth<P, T>(step: (P, T) -> P, from: P, a: seq<T>, b: seq<T>)
    ensures Fold(step, from, a + b) == Fold(step, Fold(step, from, a), b)
  {
    if b == [] {
      assert a + b == a;
    } else {
      var last := |b| - 1;
      FoldBoth(step, from, a, b[..last]);
      assert a + b == (a + b[..last]) + [b[last]];
      FoldPush(step, from, a + b[..last], b[last]);
    }
  }

  /** Steps over places: `live` places are those that a walk can stand on, `moves` those
      that it leaves with every step, and `path` what has led to a place. */
  datatype Steps<!P, !T> = Steps(step: (P, T) -> P, path: P -> seq<T>, live: P -> bool, moves: P -> bool)

  /** Within the places of `inside` and for the steps of `known`, a step that leads anywhere
      moves on and adds to the path, or stays. */
  ghost predicate Leads<P(!new), T(!new)>(steps: Steps<P, T>, inside: P -> bool, known: T -> bool) {
    && (forall p, t :: inside(p) && known(t) ==> inside(steps.step(p, t)))
    && (forall p, t :: steps.live(steps.step(p, t)) ==> steps.live(p))
    && (forall p, t :: inside(p) && known(t) && steps.live(steps.step(p, t)) ==>
          if steps.moves(p) then steps.path(steps.step(p, t)) == steps.path(p) + [t] else steps.step(p, t) == p)
  }

  ghost predicate AllKnown<T>(ts: seq<T>, known: T -> bool) {
    forall i :: 0 <= i < |ts| ==> known(ts[i])
  }

  lemma {:induction false} FoldInside<P(!new), T(!new)>(
    steps: Steps<P, T>, inside: P -> bool, known: T -> bool, from: P, ts: seq<T>)
    requires Leads(steps, inside, known) && inside(from) && AllKnown(ts, known)
    ensures inside(Fold(steps.step, from, ts))
  {
    if ts == [] {
    } else {
      FoldInside(steps, inside, known, from, ts[..|ts| - 1]);
    }
  }

  lemma {:induction false} FoldStays<P, T(!new)>(steps: Steps<P, T>, known: T -> bool, p: P, ts: seq<T>)
    requires AllKnown(ts, known)
    requires forall t :: known(t) ==> steps.step(p, t) == p
    ensures Fold(steps.step, p, ts) == p
  {
    if ts == [] {
    } else {
      FoldStays(steps, known, p, ts[..|ts| - 1]);
    }
  }

  /** The first n steps led to `p`, where the walk stays if there are more. */
  ghost predicate Traced<P, T>(steps: Steps<P, T>, from: P, ts: seq<T>, p: P, n: nat) {
    && n <= |ts| && steps.path(p) == steps.path(from) + ts[..n]
    && (n == |ts| || !steps.moves(p))
  }

  lemma TracedNext<P(!new), T(!new)>(
    steps: Steps<P, T>, inside: P -> bool, known: T -> bool, from: P, ts: seq<T>, t: T, p: P, n: nat)
    returns (n': nat)
    requires Leads(steps, inside, known) && inside(p) && known(t) && steps.live(steps.step(p, t))
    requires Traced(steps, from, ts, p, n)
    ensures Traced(steps, from, ts + [t], steps.step(p, t), n')
  {
    if steps.moves(p) {
      n' := |ts| + 1;
      assert ts[..n] == ts && (ts + [t])[..n'] == ts + [t];
      assert steps.path(from) + ts + [t] == steps.path(from) + (ts + [t]);
    } else {
      n' := n;
      assert (ts + [t])[..n] == ts[..n];
    }
  }

  /** How far a walk gets before it stays. */
  lemma {:induction false} FoldTraced<P(!new), T(!new)>(
    steps: Steps<P, T>, inside: P -> bool, known: T -> bool, from: P, ts: seq<T>)
    returns (n: nat)
    requires Leads(steps, inside, known) && inside(from) && AllKnown(ts, known)
    requires steps.live(Fold(steps.step, from, ts))
    ensures Traced(steps, from, ts, Fold(steps.step, from, ts), n)
  {
    if ts == [] {
      n := 0;
      assert steps.path(from) + ts[..0] == steps.path(from);
    } else {
      var last := |ts| - 1;
      FoldInside(steps, inside, known, from, ts[..last]);
      n := FoldTraced(steps, inside, known, from, ts[..last]);
      n := TracedNext(steps, inside, known, from, ts[..last], ts[last], Fold(steps.step, from, ts[..last]), n);
      assert ts[..last] + [ts[last]] == ts;
    }
  }

  /** A path goes on behind its beginning as it began. */
  predicate Repeated<T(==)>(beginning: seq<T>, path: seq<T>) {
    |beginning| <= |path| && path == beginning + path[..|path| - |beginning|]
  }

  /** Steps that lead from the start along the path of each place to that place. */
  ghost predicate Returns<P, T>(steps: Steps<P, T>, start: P, p: P) {
    Fold(steps.step, start, steps.path(p)) == p
  }

  lemma RestLeadsOn<P, T>(steps: Steps<P, T>, start: P, p: P, q: P, rest: seq<T>)
    requires Returns(steps, start, p) && Returns(steps, start, q) && steps.path(q) == steps.path(p) + rest
    ensures Fold(steps.step, p, rest) == q
  {
    FoldBoth(steps.step, start, steps.path(p), rest);
  }

  /** A walk along the path of `q` that starts at `p` ends at `q` exactly if the path repeats
      itself and `q` is a place to stay, or the path of `p` is empty. */
  lemma ReturnsFrom<P(!new), T(!new)>(
    steps: Steps<P, T>, inside: P -> bool, known: T -> bool, start: P, p: P, q: P)
    requires Leads(steps, inside, known) && inside(p) && AllKnown(steps.path(q), known)
    requires Returns(steps, start, p) && Returns(steps, start, q) && inside(q) && steps.live(q)
    requires !steps.moves(q) ==> forall t :: known(t) ==> steps.step(q, t) == q
    ensures Fold(steps.step, p, steps.path(q)) == q
            <==> Repeated(steps.path(p), steps.path(q)) && (steps.path(p) == [] || !steps.moves(q))
  {
    var ts := steps.path(q);
    if Fold(steps.step, p, ts) == q {
      var n := FoldTraced(steps, inside, known, p, ts);
      assert n == |ts| - |steps.path(p)|;
    }
    if Repeated(steps.path(p), steps.path(q)) {
      var n := |ts| - |steps.path(p)|;
      RestLeadsOn(steps, start, p, q, ts[..n]);
      assert ts[..n] + ts[n..] == ts;
      FoldBoth(steps.step, p, ts[..n], ts[n..]);
      if steps.path(p) == [] {
        assert ts[..n] == ts;
      } else if !steps.moves(q) {
        FoldStays(steps, known, q, ts[n..]);
      }
    }
  }
}
