/** A loop that judges its first element by one test and the others by another, and when the
    order of the elements does not matter to it. */
module FieldOrder {
  import opened Counting

  /** How the loop judges: its first element by `first`, every later one by `later`. */
  datatype Tests<!T> = Tests(first: T -> bool, later: T -> bool) {
    function First(): T -> nat {
      (t: T) => if first(t) then 1 else 0
    }

    function Later(): T -> nat {
      (t: T) => if later(t) then 1 else 0
    }

    function Both(): T -> nat {
      (t: T) => if first(t) && later(t) then 1 else 0
    }
  }

  /** Some element that comes later in the loop fails. */
  predicate LaterFails<T>(tests: Tests<T>, s: seq<T>) {
    s != [] && (tests.later(s[0]) || LaterFails(tests, s[1..]))
  }

  predicate LoopFails<T>(tests: Tests<T>, s: seq<T>) {
    s != [] && (tests.first(s[0]) || LaterFails(tests, s[1..]))
  }

  // ----- Counting the failing elements -----

  function Firsts<T>(tests: Tests<T>, s: seq<T>): nat {
    SumBy(s, tests.First())
  }

  function Laters<T>(tests: Tests<T>, s: seq<T>): nat {
    SumBy(s, tests.Later())
  }

  /** Those that fail wherever they stand. */
  function Boths<T>(tests: Tests<T>, s: seq<T>): nat {
    SumBy(s, tests.Both())
  }

  lemma {:induction false} LaterFailsCounted<T>(tests: Tests<T>, s: seq<T>)
    ensures LaterFails(tests, s) <==> Laters(tests, s) > 0
  {
    if s == [] {
    } else {
      LaterFailsCounted(tests, s[1..]);
      SumByWithout(s, 0, tests.Later());
      assert Without(s, 0) == s[1..];
    }
  }

  lemma LoopFailsCounted<T>(tests: Tests<T>, s: seq<T>)
    requires s != []
    ensures LoopFails(tests, s) <==> tests.first(s[0]) || Laters(tests, s) > tests.Later()(s[0])
  {
    LaterFailsCounted(tests, s[1..]);
    SumByWithout(s, 0, tests.Later());
    assert Without(s, 0) == s[1..];
  }

  lemma BothsBelow<T(!new)>(tests: Tests<T>, s: seq<T>)
    ensures Boths(tests, s) <= Firsts(tests, s) && Boths(tests, s) <= Laters(tests, s)
  {
    SumByAtMost(s, tests.Both(), tests.First());
    SumByAtMost(s, tests.Both(), tests.Later());
  }

  lemma {:induction false} AtMostAll<T>(s: seq<T>, f: T -> nat)
    requires forall t :: t in s ==> f(t) <= 1
    ensures SumBy(s, f) <= |s|
  {
    if s == [] {
    } else {
      AtMostAll(s[..|s| - 1], f);
    }
  }

  lemma {:induction false} SomeCounted<T>(s: seq<T>, f: T -> nat) returns (i: nat)
    requires SumBy(s, f) > 0
    ensures i < |s| && f(s[i]) > 0
  {
    if f(s[|s| - 1]) > 0 {
      i := |s| - 1;
    } else {
      i := SomeCounted(s[..|s| - 1], f);
    }
  }

  lemma {:induction false} SomeUncounted<T>(s: seq<T>, f: T -> nat) returns (i: nat)
    requires SumBy(s, f) < |s|
    ensures i < |s| && f(s[i]) == 0
  {
    if f(s[|s| - 1]) == 0 {
      i := |s| - 1;
    } else {
      i := SomeUncounted(s[..|s| - 1], f);
    }
  }

  /** What a loop that lets everything pass says about the counts. */
  lemma PassedCounts<T(!new)>(tests: Tests<T>, s: seq<T>)
    requires !LoopFails(tests, s)
    ensures Laters(tests, s) <= 1 && Boths(tests, s) == 0
    ensures s != [] ==> Firsts(tests, s) < |s|
  {
    if s == [] {
    } else {
      var rest := Without(s, 0);
      LoopFailsCounted(tests, s);
      SumByWithout(s, 0, tests.Later());
      SumByWithout(s, 0, tests.Both());
      SumByWithout(s, 0, tests.First());
      BothsBelow(tests, rest);
      AtMostAll(rest, tests.First());
    }
  }

  lemma FailedCounts<T>(tests: Tests<T>, s: seq<T>)
    requires LoopFails(tests, s)
    ensures Laters(tests, s) > 0 || Firsts(tests, s) > 0
  {
    LoopFailsCounted(tests, s);
    SumByWithout(s, 0, tests.First());
  }

  // ----- Every order -----

  /** At least two fail later; or one does, and it is alone or fails first as well; or none
      does, and all or none fail first. */
  predicate Settled<T>(tests: Tests<T>, s: seq<T>) {
    || Laters(tests, s) >= 2
    || (Laters(tests, s) == 1 && (|s| == 1 || Boths(tests, s) == 1))
    || (Laters(tests, s) == 0 && (Firsts(tests, s) == 0 || Firsts(tests, s) == |s|))
  }

  /** What a settled loop comes to. */
  predicate Verdict<T>(tests: Tests<T>, s: seq<T>) {
    || Laters(tests, s) >= 2
    || (Laters(tests, s) == 1 && Firsts(tests, s) >= 1)
    || (Laters(tests, s) == 0 && s != [] && Firsts(tests, s) == |s|)
  }

  ghost predicate OrderFree<T(!new)>(tests: Tests<T>, s: seq<T>) {
    forall r :: multiset(r) == multiset(s) ==> LoopFails(tests, r) == LoopFails(tests, s)
  }

  lemma SingleFails<T>(tests: Tests<T>, s: seq<T>)
    requires |s| == 1
    ensures LoopFails(tests, s) <==> Firsts(tests, s) == 1
  {
    LoopFailsCounted(tests, s);
    SumByWithout(s, 0, tests.Later());
    SumByWithout(s, 0, tests.First());
    assert Without(s, 0) == [];
  }

  lemma SettledVerdict<T(!new)>(tests: Tests<T>, s: seq<T>)
    requires Settled(tests, s)
    ensures LoopFails(tests, s) <==> Verdict(tests, s)
  {
    BothsBelow(tests, s);
    if |s| == 1 {
      SingleFails(tests, s);
    }
    if LoopFails(tests, s) {
      FailedCounts(tests, s);
    } else {
      PassedCounts(tests, s);
    }
  }

  lemma SameCounts<T>(tests: Tests<T>, s: seq<T>, r: seq<T>)
    requires multiset(r) == multiset(s)
    ensures Firsts(tests, r) == Firsts(tests, s) && Laters(tests, r) == Laters(tests, s)
    ensures Boths(tests, r) == Boths(tests, s) && |r| == |s|
  {
    SumByReordered(r, s, tests.First());
    SumByReordered(r, s, tests.Later());
    SumByReordered(r, s, tests.Both());
    assert |multiset(r)| == |r| && |multiset(s)| == |s|;
  }

  /** With the i-th element moved to the front. */
  lemma FrontFails<T>(tests: Tests<T>, s: seq<T>, i: nat) returns (r: seq<T>)
    requires i < |s|
    ensures multiset(r) == multiset(s)
    ensures LoopFails(tests, r) <==> tests.first(s[i]) || Laters(tests, s) > tests.Later()(s[i])
  {
    r := [s[i]] + Without(s, i);
    FrontMoved(s, i);
    SameCounts(tests, s, r);
    LoopFailsCounted(tests, r);
  }

  lemma Differ<T>(tests: Tests<T>, s: seq<T>, i: nat, j: nat)
    returns (passes: seq<T>, fails: seq<T>)
    requires i < |s| && !tests.first(s[i]) && Laters(tests, s) <= tests.Later()(s[i])
    requires j < |s| && (tests.first(s[j]) || Laters(tests, s) > tests.Later()(s[j]))
    ensures multiset(passes) == multiset(s) && !LoopFails(tests, passes)
    ensures multiset(fails) == multiset(s) && LoopFails(tests, fails)
  {
    passes := FrontFails(tests, s, i);
    fails := FrontFails(tests, s, j);
  }

  /** Two orders that come to different ends. */
  lemma OrderMatters<T>(tests: Tests<T>, s: seq<T>) returns (passes: seq<T>, fails: seq<T>)
    requires !Settled(tests, s)
    ensures multiset(passes) == multiset(s) && !LoopFails(tests, passes)
    ensures multiset(fails) == multiset(s) && LoopFails(tests, fails)
  {
    if Laters(tests, s) == 1 {
      var i := SomeCounted(s, tests.Later());
      SumByWithout(s, i, tests.Later());
      SumByWithout(s, i, tests.Both());
      var j := if i == 0 then 1 else 0;
      OnlyOneLater(tests, s, i, j);
      OnlyBoth(tests, s, i);
      passes, fails := Differ(tests, s, i, j);
    } else {
      AtMostAll(s, tests.First());
      var i := SomeUncounted(s, tests.First());
      var j := SomeCounted(s, tests.First());
      passes, fails := Differ(tests, s, i, j);
    }
  }

  lemma OnlyOneLater<T>(tests: Tests<T>, s: seq<T>, i: nat, j: nat)
    requires i < |s| && j < |s| && i != j && tests.later(s[i]) && Laters(tests, s) == 1
    ensures !tests.later(s[j])
  {
    var rest := Without(s, i);
    SumByWithout(s, i, tests.Later());
    var k := if j < i then j else j - 1;
    assert rest[k] == s[j];
    SumByWithout(rest, k, tests.Later());
  }

  lemma OnlyBoth<T>(tests: Tests<T>, s: seq<T>, i: nat)
    requires i < |s| && tests.later(s[i]) && Laters(tests, s) == 1 && Boths(tests, s) != 1
    ensures !tests.first(s[i])
  {
    SumByWithout(s, i, tests.Later());
    SumByWithout(s, i, tests.Both());
    NoBothWithoutLater(tests, Without(s, i));
  }

  lemma {:induction false} NoBothWithoutLater<T>(tests: Tests<T>, s: seq<T>)
    requires Laters(tests, s) == 0
    ensures Boths(tests, s) == 0
  {
    if s == [] {
    } else {
      NoBothWithoutLater(tests, s[..|s| - 1]);
    }
  }

  /** The order does not matter if and only if the counts settle it. */
  lemma OrderFreeIff<T(!new)>(tests: Tests<T>, s: seq<T>)
    ensures OrderFree(tests, s) <==> Settled(tests, s)
  {
    if Settled(tests, s) {
      forall r | multiset(r) == multiset(s) ensures LoopFails(tests, r) == LoopFails(tests, s) {
        SameCounts(tests, s, r);
        assert (r == []) == (s == []);
        SettledVerdict(tests, s);
        SettledVerdict(tests, r);
      }
    } else {
      var passes, fails := OrderMatters(tests, s);
      assert LoopFails(tests, passes) != LoopFails(tests, fails);
    }
  }

  // ----- Every division into two loops -----

  ghost predicate Divides<T>(a: seq<T>, b: seq<T>, all: seq<T>) {
    multiset(a) + multiset(b) == multiset(all)
  }

  predicate EitherFails<T>(tests: Tests<T>, a: seq<T>, b: seq<T>) {
    LoopFails(tests, a) || LoopFails(tests, b)
  }

  ghost predicate DivisionFree<T(!new)>(tests: Tests<T>, all: seq<T>) {
    forall a, b :: Divides(a, b, all) ==> EitherFails(tests, a, b) == LoopFails(tests, all)
  }

  /** As there can be two first elements, two that fail later settle it only if one of them
      fails first as well. */
  predicate SettledDivided<T>(tests: Tests<T>, s: seq<T>) {
    Settled(tests, s) && (Laters(tests, s) == 2 ==> Boths(tests, s) >= 1)
  }

  lemma DividedCounts<T>(tests: Tests<T>, a: seq<T>, b: seq<T>, all: seq<T>)
    requires Divides(a, b, all)
    ensures Firsts(tests, a) + Firsts(tests, b) == Firsts(tests, all)
    ensures Laters(tests, a) + Laters(tests, b) == Laters(tests, all)
    ensures Boths(tests, a) + Boths(tests, b) == Boths(tests, all)
    ensures |a| + |b| == |all|
  {
    SumByDivided(a, b, all, tests.First());
    SumByDivided(a, b, all, tests.Later());
    SumByDivided(a, b, all, tests.Both());
    assert |multiset(a)| == |a| && |multiset(b)| == |b| && |multiset(all)| == |all|;
  }

  lemma DividedPassed<T(!new)>(tests: Tests<T>, a: seq<T>, b: seq<T>, all: seq<T>)
    requires Divides(a, b, all) && !EitherFails(tests, a, b) && SettledDivided(tests, all)
    ensures !Verdict(tests, all)
  {
    DividedCounts(tests, a, b, all);
    PassedCounts(tests, a);
    PassedCounts(tests, b);
    AtMostAll(a, tests.First());
    AtMostAll(b, tests.First());
    if |all| == 1 {
      if |a| == 1 {
        SingleFails(tests, a);
      } else {
        SingleFails(tests, b);
      }
    }
  }

  lemma DividedFailed<T(!new)>(tests: Tests<T>, a: seq<T>, b: seq<T>, all: seq<T>)
    requires Divides(a, b, all) && EitherFails(tests, a, b) && SettledDivided(tests, all)
    ensures Verdict(tests, all)
  {
    DividedCounts(tests, a, b, all);
    BothsBelow(tests, all);
    if LoopFails(tests, a) {
      FailedCounts(tests, a);
    } else {
      FailedCounts(tests, b);
    }
    if |all| == 1 {
      if |a| == 1 {
        SingleFails(tests, a);
      } else {
        SingleFails(tests, b);
      }
    }
  }

  /** Two elements that fail later but not first, each at the front of its loop. */
  lemma BothLead<T(!new)>(tests: Tests<T>, s: seq<T>) returns (a: seq<T>, b: seq<T>)
    requires Laters(tests, s) == 2 && Boths(tests, s) == 0
    ensures Divides(a, b, s) && !EitherFails(tests, a, b)
  {
    var i := SomeCounted(s, tests.Later());
    var rest := Without(s, i);
    SumByWithout(s, i, tests.Later());
    SumByWithout(s, i, tests.Both());
    var j := SomeCounted(rest, tests.Later());
    SumByWithout(rest, j, tests.Later());
    SumByWithout(rest, j, tests.Both());
    a, b := [s[i]], [rest[j]] + Without(rest, j);
    FrontMoved(rest, j);
    FrontMoved(s, i);
    assert multiset([s[i]] + rest) == multiset([s[i]]) + multiset(rest);
    LoopFailsCounted(tests, a);
    SumByWithout(a, 0, tests.Later());
    assert Without(a, 0) == [];
    SameCounts(tests, rest, b);
    LoopFailsCounted(tests, b);
  }

  lemma DivisionMatters<T(!new)>(tests: Tests<T>, s: seq<T>)
    requires !SettledDivided(tests, s)
    ensures !DivisionFree(tests, s)
  {
    if Settled(tests, s) {
      var a, b := BothLead(tests, s);
      SettledVerdict(tests, s);
    } else {
      var passes, fails := OrderMatters(tests, s);
      assert Divides(passes, [], s) && Divides(fails, [], s);
      assert EitherFails(tests, passes, []) != EitherFails(tests, fails, []);
    }
  }

  /** Neither the order nor the division matters if and only if the counts settle both. */
  lemma DivisionFreeIff<T(!new)>(tests: Tests<T>, s: seq<T>)
    ensures DivisionFree(tests, s) <==> SettledDivided(tests, s)
  {
    if SettledDivided(tests, s) {
      SettledVerdict(tests, s);
      forall a, b | Divides(a, b, s) ensures EitherFails(tests, a, b) == LoopFails(tests, s) {
        if EitherFails(tests, a, b) {
          DividedFailed(tests, a, b, s);
        } else {
          DividedPassed(tests, a, b, s);
        }
      }
    } else {
      DivisionMatters(tests, s);
    }
  }
}
