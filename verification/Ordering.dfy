/** Dependency ordering of one surface's objects: `Surface.ordered`.

    A Python dict is read in insertion order, so a collection of objects is a
    sequence of distinct names here. `refs(n)` stands for `references(body)` of the
    object called n. */
module Ordering {

  type References = string -> set<string>

  ghost predicate Distinct<T>(xs: seq<T>) {
    forall i, j :: 0 <= i < j < |xs| ==> xs[i] != xs[j]
  }

  function Names(xs: seq<string>): set<string> {
    set x | x in xs
  }

  /** The members of `keep`, in the order in which `xs` lists them. */
  function Select(xs: seq<string>, keep: set<string>): (r: seq<string>)
    ensures Names(r) == Names(xs) * keep
    ensures |r| <= |xs|
  {
    if xs == [] then []
    else
      var rest := Select(xs[1..], keep);
      assert Names(xs) == {xs[0]} + Names(xs[1..]);
      assert Names([xs[0]] + rest) == {xs[0]} + Names(rest);
      if xs[0] in keep then [xs[0]] + rest else rest
  }

  /** A pending object is held back while it refers to another pending object. */
  predicate HeldBack(refs: References, pending: set<string>, n: string) {
    refs(n) * (pending - {n}) != {}
  }

  function Free(refs: References, pending: set<string>): set<string> {
    set n | n in pending && !HeldBack(refs, pending, n)
  }

  /** The objects one round emits, and those it leaves pending. */
  function Round(refs: References, pending: seq<string>): seq<string> {
    Select(pending, Free(refs, Names(pending)))
  }

  function Rest(refs: References, pending: seq<string>): (rest: seq<string>)
    ensures Names(rest) == Names(pending) - Free(refs, Names(pending))
    ensures Round(refs, pending) != [] ==> |rest| < |pending|
  {
    SelectPartitions(pending, Free(refs, Names(pending)));
    Select(pending, Names(pending) - Free(refs, Names(pending)))
  }

  /** One round emits every free object; a round without a free object emits the rest. */
  function Peel(refs: References, pending: seq<string>): seq<string>
    decreases |pending|
  {
    if Round(refs, pending) == [] then pending
    else Round(refs, pending) + Peel(refs, Rest(refs, pending))
  }

  /** What the rounds never free. */
  function Stuck(refs: References, pending: seq<string>): set<string>
    decreases |pending|
  {
    if Round(refs, pending) == [] then Names(pending)
    else Stuck(refs, Rest(refs, pending))
  }

  method Ordered(names: seq<string>, refs: References) returns (out: seq<string>)
    ensures out == Peel(refs, names)
  {
    var pending := names;
    out := [];
    while pending != []
      invariant out + Peel(refs, pending) == Peel(refs, names)
      decreases |pending|
    {
      var free := Round(refs, pending);
      if free == [] {
        out := out + pending;
        return;
      }
      var rest := Rest(refs, pending);
      assert out + (free + Peel(refs, rest)) == out + free + Peel(refs, rest);
      out, pending := out + free, rest;
    }
  }

  // ---- Select ----------------------------------------------------------------

  lemma SelectPartitions(xs: seq<string>, keep: set<string>)
    ensures multiset(Select(xs, keep)) + multiset(Select(xs, Names(xs) - keep)) == multiset(xs)
    ensures |Select(xs, keep)| + |Select(xs, Names(xs) - keep)| == |xs|
  {
    SelectSplits(xs, keep, Names(xs) - keep);
  }

  lemma SelectSplits(xs: seq<string>, a: set<string>, b: set<string>)
    requires a * b == {} && Names(xs) <= a + b
    ensures multiset(Select(xs, a)) + multiset(Select(xs, b)) == multiset(xs)
    ensures |Select(xs, a)| + |Select(xs, b)| == |xs|
  {
    if xs != [] {
      var x, rest := xs[0], xs[1..];
      assert xs == [x] + rest;
      assert x in Names(xs);
      assert Names(rest) <= Names(xs);
      SelectSplits(rest, a, b);
      assert multiset(xs) == multiset{x} + multiset(rest);
      if x in a {
        assert x !in a * b;
        assert multiset(Select(xs, a)) == multiset{x} + multiset(Select(rest, a));
      } else {
        assert multiset(Select(xs, b)) == multiset{x} + multiset(Select(rest, b));
      }
    }
  }

  lemma SelectAll(xs: seq<string>, keep: set<string>)
    requires Names(xs) <= keep
    ensures Select(xs, keep) == xs
  {
  }

  lemma SelectTwice(xs: seq<string>, a: set<string>, b: set<string>)
    ensures Select(Select(xs, a), b) == Select(xs, a * b)
  {
  }

  lemma SelectSame(xs: seq<string>, a: set<string>, b: set<string>)
    requires Names(xs) * a == Names(xs) * b
    ensures Select(xs, a) == Select(xs, b)
  {
    if xs != [] {
      assert xs[0] in Names(xs);
      assert Names(xs[1..]) <= Names(xs);
      assert Names(xs[1..]) * a == Names(xs[1..]) * (Names(xs) * a);
      assert Names(xs[1..]) * b == Names(xs[1..]) * (Names(xs) * b);
      SelectSame(xs[1..], a, b);
      assert xs[0] in a <==> xs[0] in Names(xs) * a;
      assert xs[0] in b <==> xs[0] in Names(xs) * b;
    }
  }

  lemma SelectDistinct(xs: seq<string>, keep: set<string>)
    requires Distinct(xs)
    ensures Distinct(Select(xs, keep))
  {
    if xs != [] {
      SelectDistinct(xs[1..], keep);
      var r := Select(xs[1..], keep);
      assert xs[0] !in Names(xs[1..]);
      assert forall k | 0 <= k < |r| :: r[k] in Names(r);
    }
  }

  // ---- What the ordering guarantees -----------------------------------------

  lemma {:induction false} OrderedPermutes(refs: References, names: seq<string>)
    ensures multiset(Peel(refs, names)) == multiset(names)
    ensures Names(Peel(refs, names)) == Names(names)
    decreases |names|
  {
    if Round(refs, names) != [] {
      SelectPartitions(names, Free(refs, Names(names)));
      OrderedPermutes(refs, Rest(refs, names));
    }
    assert forall x :: x in Peel(refs, names) <==> x in multiset(Peel(refs, names));
    assert forall x :: x in names <==> x in multiset(names);
  }

  /** Every member refers to another member, so no order can serve the set. */
  ghost predicate Knotted(refs: References, s: set<string>) {
    forall n | n in s :: HeldBack(refs, s, n)
  }

  lemma NothingFreeMeansKnotted(refs: References, names: seq<string>)
    requires Round(refs, names) == []
    ensures Knotted(refs, Names(names))
  {
    var free := Free(refs, Names(names));
    assert free == Names(names) * free == {};
    forall n | n in Names(names) ensures HeldBack(refs, Names(names), n) {
      assert n !in free;
    }
  }

  lemma KnotSurvivesRound(refs: References, names: seq<string>, k: set<string>)
    requires k <= Names(names) && Knotted(refs, k)
    ensures k <= Names(Rest(refs, names))
  {
  }

  /** The stuck names are the greatest knotted set. */
  lemma {:induction false} StuckIsGreatestKnot(refs: References, names: seq<string>)
    ensures Stuck(refs, names) <= Names(names)
    ensures Knotted(refs, Stuck(refs, names))
    ensures forall k | k <= Names(names) && Knotted(refs, k) :: k <= Stuck(refs, names)
    decreases |names|
  {
    if Round(refs, names) == [] {
      NothingFreeMeansKnotted(refs, names);
    } else {
      StuckIsGreatestKnot(refs, Rest(refs, names));
      forall k | k <= Names(names) && Knotted(refs, k) ensures k <= Stuck(refs, names) {
        KnotSurvivesRound(refs, names, k);
      }
    }
  }

  lemma FreeRefersNowhere(refs: References, pending: set<string>)
    ensures forall n, r | n in Free(refs, pending) && r in refs(n) && r in pending :: r == n
  {
    forall n, r | n in Free(refs, pending) && r in refs(n) && r in pending ensures r == n {
      assert r in refs(n) * (pending - {n}) || r == n;
    }
  }

  /** Whatever a name that is not stuck refers to comes before it. */
  ghost predicate RefersBackwards(refs: References, out: seq<string>, stuck: set<string>) {
    forall i, j | 0 <= i < |out| && 0 <= j < |out| && out[i] !in stuck
                  && out[j] in refs(out[i]) && out[j] != out[i] :: j < i
  }

  lemma RoundThenRest(refs: References, names: set<string>, first: seq<string>, tail: seq<string>, stuck: set<string>)
    requires Names(first) <= Free(refs, names) && Names(tail) <= names
    requires RefersBackwards(refs, tail, stuck)
    ensures RefersBackwards(refs, first + tail, stuck)
  {
    FreeRefersNowhere(refs, names);
    assert forall i | 0 <= i < |first| :: first[i] in Names(first);
    assert forall j | 0 <= j < |tail| :: tail[j] in Names(tail);
    var out := first + tail;
    forall i, j | 0 <= i < |out| && 0 <= j < |out| && out[i] !in stuck
                  && out[j] in refs(out[i]) && out[j] != out[i]
      ensures j < i
    {
      if i >= |first| && j >= |first| {
        assert out[i] == tail[i - |first|] && out[j] == tail[j - |first|];
      }
    }
  }

  lemma {:induction false} FreePrefixRefersBackwards(refs: References, names: seq<string>)
    ensures RefersBackwards(refs, Peel(refs, names), Stuck(refs, names))
    decreases |names|
  {
    if Round(refs, names) == [] {
      assert forall i | 0 <= i < |names| :: names[i] in Names(names);
    } else {
      var rest := Rest(refs, names);
      FreePrefixRefersBackwards(refs, rest);
      OrderedPermutes(refs, rest);
      RoundThenRest(refs, Names(names), Round(refs, names), Peel(refs, rest), Stuck(refs, rest));
    }
  }

  /** `tail` is how `xs` ends. */
  ghost predicate EndsWith<T>(xs: seq<T>, tail: seq<T>) {
    |tail| <= |xs| && xs[|xs| - |tail|..] == tail
  }

  /** The stuck names end the result, in their original order. */
  lemma {:induction false} StuckTailKeepsItsOrder(refs: References, names: seq<string>)
    ensures EndsWith(Peel(refs, names), Select(names, Stuck(refs, names)))
    decreases |names|
  {
    if Round(refs, names) == [] {
      SelectAll(names, Names(names));
    } else {
      var rest := Rest(refs, names);
      StuckTailKeepsItsOrder(refs, rest);
      var stuck := Stuck(refs, rest);
      assert stuck <= Names(rest) by { StuckIsGreatestKnot(refs, rest); }
      assert Select(rest, stuck) == Select(names, stuck) by {
        SelectTwice(names, Names(names) - Free(refs, Names(names)), stuck);
        SelectSame(names, (Names(names) - Free(refs, Names(names))) * stuck, stuck);
      }
      EndOfJoin(Round(refs, names), Peel(refs, rest), Select(rest, stuck));
    }
  }

  lemma EndOfJoin<T>(first: seq<T>, xs: seq<T>, tail: seq<T>)
    requires EndsWith(xs, tail)
    ensures EndsWith(first + xs, tail)
  {
  }

  // ---- Stuck means cyclic ------------------------------------------------------

  /** A cycle of references between different objects of the surface. */
  ghost predicate IsCycle(refs: References, names: set<string>, p: seq<string>) {
    && |p| >= 2 && p[0] == p[|p| - 1]
    && Walks(refs, names, p)
  }

  ghost predicate Walks(refs: References, names: set<string>, p: seq<string>) {
    && (forall i :: 0 <= i < |p| ==> p[i] in names)
    && (forall i :: 0 <= i < |p| - 1 ==> p[i + 1] in refs(p[i]) && p[i + 1] != p[i])
  }

  ghost predicate Acyclic(refs: References, names: set<string>) {
    !exists p :: IsCycle(refs, names, p)
  }

  lemma {:induction false} WalkInKnot(refs: References, knot: set<string>, start: string, n: nat)
    returns (p: seq<string>)
    requires Knotted(refs, knot) && start in knot
    ensures |p| == n + 1 && Walks(refs, knot, p)
  {
    if n == 0 {
      p := [start];
    } else {
      var q := WalkInKnot(refs, knot, start, n - 1);
      assert HeldBack(refs, knot, q[n - 1]);
      var next :| next in refs(q[n - 1]) * (knot - {q[n - 1]});
      p := q + [next];
    }
  }

  lemma {:induction false} DistinctFits(p: seq<string>, s: set<string>)
    requires Distinct(p) && forall i :: 0 <= i < |p| ==> p[i] in s
    ensures |p| <= |s|
  {
    if p != [] {
      var last := p[|p| - 1];
      DistinctFits(p[..|p| - 1], s - {last});
    }
  }

  lemma LoopIsCycle(refs: References, names: set<string>, walk: seq<string>, i: nat, j: nat)
    requires Walks(refs, names, walk) && i < j < |walk| && walk[i] == walk[j]
    ensures IsCycle(refs, names, walk[i..j + 1])
  {
  }

  lemma KnotHasCycle(refs: References, knot: set<string>, start: string) returns (p: seq<string>)
    requires Knotted(refs, knot) && start in knot
    ensures IsCycle(refs, knot, p)
  {
    var walk := WalkInKnot(refs, knot, start, |knot|);
    if Distinct(walk) {
      DistinctFits(walk, knot);
      assert false;
    }
    var i, j :| 0 <= i < j < |walk| && walk[i] == walk[j];
    LoopIsCycle(refs, knot, walk, i, j);
    p := walk[i..j + 1];
  }

  lemma CycleIsKnotted(refs: References, names: set<string>, p: seq<string>)
    requires IsCycle(refs, names, p)
    ensures Names(p) <= names && p[0] in Names(p) && Knotted(refs, Names(p))
  {
    forall n | n in Names(p) ensures HeldBack(refs, Names(p), n) {
      var i :| 0 <= i < |p| && p[i] == n;
      var at := if i == |p| - 1 then 0 else i;
      assert p[at + 1] in refs(n) * (Names(p) - {n});
    }
  }

  /** Nothing is stuck exactly when no references form a cycle. */
  lemma StuckExactlyWhenCyclic(refs: References, names: seq<string>)
    ensures Stuck(refs, names) == {} <==> Acyclic(refs, Names(names))
  {
    var stuck := Stuck(refs, names);
    StuckIsGreatestKnot(refs, names);
    if stuck != {} {
      var start :| start in stuck;
      var p := KnotHasCycle(refs, stuck, start);
      assert IsCycle(refs, Names(names), p);
    }
    if p :| IsCycle(refs, Names(names), p) {
      CycleIsKnotted(refs, Names(names), p);
      assert Names(p) <= stuck;
    }
  }

  lemma ServedExactlyWhenNothingStuck(refs: References, names: seq<string>)
    ensures RefersBackwards(refs, Peel(refs, names), {}) <==> Stuck(refs, names) == {}
  {
    var out, stuck := Peel(refs, names), Stuck(refs, names);
    assert Names(out) == Names(names) by { OrderedPermutes(refs, names); }
    assert stuck <= Names(names) && Knotted(refs, stuck) by { StuckIsGreatestKnot(refs, names); }
    if stuck == {} {
      FreePrefixRefersBackwards(refs, names);
    } else if RefersBackwards(refs, out, {}) {
      ServedOrderHasNoKnot(refs, out, stuck);
    }
  }

  lemma ServedOrderHasNoKnot(refs: References, out: seq<string>, knot: set<string>)
    requires RefersBackwards(refs, out, {})
    requires knot <= Names(out) && Knotted(refs, knot)
    ensures knot == {}
  {
    if n :| n in knot {
      var m :| 0 <= m < |out| && out[m] == n;
      NoKnotInServedOrder(refs, out, knot, m);
    }
  }

  /** The order serves every reference exactly when no references form a cycle. */
  lemma AcyclicExactlyWhenServed(refs: References, names: seq<string>)
    ensures RefersBackwards(refs, Peel(refs, names), {}) <==> Acyclic(refs, Names(names))
  {
    ServedExactlyWhenNothingStuck(refs, names);
    StuckExactlyWhenCyclic(refs, names);
  }

  /** Every member of a knot would need an earlier member before it. */
  lemma {:induction false} NoKnotInServedOrder(refs: References, out: seq<string>, knot: set<string>, m: nat)
    requires RefersBackwards(refs, out, {})
    requires knot <= Names(out) && Knotted(refs, knot)
    requires m < |out| && out[m] in knot
    ensures false
  {
    assert HeldBack(refs, knot, out[m]);
    var r :| r in refs(out[m]) * (knot - {out[m]});
    var j :| 0 <= j < |out| && out[j] == r;
    NoKnotInServedOrder(refs, out, knot, j);
  }
}
