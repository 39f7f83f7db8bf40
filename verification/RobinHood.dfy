/** The bucket array of the encoder's hash index (src/hpack/table.rs): probing,
    displacement order, insertion with forward shift, removal with backward shift.

    A bucket's displacement is its distance from the bucket its hash asks for; an
    empty bucket counts as -1.  The whole Robin-Hood discipline (no hole between a
    desired and an actual bucket, no entry displaced less than an earlier prober
    would be) is the one-step condition Ordered. */
module RobinHood {
  import opened Prelude

  /** index is relative: the slot's position in the deque minus the number of
      insertions made so far.  It never changes while the slot is alive. */
  datatype Pos = Pos(index: int, hash: nat)

  type Buckets = seq<Option<Pos>>

  /** The capacity is a power of two, so `hash & mask` is the remainder. */
  function DesiredPos(c: nat, hash: nat): (d: nat)
    requires c > 0
    ensures d < c
  {
    hash % c
  }

  function ProbeDistance(c: nat, hash: nat, current: nat): (d: nat)
    requires current < c
    ensures d < c
  {
    var p := DesiredPos(c, hash);
    if p <= current then current - p else current + c - p
  }

  function Next(c: nat, b: nat): (r: nat)
    requires b < c
    ensures r < c
  {
    if b + 1 < c then b + 1 else 0
  }

  function Prev(c: nat, b: nat): (r: nat)
    requires b < c
    ensures r < c && Next(c, r) == b
  {
    if b == 0 then c - 1 else b - 1
  }

  /** The bucket k steps after b. */
  function Ahead(c: nat, b: nat, k: nat): (r: nat)
    requires b < c && k <= c
    ensures r < c
  {
    if b + k < c then b + k else b + k - c
  }

  /** How many steps lead from b forward to e. */
  function Steps(c: nat, b: nat, e: nat): (k: nat)
    requires b < c && e < c
    ensures k < c && Ahead(c, b, k) == e
  {
    if b <= e then e - b else e + c - b
  }

  lemma AheadStep(c: nat, b: nat, k: nat)
    requires b < c && k < c
    ensures Next(c, Ahead(c, b, k)) == Ahead(c, b, k + 1)
    ensures Prev(c, Ahead(c, b, k + 1)) == Ahead(c, b, k)
  {
  }

  function Displacement(a: Buckets, b: nat): (d: int)
    requires b < |a|
    ensures -1 <= d < |a|
    ensures d == -1 <==> a[b].None?
  {
    if a[b].None? then -1 else ProbeDistance(|a|, a[b].value.hash, b)
  }

  ghost predicate Ordered(a: Buckets) {
    forall b {:trigger Next(|a|, b)} :: 0 <= b < |a| ==>
      Displacement(a, Next(|a|, b)) <= Displacement(a, b) + 1
  }

  /** Displacement grows by at most one a step, over any number of steps. */
  lemma {:induction false} Slope(a: Buckets, b: nat, k: nat)
    requires Ordered(a) && b < |a| && k <= |a|
    ensures Displacement(a, Ahead(|a|, b, k)) <= Displacement(a, b) + k
    decreases k
  {
    if k > 0 {
      Slope(a, b, k - 1);
      assert Next(|a|, Ahead(|a|, b, k - 1)) == Ahead(|a|, b, k);
    }
  }

  /** No entry can be displaced across an empty bucket. */
  lemma EmptyBound(a: Buckets, e: nat, b: nat)
    requires Ordered(a) && e < |a| && b < |a| && a[e].None?
    ensures Displacement(a, b) < Steps(|a|, e, b) || a[b].None?
  {
    Slope(a, e, Steps(|a|, e, b));
  }

  /** Every bucket from the desired one to the actual one is occupied by an entry at
      least as displaced as a prober for this entry would be: a probe reaches it. */
  lemma Reachable(a: Buckets, b: nat, k: nat)
    requires Ordered(a) && b < |a| && a[b].Some? && k <= Displacement(a, b)
    ensures Displacement(a, Ahead(|a|, DesiredPos(|a|, a[b].value.hash), k)) >= k
  {
    var d := DesiredPos(|a|, a[b].value.hash);
    var from := Ahead(|a|, d, k);
    assert Ahead(|a|, from, Displacement(a, b) - k) == b;
    Slope(a, from, Displacement(a, b) - k);
  }

  lemma DistanceStep(c: nat, hash: nat, b: nat)
    requires b < c && ProbeDistance(c, hash, b) + 1 < c
    ensures ProbeDistance(c, hash, Next(c, b)) == ProbeDistance(c, hash, b) + 1
  {
  }

  /** Writing a more displaced entry into a bucket keeps the order. */
  lemma RaiseKeepsOrder(a: Buckets, q: nat, x: Pos)
    requires |a| >= 2 && Ordered(a) && q < |a|
    requires Displacement(a, q) <= ProbeDistance(|a|, x.hash, q) <= Displacement(a, Prev(|a|, q)) + 1
    ensures Ordered(a[q := Some(x)])
  {
    var w := a[q := Some(x)];
    forall b | 0 <= b < |w|
      ensures Displacement(w, Next(|w|, b)) <= Displacement(w, b) + 1
    {
      assert Displacement(a, Next(|a|, b)) <= Displacement(a, b) + 1;
      assert Next(|a|, b) != b;
      assert Next(|a|, b) == q ==> b == Prev(|a|, q);
    }
  }

  /** Copying a displaced entry one bucket back keeps the order. */
  lemma LowerKeepsOrder(a: Buckets, q: nat)
    requires |a| >= 2 && Ordered(a) && q < |a|
    requires Displacement(a, Next(|a|, q)) > 0
    ensures Ordered(a[q := a[Next(|a|, q)]])
    ensures Displacement(a[q := a[Next(|a|, q)]], q) == Displacement(a, Next(|a|, q)) - 1 <= Displacement(a, q)
  {
    var x := a[Next(|a|, q)];
    var w := a[q := x];
    assert ProbeDistance(|a|, x.value.hash, q) == Displacement(a, Next(|a|, q)) - 1;
    forall b | 0 <= b < |w|
      ensures Displacement(w, Next(|w|, b)) <= Displacement(w, b) + 1
    {
      assert Displacement(a, Next(|a|, b)) <= Displacement(a, b) + 1;
      assert Next(|a|, b) != b;
    }
  }

  /** Emptying a bucket is safe when nothing behind it was displaced. */
  lemma ClearKeepsOrder(a: Buckets, q: nat)
    requires |a| >= 2 && Ordered(a) && q < |a|
    requires Displacement(a, Next(|a|, q)) <= 0
    ensures Ordered(a[q := None])
  {
    var w := a[q := None];
    forall b | 0 <= b < |w|
      ensures Displacement(w, Next(|w|, b)) <= Displacement(w, b) + 1
    {
      assert Displacement(a, Next(|a|, b)) <= Displacement(a, b) + 1;
      assert Next(|a|, b) != b;
    }
  }

  // ----- shifting back over a removed entry -----------------------------------

  /** No bucket of a is displaced more than the same bucket of was. */
  ghost predicate NoHigher(a: Buckets, was: Buckets) {
    && |a| == |was|
    && forall b :: 0 <= b < |a| ==> Displacement(a, b) <= Displacement(was, b)
  }

  lemma NoHigherTransitive(a: Buckets, b: Buckets, c: Buckets)
    requires NoHigher(a, b) && NoHigher(b, c)
    ensures NoHigher(a, c)
  {
    forall i | 0 <= i < |a|
      ensures Displacement(a, i) <= Displacement(c, i)
    {
      assert Displacement(a, i) <= Displacement(b, i);
    }
  }

  /** a has a hole where phantom was taken from; with phantom still there it would be
      ordered and no bucket higher than in was. */
  ghost predicate Hole(a: Buckets, hole: nat, phantom: Pos, was: Buckets) {
    && |a| >= 2 && hole < |a|
    && a[hole].None?
    && Ordered(a[hole := Some(phantom)])
    && NoHigher(a[hole := Some(phantom)], was)
  }

  lemma SwapKeepsEntries(a: Buckets, i: nat, j: nat)
    requires i < |a| && j < |a| && i != j && a[i].None?
    ensures multiset(a[i := a[j]][j := None]) == multiset(a)
  {
    var x := a[j];
    var w := a[i := x];
    assert multiset(w) == multiset(a) - multiset{None} + multiset{x};
    assert a[i] in multiset(a);
    assert multiset(w[j := None]) == multiset(w) - multiset{x} + multiset{None};
  }

  /** The next entry, being displaced, moves into the hole and leaves one behind. */
  lemma HoleMoves(a: Buckets, hole: nat, phantom: Pos, was: Buckets)
    requires Hole(a, hole, phantom, was)
    requires Displacement(a, Next(|a|, hole)) > 0
    ensures var next := Next(|a|, hole);
            Hole(a[hole := a[next]][next := None], next, a[next].value, was)
    ensures multiset(a[hole := a[Next(|a|, hole)]][Next(|a|, hole) := None]) == multiset(a)
  {
    var next := Next(|a|, hole);
    var w := a[hole := Some(phantom)];
    var x := a[next];
    LowerKeepsOrder(w, hole);
    SwapKeepsEntries(a, hole, next);
    var w' := w[hole := x];
    assert a[hole := x][next := None][next := x] == w';
    forall b | 0 <= b < |a|
      ensures Displacement(w', b) <= Displacement(was, b)
    {
      assert Displacement(w, b) <= Displacement(was, b);
    }
  }

  /** The next bucket is free or ideally placed: the hole can stay. */
  lemma HoleStays(a: Buckets, hole: nat, phantom: Pos, was: Buckets)
    requires Hole(a, hole, phantom, was)
    requires Displacement(a, Next(|a|, hole)) <= 0
    ensures Ordered(a) && NoHigher(a, was)
  {
    var w := a[hole := Some(phantom)];
    ClearKeepsOrder(w, hole);
    assert w[hole := None] == a;
    forall b | 0 <= b < |a|
      ensures Displacement(a, b) <= Displacement(was, b)
    {
      assert Displacement(w, b) <= Displacement(was, b);
    }
  }

  // ----- shifting forward to make room for an entry ---------------------------

  lemma UpdateEntries(a: Buckets, i: nat, x: Option<Pos>)
    requires i < |a|
    ensures multiset(a[i := x]) + multiset{a[i]} == multiset(a) + multiset{x}
  {
    assert a[i] in multiset(a);
    assert multiset(a[i := x]) == multiset(a) - multiset{a[i]} + multiset{x};
  }

  /** x may be put into bucket q: it is displaced enough to take it, and not too far. */
  ghost predicate Pushes(a: Buckets, q: nat, x: Pos) {
    && |a| >= 2 && q < |a|
    && Ordered(a)
    && Displacement(a, q) <= ProbeDistance(|a|, x.hash, q) <= Displacement(a, Prev(|a|, q)) + 1
  }

  /** The entry that x takes the bucket from may take the next one. */
  lemma PushMovesOn(a: Buckets, q: nat, x: Pos, e: nat)
    requires Pushes(a, q, x) && a[q].Some?
    requires e < |a| && a[e].None?
    ensures Pushes(a[q := Some(x)], Next(|a|, q), a[q].value)
    ensures a[q := Some(x)][e].None?
  {
    RaiseKeepsOrder(a, q, x);
    EmptyBound(a, e, q);
    DistanceStep(|a|, a[q].value.hash, q);
    assert Displacement(a, Next(|a|, q)) <= Displacement(a, q) + 1;
    assert Next(|a|, q) != q && Prev(|a|, Next(|a|, q)) == q;
  }
}
