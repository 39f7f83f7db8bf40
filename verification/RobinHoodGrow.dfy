/** Doubling the bucket array (src/hpack/table.rs:446-502).  Entries are visited from
    the first ideally placed one, so each can simply take the first free bucket: the
    doubled ring splits into two arcs, each receiving a subsequence of the old order
    no further displaced than it was. */
module RobinHoodGrow {
  import opened Prelude
  import opened RobinHood

  /** Offset j of one of the two arcs that start opposite each other at f and f + c. */
  function Arc(c: nat, f: nat, upper: bool, j: nat): (b: nat)
    requires f < c && j <= c
    ensures b < 2 * c
  {
    Ahead(2 * c, if upper then f + c else f, j)
  }

  /** The offset, from f, that the entry visited k-th asks for. */
  function Wanted(was: Buckets, f: nat, k: int): (u: int)
    requires f < |was| && -1 <= k < |was|
  {
    if k < 0 then 0 else k - Displacement(was, Ahead(|was|, f, k))
  }

  ghost predicate ArcOk(a: Buckets, was: Buckets, f: nat, k: nat, upper: bool, j: nat)
    requires f < |was| && |a| == 2 * |was| && k <= |was| && j < |was|
  {
    var b := Arc(|was|, f, upper, j);
    a[b].Some? ==>
      && j < k
      && Displacement(a, b) <= j
      && j - Displacement(a, b) <= Wanted(was, f, k - 1)
  }

  /** The doubled array after the first k old buckets have been visited. */
  ghost predicate Regrown(a: Buckets, was: Buckets, f: nat, k: nat)
    requires f < |was| && k <= |was|
  {
    match (a, was)
    case (a, was) =>
      && |a| == 2 * |was|
      && Ordered(a)
      && forall upper, j :: 0 <= j < |was| ==> ArcOk(a, was, f, k, upper, j)
  }

  /** From a start with nothing displaced into it, the k-th bucket is displaced by at
      most k, and the offsets asked for never decrease. */
  lemma WantedGrows(was: Buckets, f: nat, k: nat)
    requires Ordered(was) && f < |was| && k < |was| && Displacement(was, f) <= 0
    ensures 0 <= Wanted(was, f, k)
    ensures Wanted(was, f, k - 1) <= Wanted(was, f, k)
  {
    Slope(was, f, k);
    if k > 0 {
      assert Next(|was|, Ahead(|was|, f, k - 1)) == Ahead(|was|, f, k);
    }
  }

  lemma HashInDoubled(c: nat, hash: nat)
    requires c > 0
    ensures DesiredPos(2 * c, hash) == DesiredPos(c, hash) || DesiredPos(2 * c, hash) == DesiredPos(c, hash) + c
  {
    var q, r := hash / (2 * c), hash % (2 * c);
    assert hash == q * (2 * c) + r;
    assert hash == (2 * q) * c + r;
    if r < c {
      RemainderIs(hash, c, 2 * q, r);
    } else {
      assert hash == (2 * q + 1) * c + (r - c);
      RemainderIs(hash, c, 2 * q + 1, r - c);
    }
  }

  lemma RemainderIs(x: nat, c: nat, q: int, r: nat)
    requires c > 0 && x == q * c + r && r < c
    ensures x % c == r
  {
    var d := q - x / c;
    assert d * c == x % c - r by {
      assert d * c == q * c - (x / c) * c;
    }
    if d != 0 {
      MultipleIsLarge(d, c);
    }
  }

  lemma MultipleIsLarge(d: int, c: nat)
    requires d != 0
    ensures d * c >= c || d * c + c <= 0
  {
  }

  /** In the doubled array the k-th entry asks for its old offset in one of the arcs. */
  lemma DesiredInArc(was: Buckets, f: nat, k: nat) returns (upper: bool)
    requires Ordered(was) && f < |was| && k < |was| && Displacement(was, f) <= 0
    requires was[Ahead(|was|, f, k)].Some?
    ensures 0 <= Wanted(was, f, k) <= k
    ensures DesiredPos(2 * |was|, was[Ahead(|was|, f, k)].value.hash) == Arc(|was|, f, upper, Wanted(was, f, k))
  {
    WantedGrows(was, f, k);
    var c := |was|;
    var hash := was[Ahead(c, f, k)].value.hash;
    HashInDoubled(c, hash);
    assert DesiredPos(c, hash) == Ahead(c, f, Wanted(was, f, k));
    upper := DesiredPos(2 * c, hash) != Arc(c, f, false, Wanted(was, f, k));
  }

  /** A free bucket stays free to visit: the invariant carries over an empty bucket. */
  lemma RegrownSkips(a: Buckets, was: Buckets, f: nat, k: nat)
    requires Ordered(was) && f < |was| && k < |was| && Displacement(was, f) <= 0
    requires Regrown(a, was, f, k)
    ensures Regrown(a, was, f, k + 1)
  {
    WantedGrows(was, f, k);
    var k' := k + 1;
    forall upper, j | 0 <= j < |was|
      ensures ArcOk(a, was, f, k', upper, j)
    {
      assert ArcOk(a, was, f, k, upper, j);
    }
  }

  /** Looking for room for the k-th entry, everything before offset j of its arc is
      taken, back to where it wants to be. */
  ghost predicate Seeking(a: Buckets, was: Buckets, f: nat, k: nat, upper: bool, j: nat)
    requires f < |was| && |a| == 2 * |was| && k < |was|
  {
    match (a, was)
    case (a, was) =>
      && was[Ahead(|was|, f, k)].Some?
      && 0 <= Wanted(was, f, k) <= j <= k
      && DesiredPos(2 * |was|, was[Ahead(|was|, f, k)].value.hash) == Arc(|was|, f, upper, Wanted(was, f, k))
      && (Wanted(was, f, k) < j ==> a[Arc(|was|, f, upper, j - 1)].Some?)
  }

  lemma SeekStarts(a: Buckets, was: Buckets, f: nat, k: nat) returns (upper: bool, j: nat)
    requires Ordered(was) && f < |was| && k < |was| && Displacement(was, f) <= 0
    requires |a| == 2 * |was| && was[Ahead(|was|, f, k)].Some?
    ensures j <= k && Seeking(a, was, f, k, upper, j)
    ensures DesiredPos(|a|, was[Ahead(|was|, f, k)].value.hash) == Arc(|was|, f, upper, j)
  {
    upper := DesiredInArc(was, f, k);
    j := Wanted(was, f, k);
  }

  lemma SeekGoesOn(a: Buckets, was: Buckets, f: nat, k: nat, upper: bool, j: nat)
    requires f < |was| && k < |was| && Regrown(a, was, f, k) && j <= k && Seeking(a, was, f, k, upper, j)
    requires a[Arc(|was|, f, upper, j)].Some?
    ensures j + 1 <= k && Seeking(a, was, f, k, upper, j + 1)
    ensures Next(|a|, Arc(|was|, f, upper, j)) == Arc(|was|, f, upper, j + 1)
  {
    assert ArcOk(a, was, f, k, upper, j);
  }

  /** The first free bucket for the k-th entry. */
  ghost predicate FirstFree(a: Buckets, was: Buckets, f: nat, k: nat, upper: bool, j: nat)
    requires f < |was| && |a| == 2 * |was| && k < |was|
  {
    j <= k && Seeking(a, was, f, k, upper, j) && a[Arc(|was|, f, upper, j)].None?
  }

  lemma PlacedInOrder(a: Buckets, was: Buckets, f: nat, k: nat, upper: bool, j: nat)
    requires |was| >= 2 && Ordered(was) && f < |was| && k < |was| && Displacement(was, f) <= 0
    requires Regrown(a, was, f, k) && FirstFree(a, was, f, k, upper, j)
    ensures ProbeDistance(2 * |was|, was[Ahead(|was|, f, k)].value.hash, Arc(|was|, f, upper, j)) == j - Wanted(was, f, k)
    ensures Ordered(a[Arc(|was|, f, upper, j) := was[Ahead(|was|, f, k)]])
  {
    var c := |was|;
    var x := was[Ahead(c, f, k)].value;
    var q := Arc(c, f, upper, j);
    WantedGrows(was, f, k);
    if Wanted(was, f, k) < j {
      assert Prev(2 * c, q) == Arc(c, f, upper, j - 1);
      assert ArcOk(a, was, f, k, upper, j - 1);
    }
    RaiseKeepsOrder(a, q, x);
  }

  /** Placing the k-th entry there keeps both arcs as they should be. */
  lemma RegrownPlaces(a: Buckets, was: Buckets, f: nat, k: nat, upper: bool, j: nat)
    requires |was| >= 2 && Ordered(was) && f < |was| && k < |was| && Displacement(was, f) <= 0
    requires Regrown(a, was, f, k) && FirstFree(a, was, f, k, upper, j)
    ensures Regrown(a[Arc(|was|, f, upper, j) := was[Ahead(|was|, f, k)]], was, f, k + 1)
  {
    var w := a[Arc(|was|, f, upper, j) := was[Ahead(|was|, f, k)]];
    PlacedInOrder(a, was, f, k, upper, j);
    var k' := k + 1;
    forall upper', j' | 0 <= j' < |was|
      ensures ArcOk(w, was, f, k', upper', j')
    {
      ArcAfterPlacing(a, was, f, k, upper, j, upper', j');
    }
  }

  lemma ArcAfterPlacing(a: Buckets, was: Buckets, f: nat, k: nat, upper: bool, j: nat, upper': bool, j': nat)
    requires Ordered(was) && f < |was| && k < |was| && Displacement(was, f) <= 0
    requires Regrown(a, was, f, k) && FirstFree(a, was, f, k, upper, j) && j' < |was|
    requires ProbeDistance(2 * |was|, was[Ahead(|was|, f, k)].value.hash, Arc(|was|, f, upper, j)) == j - Wanted(was, f, k)
    ensures ArcOk(a[Arc(|was|, f, upper, j) := was[Ahead(|was|, f, k)]], was, f, k + 1, upper', j')
  {
    WantedGrows(was, f, k);
    assert ArcOk(a, was, f, k, upper', j');
    assert Arc(|was|, f, upper', j') == Arc(|was|, f, upper, j) ==> upper' == upper && j' == j;
  }

  /** With a free bucket and no ideally placed entry there is no entry at all. */
  lemma {:induction false} NoIdealNoEntry(a: Buckets, e: nat, k: nat)
    requires Ordered(a) && e < |a| && k <= |a| && a[e].None?
    requires forall b :: 0 <= b < |a| ==> Displacement(a, b) != 0
    ensures a[Ahead(|a|, e, k)].None?
  {
    if k > 0 {
      NoIdealNoEntry(a, e, k - 1);
      assert Next(|a|, Ahead(|a|, e, k - 1)) == Ahead(|a|, e, k);
      assert Displacement(a, Ahead(|a|, e, k)) <= 0;
    }
  }

  /** The same entries, whatever the number of free buckets. */
  ghost predicate SameEntries(m: multiset<Option<Pos>>, m': multiset<Option<Pos>>) {
    match (m, m')
    case (m, m') => forall p: Pos :: m[Some(p)] == m'[Some(p)]
  }

  /** src/hpack/table.rs:481-502: the k-th old bucket is put where its entry finds room. */
  method ReinsertEntryInOrder(a0: Buckets, pos: Option<Pos>, ghost was: Buckets, ghost f: nat, ghost k: nat)
    returns (a: Buckets)
    requires |was| >= 2 && Ordered(was) && f < |was| && k < |was| && Displacement(was, f) <= 0
    requires Regrown(a0, was, f, k) && pos == was[Ahead(|was|, f, k)]
    ensures Regrown(a, was, f, k + 1)
    ensures SameEntries(multiset(a), multiset(a0) + multiset{pos})
  {
    a := a0;
    if pos.None? {
      RegrownSkips(a, was, f, k);
      return;
    }
    ghost var upper, j := SeekStarts(a, was, f, k);
    var probe := DesiredPos(|a|, pos.value.hash);
    while a[probe].Some?
      invariant probe < |a| && j <= k && probe == Arc(|was|, f, upper, j)
      invariant Seeking(a, was, f, k, upper, j)
      decreases k - j
    {
      SeekGoesOn(a, was, f, k, upper, j);
      probe, j := Next(|a|, probe), j + 1;
    }
    RegrownPlaces(a, was, f, k, upper, j);
    UpdateEntries(a, probe, pos);
    a := a[probe := pos];
  }

  lemma EmptyRegrown(c: nat, was: Buckets, f: nat)
    requires c == |was| >= 2 && f < c
    ensures var a: Buckets := seq(2 * c, _ => None); Regrown(a, was, f, 0) && SameEntries(multiset(a), multiset{})
  {
    var a: Buckets := seq(2 * c, _ => None);
    forall p: Pos
      ensures multiset(a)[Some(p)] == 0
    {
      assert Some(p) !in a;
    }
  }

  lemma VisitedOneMore(a: Buckets, a': Buckets, a0: Buckets, was: Buckets, lo: nat, i: nat)
    requires lo <= i < |was|
    requires SameEntries(multiset(a), multiset(a0) + multiset(was[lo..i]))
    requires SameEntries(multiset(a'), multiset(a) + multiset{was[i]})
    ensures SameEntries(multiset(a'), multiset(a0) + multiset(was[lo..i + 1]))
  {
    assert was[lo..i + 1] == was[lo..i] + [was[i]];
    forall p: Pos
      ensures multiset(a')[Some(p)] == (multiset(a0) + multiset(was[lo..i + 1]))[Some(p)]
    {
      assert multiset(a)[Some(p)] == (multiset(a0) + multiset(was[lo..i]))[Some(p)];
    }
  }

  /** One of the two loops of src/hpack/table.rs:470-476. */
  method ReinsertRange(a0: Buckets, was: Buckets, lo: nat, hi: nat, ghost f: nat, ghost k: nat) returns (a: Buckets)
    requires |was| >= 2 && Ordered(was) && f < |was| && Displacement(was, f) <= 0
    requires lo <= hi <= |was| && k + (hi - lo) <= |was|
    requires lo < hi ==> lo == Ahead(|was|, f, k)
    requires Regrown(a0, was, f, k)
    ensures Regrown(a, was, f, k + (hi - lo))
    ensures SameEntries(multiset(a), multiset(a0) + multiset(was[lo..hi]))
  {
    a := a0;
    var i: nat := lo;
    ghost var visited := k;
    assert multiset(was[lo..lo]) == multiset{};
    while i < hi
      invariant lo <= i <= hi && visited == k + (i - lo)
      invariant Regrown(a, was, f, visited)
      invariant SameEntries(multiset(a), multiset(a0) + multiset(was[lo..i]))
    {
      assert Ahead(|was|, f, visited) == i;
      ghost var a1 := a;
      a := ReinsertEntryInOrder(a, was[i], was, f, visited);
      VisitedOneMore(a1, a, a0, was, lo, i);
      i := i + 1;
      visited := visited + 1;
    }
  }

  /** src/hpack/table.rs:453-463: the first ideally placed entry. */
  method FirstIdeal(was: Buckets, ghost e: nat) returns (first: nat)
    requires Ordered(was) && e < |was| && was[e].None?
    ensures first < |was| && Displacement(was, first) <= 0
  {
    var i: nat := 0;
    while i < |was|
      invariant i <= |was|
      invariant forall b :: 0 <= b < i ==> Displacement(was, b) != 0
    {
      if was[i].Some? && ProbeDistance(|was|, was[i].value.hash, i) == 0 {
        return i;
      }
      i := i + 1;
    }
    NoIdealNoEntry(was, e, Steps(|was|, e, 0));
    first := 0;
  }

  /** src/hpack/table.rs:447-479, doubling the capacity. */
  method Grow(was: Buckets, ghost e: nat) returns (a: Buckets)
    requires |was| >= 2 && Ordered(was) && e < |was| && was[e].None?
    ensures |a| == 2 * |was| && Ordered(a)
    ensures SameEntries(multiset(a), multiset(was))
  {
    var c := |was|;
    var first := FirstIdeal(was, e);
    a := seq(2 * c, _ => None);
    EmptyRegrown(c, was, first);
    ghost var a0 := a;
    a := ReinsertRange(a, was, first, c, first, 0);
    ghost var a1 := a;
    a := ReinsertRange(a, was, 0, first, first, c - first);
    assert was == was[0..first] + was[first..c];
    assert multiset(was) == multiset(was[0..first]) + multiset(was[first..c]);
    forall p: Pos
      ensures multiset(a)[Some(p)] == multiset(was)[Some(p)]
    {
      assert multiset(a1)[Some(p)] == (multiset(a0) + multiset(was[first..c]))[Some(p)];
      assert multiset(a)[Some(p)] == (multiset(a1) + multiset(was[0..first]))[Some(p)];
    }
  }
}
