/** The encoder's dynamic table (src/hpack/table.rs): a deque of slots indexed by a
    Robin-Hood hash array over names, with same-name slots linked oldest to newest.
    Proved to answer and evolve exactly like the linear scan of HpackFifo. */
module HpackSlots {
  import opened Prelude
  import opened HpackHeader
  import opened HpackFifo
  import opened RobinHood

  datatype Slot = Slot(hash: nat, header: Header, next: Option<int>)

  function Headers(slots: seq<Slot>): (hs: seq<Header>)
    ensures |hs| == |slots|
    ensures forall i :: 0 <= i < |slots| ==> hs[i] == slots[i].header
  {
    seq(|slots|, i requires 0 <= i < |slots| => slots[i].header)
  }

  function SlotsSize(slots: seq<Slot>): (n: nat) {
    if |slots| == 0 then 0 else SlotsSize(slots[..|slots| - 1]) + Len(slots[|slots| - 1].header)
  }

  /** The slots left after evicting oldest ones while over budget. */
  function EvictSlots(slots: seq<Slot>, budget: int): (r: seq<Slot>)
    ensures r <= slots
  {
    if |slots| == 0 || SlotsSize(slots) <= budget then slots else EvictSlots(slots[..|slots| - 1], budget)
  }

  lemma {:induction false} SlotsSizeIsSize(slots: seq<Slot>)
    ensures SlotsSize(slots) == Size(Headers(slots))
  {
    if |slots| > 0 {
      SlotsSizeIsSize(slots[..|slots| - 1]);
      assert Headers(slots)[..|slots| - 1] == Headers(slots[..|slots| - 1]);
    }
  }

  /** Pushing a slot, up to links, adds its length. */
  lemma {:induction false} SlotsSizePush(slots: seq<Slot>, young: Slot, rest: seq<Slot>)
    requires |slots| == |rest| + 1 && slots[0].header == young.header
    requires forall i :: 0 <= i < |rest| ==> slots[i + 1].header == rest[i].header
    ensures SlotsSize(slots) == Len(young.header) + SlotsSize(rest)
  {
    if |rest| > 0 {
      assert slots[|rest|].header == rest[|rest| - 1].header;
      SlotsSizePush(slots[..|rest|], young, rest[..|rest| - 1]);
    }
  }

  lemma {:induction false} EvictSlotsIsEvictTo(slots: seq<Slot>, budget: int)
    ensures Headers(EvictSlots(slots, budget)) == EvictTo(Headers(slots), budget)
  {
    SlotsSizeIsSize(slots);
    if |slots| > 0 && SlotsSize(slots) > budget {
      EvictSlotsIsEvictTo(slots[..|slots| - 1], budget);
      assert Headers(slots)[..|slots| - 1] == Headers(slots[..|slots| - 1]);
    }
  }

  function UsableCapacity(cap: nat): (n: nat)
    ensures n <= cap && (cap > 0 ==> n > 0) && (cap >= 4 ==> n < cap)
  {
    cap - cap / 4
  }

  predicate PowerOfTwo(c: nat) {
    c == 1 || (c > 1 && c % 2 == 0 && PowerOfTwo(c / 2))
  }

  predicate Named(s: Slot, n: Name) {
    s.header.name == n
  }

  ghost predicate IsOldest(slots: seq<Slot>, i: nat)
    requires i < |slots|
  {
    forall j :: i < j < |slots| ==> !Named(slots[j], slots[i].header.name)
  }

  /** p points at the oldest slot of some name: the head of that name's chain. */
  ghost predicate IsHead(slots: seq<Slot>, n: int, p: Pos) {
    && 0 <= p.index + n < |slots|
    && p.hash == slots[p.index + n].hash
    && IsOldest(slots, p.index + n)
  }

  /** A slot links to the next younger slot of its name, if there is one. */
  ghost predicate Linked(slots: seq<Slot>, n: int, i: nat)
    requires i < |slots|
  {
    var name := slots[i].header.name;
    match slots[i].next
    case Some(x) =>
      && 0 <= x + n < i
      && Named(slots[x + n], name)
      && forall k :: x + n < k < i ==> !Named(slots[k], name)
    case None =>
      forall k :: 0 <= k < i ==> !Named(slots[k], name)
  }

  ghost predicate AllLinked(slots: seq<Slot>, n: int) {
    forall i :: 0 <= i < |slots| ==> Linked(slots, n, i)
  }

  /** The structure of the index, for n insertions made so far. */
  ghost predicate Struct(a: Buckets, slots: seq<Slot>, n: int, hash: Name -> nat) {
    && (|a| == 0 || (|a| >= 8 && PowerOfTwo(|a|)))
    && |slots| <= UsableCapacity(|a|)
    && Ordered(a)
    && (forall i :: 0 <= i < |slots| ==> slots[i].hash == hash(slots[i].header.name))
    && AllLinked(slots, n)
    && HeadsOnce(a, slots, n)
  }

  /** The buckets hold every chain head exactly once, and nothing else. */
  ghost predicate HeadsOnce(a: Buckets, slots: seq<Slot>, n: int) {
    forall p: Pos :: multiset(a)[Some(p)] == if IsHead(slots, n, p) then 1 else 0
  }

  lemma BucketIsHead(a: Buckets, slots: seq<Slot>, n: int, b: nat)
    requires HeadsOnce(a, slots, n) && b < |a| && a[b].Some?
    ensures IsHead(slots, n, a[b].value)
  {
    assert a[b] in multiset(a);
    assert multiset(a)[Some(a[b].value)] > 0;
  }

  lemma HeadHasBucket(a: Buckets, slots: seq<Slot>, n: int, p: Pos) returns (b: nat)
    requires HeadsOnce(a, slots, n) && IsHead(slots, n, p)
    ensures b < |a| && a[b] == Some(p)
  {
    assert multiset(a)[Some(p)] == 1;
    assert Some(p) in a;
    b :| 0 <= b < |a| && a[b] == Some(p);
  }

  /** Distinct values below a bound are no more than the bound. */
  lemma {:induction false} Pigeonhole(s: seq<int>, bound: nat)
    requires forall i :: 0 <= i < |s| ==> 0 <= s[i] < bound
    requires forall i, j :: 0 <= i < j < |s| ==> s[i] != s[j]
    ensures |s| <= bound
  {
    DistinctCount(s);
    assert (set x | x in s) <= Range(bound);
    SubsetCount((set x | x in s), Range(bound));
  }

  function Range(bound: nat): (r: set<int>)
    ensures forall k :: k in r <==> 0 <= k < bound
    ensures |r| == bound
  {
    if bound == 0 then {} else Range(bound - 1) + {bound - 1}
  }

  lemma {:induction false} DistinctCount(s: seq<int>)
    requires forall i, j :: 0 <= i < j < |s| ==> s[i] != s[j]
    ensures |set x | x in s| == |s|
  {
    if |s| > 0 {
      var t := s[..|s| - 1];
      DistinctCount(t);
      var last := s[|s| - 1];
      assert last !in t;
      assert (set x | x in s) == (set x | x in t) + {last};
    }
  }

  lemma {:induction false} SubsetCount(x: set<int>, y: set<int>)
    requires x <= y
    ensures |x| <= |y|
  {
    assert y == x + (y - x);
  }

  lemma {:induction false} TwiceInSeq(a: Buckets, b: nat, c: nat)
    requires b < c < |a| && a[b] == a[c]
    ensures multiset(a)[a[b]] >= 2
  {
    assert a == a[..c] + [a[c]] + a[c + 1..];
    assert multiset(a) == multiset(a[..c]) + multiset{a[c]} + multiset(a[c + 1..]);
    assert a[..c][b] == a[b];
    assert a[b] in multiset(a[..c]);
  }

  /** A non-empty index always has a free bucket, so every probe loop ends. */
  lemma FreeBucket(a: Buckets, slots: seq<Slot>, n: int, hash: Name -> nat) returns (e: nat)
    requires Struct(a, slots, n, hash) && |a| > 0
    ensures e < |a| && a[e].None?
  {
    if forall b :: 0 <= b < |a| ==> a[b].Some? {
      var s := seq(|a|, b requires 0 <= b < |a| => a[b].value.index + n);
      forall i | 0 <= i < |a|
        ensures 0 <= s[i] < |slots|
      {
        BucketIsHead(a, slots, n, i);
      }
      forall i, j | 0 <= i < j < |a|
        ensures s[i] != s[j]
      {
        BucketIsHead(a, slots, n, i);
        BucketIsHead(a, slots, n, j);
        if s[i] == s[j] {
          assert a[i] == a[j];
          TwiceInSeq(a, i, j);
        }
      }
      Pigeonhole(s, |slots|);
      assert false;
    }
    e :| 0 <= e < |a| && a[e].None?;
  }

  // ----- what eviction does to the structure ---------------------------------

  lemma LastIsHead(slots: seq<Slot>, n: int)
    requires |slots| > 0
    ensures IsHead(slots, n, Pos(|slots| - 1 - n, slots[|slots| - 1].hash))
  {
  }

  lemma LinksWithoutLast(slots: seq<Slot>, n: int)
    requires |slots| > 0
    requires AllLinked(slots, n)
    ensures AllLinked(slots[..|slots| - 1], n)
  {
    var t := slots[..|slots| - 1];
    forall i | 0 <= i < |t|
      ensures Linked(t, n, i)
    {
      assert Linked(slots, n, i);
    }
  }

  /** Heads after the oldest slot is gone: its chain continues at its link. */
  lemma HeadsWithoutLast(slots: seq<Slot>, n: int, hash: Name -> nat, p: Pos)
    requires |slots| > 0
    requires AllLinked(slots, n)
    requires forall i :: 0 <= i < |slots| ==> slots[i].hash == hash(slots[i].header.name)
    ensures var last := slots[|slots| - 1];
            IsHead(slots[..|slots| - 1], n, p) <==>
              || (IsHead(slots, n, p) && p.index != |slots| - 1 - n)
              || (last.next.Some? && p == Pos(last.next.value, last.hash))
  {
    var l := |slots| - 1;
    var t := slots[..l];
    var last := slots[l];
    assert Linked(slots, n, l);
    if IsHead(t, n, p) && !(last.next.Some? && p == Pos(last.next.value, last.hash)) {
      var i := p.index + n;
      if Named(slots[i], last.header.name) {
        assert false;
      }
      assert IsOldest(slots, i);
    }
    if IsHead(slots, n, p) && p.index != l - n {
      assert IsOldest(t, p.index + n);
    }
    if last.next.Some? && p == Pos(last.next.value, last.hash) {
      assert IsOldest(t, p.index + n);
    }
  }

  lemma EvictRelinks(a: Buckets, slots: seq<Slot>, n: int, hash: Name -> nat, q: nat)
    requires Struct(a, slots, n, hash) && |slots| > 0 && q < |a|
    requires var last := slots[|slots| - 1];
             a[q] == Some(Pos(|slots| - 1 - n, last.hash)) && last.next.Some?
    ensures var last := slots[|slots| - 1];
            Struct(a[q := Some(Pos(last.next.value, last.hash))], slots[..|slots| - 1], n, hash)
  {
    var last := slots[|slots| - 1];
    var t := slots[..|slots| - 1];
    var a' := a[q := Some(Pos(last.next.value, last.hash))];
    LinksWithoutLast(slots, n);
    SameHashKeepsOrder(a, q, Pos(last.next.value, last.hash));
    LastIsHead(slots, n);
    assert Linked(slots, n, |slots| - 1);
    forall p: Pos
      ensures multiset(a')[Some(p)] == if IsHead(t, n, p) then 1 else 0
    {
      HeadsWithoutLast(slots, n, hash, p);
    }
  }

  lemma SameHashKeepsOrder(a: Buckets, q: nat, x: Pos)
    requires Ordered(a) && q < |a| && a[q].Some? && a[q].value.hash == x.hash
    ensures Ordered(a[q := Some(x)])
    ensures NoHigher(a[q := Some(x)], a)
  {
    var w := a[q := Some(x)];
    forall b | 0 <= b < |a| ensures Displacement(w, b) == Displacement(a, b) {}
    forall b | 0 <= b < |w|
      ensures Displacement(w, Next(|w|, b)) <= Displacement(w, b) + 1
    {
      assert Displacement(a, Next(|a|, b)) <= Displacement(a, b) + 1;
    }
  }

  lemma EvictRemoves(a: Buckets, a': Buckets, slots: seq<Slot>, n: int, hash: Name -> nat)
    requires Struct(a, slots, n, hash) && |slots| > 0
    requires var last := slots[|slots| - 1];
             last.next.None? && |a'| == |a| && Ordered(a') &&
             multiset(a') == multiset(a) - multiset{Some(Pos(|slots| - 1 - n, last.hash))} + multiset{None}
    ensures Struct(a', slots[..|slots| - 1], n, hash)
  {
    var t := slots[..|slots| - 1];
    LinksWithoutLast(slots, n);
    LastIsHead(slots, n);
    forall p: Pos
      ensures multiset(a')[Some(p)] == if IsHead(t, n, p) then 1 else 0
    {
      HeadsWithoutLast(slots, n, hash, p);
    }
  }

  /** The last slot of a name is evicted to make room for a header of that name: its
      bucket is handed to the slot about to be inserted. */
  lemma EvictHandsOver(a: Buckets, slots: seq<Slot>, n: int, hash: Name -> nat, q: nat, young: Slot)
    requires Struct(a, slots, n, hash) && |slots| > 0 && q < |a|
    requires var last := slots[|slots| - 1];
             a[q] == Some(Pos(|slots| - 1 - n, last.hash)) && last.next.None? &&
             Named(young, last.header.name) && young.hash == last.hash && young.next.None?
    ensures Struct(a[q := Some(Pos(-(n + 1), young.hash))], [young] + slots[..|slots| - 1], n + 1, hash)
  {
    var last := slots[|slots| - 1];
    var t := slots[..|slots| - 1];
    var ext := [young] + t;
    var a' := a[q := Some(Pos(-(n + 1), young.hash))];
    SameHashKeepsOrder(a, q, Pos(-(n + 1), young.hash));
    LinksWithoutLast(slots, n);
    assert Linked(slots, n, |slots| - 1);
    PushLinks(t, n, young);
    LastIsHead(slots, n);
    forall p: Pos
      ensures multiset(a')[Some(p)] == if IsHead(ext, n + 1, p) then 1 else 0
    {
      HeadsWithoutLast(slots, n, hash, p);
      HeadsOfPush(t, n, young, p);
    }
  }

  // ----- what insertion does to the structure --------------------------------

  /** Links survive a push of a slot whose name no slot has. */
  lemma PushLinks(slots: seq<Slot>, n: int, young: Slot)
    requires AllLinked(slots, n)
    requires forall i :: 0 <= i < |slots| ==> !Named(slots[i], young.header.name)
    requires young.next.None?
    ensures AllLinked([young] + slots, n + 1)
  {
    var ext := [young] + slots;
    var m := n + 1;
    forall i | 0 <= i < |ext|
      ensures Linked(ext, m, i)
    {
      if i > 0 {
        assert Linked(slots, n, i - 1);
        var name := ext[i].header.name;
        assert !Named(young, name);
        if ext[i].next.Some? {
          var j := ext[i].next.value + n + 1;
          forall k | j < k < i ensures !Named(ext[k], name) { assert ext[k] == slots[k - 1]; }
        } else {
          forall k | 0 <= k < i ensures !Named(ext[k], name) { if k > 0 { assert ext[k] == slots[k - 1]; } }
        }
      }
    }
  }

  lemma HeadsOfPush(slots: seq<Slot>, n: int, young: Slot, p: Pos)
    requires forall i :: 0 <= i < |slots| ==> !Named(slots[i], young.header.name)
    ensures IsHead([young] + slots, n + 1, p) <==> IsHead(slots, n, p) || p == Pos(-(n + 1), young.hash)
  {
    var ext := [young] + slots;
    if IsHead(slots, n, p) {
      var i := p.index + n;
      assert ext[i + 1] == slots[i];
      forall j | i + 1 < j < |ext| ensures !Named(ext[j], ext[i + 1].header.name) {
        assert ext[j] == slots[j - 1];
      }
    }
    if IsHead(ext, n + 1, p) && p.index + n + 1 > 0 {
      var i := p.index + n;
      assert ext[i + 1] == slots[i];
      forall j | i < j < |slots| ensures !Named(slots[j], slots[i].header.name) {
        assert ext[j + 1] == slots[j];
      }
    }
  }

  lemma InsertUnseen(a: Buckets, a': Buckets, slots: seq<Slot>, n: int, hash: Name -> nat, young: Slot)
    requires Struct(a, slots, n, hash) && |slots| + 1 <= UsableCapacity(|a|)
    requires forall i :: 0 <= i < |slots| ==> !Named(slots[i], young.header.name)
    requires young.next.None? && young.hash == hash(young.header.name)
    requires |a'| == |a| && Ordered(a')
    requires multiset(a') + multiset{None} == multiset(a) + multiset{Some(Pos(-(n + 1), young.hash))}
    ensures Struct(a', [young] + slots, n + 1, hash)
  {
    PushLinks(slots, n, young);
    forall p: Pos
      ensures multiset(a')[Some(p)] == if IsHead([young] + slots, n + 1, p) then 1 else 0
    {
      HeadsOfPush(slots, n, young, p);
      assert !IsHead(slots, n, Pos(-(n + 1), young.hash));
      assert (multiset(a') + multiset{None})[Some(p)] == multiset(a')[Some(p)];
    }
  }

  function LinkTo(slots: seq<Slot>, y: nat, n: int): (r: seq<Slot>)
    requires y < |slots|
    ensures |r| == |slots|
  {
    slots[y := slots[y].(next := Some(-n))]
  }

  /** A younger slot of a known name is chained behind the youngest one. */
  lemma InsertSeen(a: Buckets, slots: seq<Slot>, n: int, hash: Name -> nat, young: Slot, y: nat)
    requires Struct(a, slots, n, hash) && |slots| + 1 <= UsableCapacity(|a|)
    requires y < |slots| && Named(slots[y], young.header.name) && slots[y].next.None?
    requires young.next.None? && young.hash == hash(young.header.name)
    ensures Struct(a, LinkTo([young] + slots, y + 1, n + 1), n + 1, hash)
  {
    var ext := LinkTo([young] + slots, y + 1, n + 1);
    assert forall i :: 0 <= i < |slots| ==> ext[i + 1].header == slots[i].header;
    forall i | 0 <= i < |ext|
      ensures ext[i].hash == hash(ext[i].header.name)
    {
      if i > 0 { assert slots[i - 1].hash == hash(slots[i - 1].header.name); }
    }
    var m := n + 1;
    forall i | 0 <= i < |ext|
      ensures Linked(ext, m, i)
    {
      LinkAfterChain(slots, n, young, y, i);
    }
    forall p: Pos
      ensures multiset(a)[Some(p)] == if IsHead(ext, n + 1, p) then 1 else 0
    {
      HeadsOfChain(slots, n, young, y, p);
    }
  }

  lemma LinkAfterChain(slots: seq<Slot>, n: int, young: Slot, y: nat, i: nat)
    requires AllLinked(slots, n)
    requires y < |slots| && Named(slots[y], young.header.name) && slots[y].next.None?
    requires young.next.None? && i < |slots| + 1
    ensures Linked(LinkTo([young] + slots, y + 1, n + 1), n + 1, i)
  {
    var ext := LinkTo([young] + slots, y + 1, n + 1);
    assert forall k :: 1 <= k <= |slots| ==> ext[k].header == slots[k - 1].header;
    assert Linked(slots, n, y);
    if i > 0 {
      assert Linked(slots, n, i - 1);
      var name := ext[i].header.name;
      if i - 1 == y {
        forall k | 0 < k < i ensures !Named(ext[k], name) { assert !Named(slots[k - 1], name); }
      } else if ext[i].next.Some? {
        var j := ext[i].next.value + n + 1;
        forall k | j < k < i ensures !Named(ext[k], name) { assert !Named(slots[k - 1], name); }
      } else {
        // no younger slot of this name, so it is not the new slot's name: y would be one
        if Named(young, name) {
          assert false;
        }
        forall k | 0 <= k < i ensures !Named(ext[k], name) { if k > 0 { assert !Named(slots[k - 1], name); } }
      }
    }
  }

  lemma HeadsOfChain(slots: seq<Slot>, n: int, young: Slot, y: nat, p: Pos)
    requires y < |slots| && Named(slots[y], young.header.name)
    ensures IsHead(LinkTo([young] + slots, y + 1, n + 1), n + 1, p) <==> IsHead(slots, n, p)
  {
    var ext := LinkTo([young] + slots, y + 1, n + 1);
    assert forall k :: 1 <= k <= |slots| ==> ext[k].header == slots[k - 1].header && ext[k].hash == slots[k - 1].hash;
    assert Named(ext[y + 1], ext[0].header.name);
    if IsHead(slots, n, p) {
      var i := p.index + n;
      forall j | i + 1 < j < |ext| ensures !Named(ext[j], ext[i + 1].header.name) {
        assert !Named(slots[j - 1], slots[i].header.name);
      }
    }
    if IsHead(ext, n + 1, p) {
      var i := p.index + n;
      assert i >= 0;
      forall j | i < j < |slots| ensures !Named(slots[j], slots[i].header.name) {
        assert !Named(ext[j + 1], ext[i + 1].header.name);
      }
    }
  }

  // ----- room for a pending header ---------------------------------------------

  /** The structure while a header, to become the slot young, waits for room.  prev is
      the youngest slot of its name, if any; orphan says that prev has been evicted, and
      with it the last slot of the name, whose bucket now leads to young. */
  ghost predicate Waiting(a: Buckets, slots: seq<Slot>, n: int, hash: Name -> nat,
                          prev: Option<int>, young: Slot, orphan: bool)
  {
    && (prev.Some? ==> young.next.None? && young.hash == hash(young.header.name))
    && if orphan then
         && prev.Some?
         && prev.value + n >= |slots|
         && Struct(a, [young] + slots, n + 1, hash)
       else
         && Struct(a, slots, n, hash)
         && (prev.Some? ==>
               && 0 <= prev.value + n < |slots|
               && Named(slots[prev.value + n], young.header.name)
               && slots[prev.value + n].next.None?)
  }

  /** The slots the buckets describe: the pending one included once it is orphaned. */
  function Described(slots: seq<Slot>, young: Slot, orphan: bool): (r: seq<Slot>) {
    if orphan then [young] + slots else slots
  }

  lemma WaitingRelinks(a: Buckets, slots: seq<Slot>, n: int, hash: Name -> nat,
                       prev: Option<int>, young: Slot, orphan: bool, q: nat)
    requires Waiting(a, slots, n, hash, prev, young, orphan) && |slots| > 0 && q < |a|
    requires var last := slots[|slots| - 1];
             a[q] == Some(Pos(|slots| - 1 - n, last.hash)) && last.next.Some?
    ensures var last := slots[|slots| - 1];
            var a' := a[q := Some(Pos(last.next.value, last.hash))];
            Waiting(a', slots[..|slots| - 1], n, hash, prev, young, orphan) && NoHigher(a', a)
  {
    var ext := Described(slots, young, orphan);
    var m := if orphan then n + 1 else n;
    var last := slots[|slots| - 1];
    EvictRelinks(a, ext, m, hash, q);
    SameHashKeepsOrder(a, q, Pos(last.next.value, last.hash));
    assert ext[..|ext| - 1] == Described(slots[..|slots| - 1], young, orphan);
  }

  lemma WaitingHandsOver(a: Buckets, slots: seq<Slot>, n: int, hash: Name -> nat,
                         prev: Option<int>, young: Slot, orphan: bool, q: nat)
    requires Waiting(a, slots, n, hash, prev, young, orphan) && |slots| > 0 && q < |a|
    requires var last := slots[|slots| - 1];
             a[q] == Some(Pos(|slots| - 1 - n, last.hash)) && last.next.None? && prev == Some(|slots| - 1 - n)
    ensures var a' := a[q := Some(Pos(-(n + 1), slots[|slots| - 1].hash))];
            Waiting(a', slots[..|slots| - 1], n, hash, prev, young, true) && NoHigher(a', a)
  {
    var last := slots[|slots| - 1];
    EvictHandsOver(a, slots, n, hash, q, young);
    SameHashKeepsOrder(a, q, Pos(-(n + 1), last.hash));
  }

  lemma WaitingRemoves(a: Buckets, a': Buckets, slots: seq<Slot>, n: int, hash: Name -> nat,
                       prev: Option<int>, young: Slot, orphan: bool)
    requires Waiting(a, slots, n, hash, prev, young, orphan) && |slots| > 0
    requires var last := slots[|slots| - 1];
             last.next.None? && prev != Some(|slots| - 1 - n) && |a'| == |a| && Ordered(a') &&
             multiset(a') == multiset(a) - multiset{Some(Pos(|slots| - 1 - n, last.hash))} + multiset{None}
    ensures Waiting(a', slots[..|slots| - 1], n, hash, prev, young, orphan)
  {
    var ext := Described(slots, young, orphan);
    var m := if orphan then n + 1 else n;
    EvictRemoves(a, a', ext, m, hash);
    assert ext[..|ext| - 1] == Described(slots[..|slots| - 1], young, orphan);
  }
}
