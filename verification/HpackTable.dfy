/** The operations of the encoder's dynamic table (src/hpack/table.rs).  The probe loops
    and shifts work on the representation held in local variables; the class at the end
    is the object whose fields they are. */
module HpackTable {
  import opened Prelude
  import opened HpackHeader
  import opened HpackFifo
  import opened RobinHood
  import opened RobinHoodGrow
  import opened HpackSlots

  /** The bucket that leads to a name, if any slot has it. */
  lemma FindHead(a: Buckets, slots: seq<Slot>, n: int, hash: Name -> nat, name: Name) returns (q: Option<nat>)
    requires Struct(a, slots, n, hash)
    ensures q.None? ==> forall i :: 0 <= i < |slots| ==> !Named(slots[i], name)
    ensures q.Some? ==> q.value < |a| && a[q.value].Some? && a[q.value].value.hash == hash(name)
                        && IsHead(slots, n, a[q.value].value) && Named(slots[a[q.value].value.index + n], name)
  {
    var i := |slots|;
    while i > 0 && !Named(slots[i - 1], name)
      invariant 0 <= i <= |slots|
      invariant forall j :: i <= j < |slots| ==> !Named(slots[j], name)
    {
      i := i - 1;
    }
    if i == 0 {
      return None;
    }
    var b := HeadHasBucket(a, slots, n, Pos(i - 1 - n, slots[i - 1].hash));
    q := Some(b);
  }

  /** The fields of the table, apart from its limit and the hash function. */
  datatype Rep = Rep(indices: Buckets, slots: seq<Slot>, inserted: nat, size: int)

  ghost predicate Wf(t: Rep, hash: Name -> nat) {
    match t
    case Rep(a, slots, n, _) => Struct(a, slots, n, hash)
  }

  ghost predicate WaitingRep(t: Rep, hash: Name -> nat, prev: Option<int>, young: Slot, orphan: bool) {
    match t
    case Rep(a, slots, n, _) => Waiting(a, slots, n, hash, prev, young, orphan)
  }

  /** src/hpack/table.rs:408-429 */
  method RemovePhaseTwo(a0: Buckets, probe0: nat, ghost removed: Pos, ghost e: nat, ghost was: Buckets) returns (a: Buckets)
    requires Hole(a0, probe0, removed, was)
    requires e < |was| && e != probe0 && was[e].None?
    ensures Ordered(a) && NoHigher(a, was)
    ensures multiset(a) == multiset(a0)
  {
    a := a0;
    var lastProbe: nat, probe: nat := probe0, Next(|a|, probe0);
    ghost var phantom := removed;
    while a[probe].Some? && ProbeDistance(|a|, a[probe].value.hash, probe) > 0
      invariant Hole(a, lastProbe, phantom, was)
      invariant lastProbe != e && probe == Next(|a|, lastProbe)
      invariant multiset(a) == multiset(a0)
      decreases Steps(|was|, probe, e)
    {
      assert Displacement(a[lastProbe := Some(phantom)], e) <= Displacement(was, e);
      HoleMoves(a, lastProbe, phantom, was);
      phantom := a[probe].value;
      a := a[lastProbe := a[probe]][probe := None];
      lastProbe, probe := probe, Next(|a|, probe);
    }
    HoleStays(a, lastProbe, phantom, was);
  }

  /** The probe loop of src/hpack/table.rs:383-402: finds the bucket of a position. */
  method FindBucket(a: Buckets, posIdx: int, h: nat, ghost target: nat) returns (probe: nat)
    requires Ordered(a) && target < |a| && a[target] == Some(Pos(posIdx, h))
    ensures probe < |a| && a[probe].Some? && a[probe].value.index == posIdx
  {
    probe := DesiredPos(|a|, h);
    ghost var k: nat := 0;
    Reachable(a, target, 0);
    while a[probe].value.index != posIdx
      invariant k <= Displacement(a, target)
      invariant probe == Ahead(|a|, DesiredPos(|a|, h), k)
      invariant a[probe].Some?
      decreases Displacement(a, target) - k
    {
      k := k + 1;
      probe := Next(|a|, probe);
      Reachable(a, target, k);
    }
  }

  /** src/hpack/table.rs:361-405 */
  method Evict(t0: Rep, ghost hash: Name -> nat, prev: Option<int>, ghost young: Slot, ghost orphan: bool)
    returns (t: Rep, ghost orphan': bool)
    requires WaitingRep(t0, hash, prev, young, orphan) && |t0.slots| > 0
    ensures WaitingRep(t, hash, prev, young, orphan')
    ensures t.slots == t0.slots[..|t0.slots| - 1] && t.inserted == t0.inserted
    ensures t.size == t0.size - Len(t0.slots[|t0.slots| - 1].header)
    ensures NoHigher(t.indices, t0.indices)
  {
    var slot := t0.slots[|t0.slots| - 1];
    var probe := BucketOfOldest(t0, hash, prev, young, orphan);
    var a;
    a, orphan' := FreeOldest(t0, hash, prev, young, orphan, probe);
    t := Rep(a, t0.slots[..|t0.slots| - 1], t0.inserted, t0.size - Len(slot.header));
  }

  /** The oldest slot leads its chain, so a bucket has its position. */
  method BucketOfOldest(t: Rep, ghost hash: Name -> nat, ghost prev: Option<int>, ghost young: Slot, ghost orphan: bool)
    returns (probe: nat)
    requires WaitingRep(t, hash, prev, young, orphan) && |t.slots| > 0
    ensures OldestBucket(t, probe)
  {
    var posIdx := |t.slots| - 1 - t.inserted;
    var slot := t.slots[|t.slots| - 1];
    ghost var ext, m := Described(t.slots, young, orphan), if orphan then t.inserted + 1 else t.inserted;
    LastIsHead(ext, m);
    ghost var target := HeadHasBucket(t.indices, ext, m, Pos(posIdx, slot.hash));
    probe := FindBucket(t.indices, posIdx, slot.hash, target);
    BucketIsHead(t.indices, ext, m, probe);
  }

  ghost predicate OldestBucket(t: Rep, probe: nat) {
    match t
    case Rep(a, slots, n, _) =>
      |slots| > 0 && probe < |a| && a[probe] == Some(Pos(|slots| - 1 - n, slots[|slots| - 1].hash))
  }

  /** The bucket goes to the next slot of the name, to the entry about to be inserted, or is
      closed. */
  method FreeOldest(t: Rep, ghost hash: Name -> nat, prev: Option<int>, ghost young: Slot, ghost orphan: bool, probe: nat)
    returns (a: Buckets, ghost orphan': bool)
    requires WaitingRep(t, hash, prev, young, orphan) && OldestBucket(t, probe)
    ensures Waiting(a, t.slots[..|t.slots| - 1], t.inserted, hash, prev, young, orphan')
    ensures NoHigher(a, t.indices)
  {
    var slots, n: int := t.slots, t.inserted;
    var slot, pos := slots[|slots| - 1], t.indices[probe].value;
    a, orphan' := t.indices, orphan;
    if slot.next.Some? {
      WaitingRelinks(a, slots, n, hash, prev, young, orphan, probe);
      a := a[probe := Some(pos.(index := slot.next.value))];
    } else if prev == Some(pos.index) {
      WaitingHandsOver(a, slots, n, hash, prev, young, orphan, probe);
      a := a[probe := Some(pos.(index := -(n + 1)))];
      orphan' := true;
    } else {
      a := CloseBucket(t, hash, prev, young, orphan, probe);
    }
  }

  method CloseBucket(t: Rep, ghost hash: Name -> nat, ghost prev: Option<int>, ghost young: Slot, ghost orphan: bool, probe: nat)
    returns (a: Buckets)
    requires WaitingRep(t, hash, prev, young, orphan) && OldestBucket(t, probe)
    requires t.slots[|t.slots| - 1].next.None? && prev != Some(t.indices[probe].value.index)
    ensures Waiting(a, t.slots[..|t.slots| - 1], t.inserted, hash, prev, young, orphan)
    ensures NoHigher(a, t.indices)
  {
    var pos := t.indices[probe].value;
    ghost var ext, m := Described(t.slots, young, orphan), if orphan then t.inserted + 1 else t.inserted;
    ghost var e := FreeBucket(t.indices, ext, m, hash);
    a := t.indices[probe := None];
    assert t.indices == a[probe := Some(pos)];
    a := RemovePhaseTwo(a, probe, pos, e, t.indices);
    WaitingRemoves(t.indices, a, t.slots, t.inserted, hash, prev, young, orphan);
  }

  /** src/hpack/table.rs:350-359, with pending octets already counted in the size. */
  method Converge(t0: Rep, maxSize: nat, ghost hash: Name -> nat, prev: Option<int>, ghost young: Slot, ghost pending: nat)
    returns (t: Rep, evicted: bool, ghost orphan: bool)
    requires WaitingRep(t0, hash, prev, young, false)
    requires t0.size == SlotsSize(t0.slots) + pending && pending <= maxSize
    ensures WaitingRep(t, hash, prev, young, orphan)
    ensures t.slots == EvictSlots(t0.slots, maxSize - pending) && t.inserted == t0.inserted
    ensures t.size == SlotsSize(t.slots) + pending <= maxSize
    ensures NoHigher(t.indices, t0.indices)
    ensures !evicted ==> t == t0
  {
    t, evicted, orphan := t0, false, false;
    while t.size > maxSize
      invariant WaitingRep(t, hash, prev, young, orphan)
      invariant t.size == SlotsSize(t.slots) + pending
      invariant EvictSlots(t.slots, maxSize - pending) == EvictSlots(t0.slots, maxSize - pending)
      invariant t.inserted == t0.inserted
      invariant NoHigher(t.indices, t0.indices)
      invariant !evicted ==> t == t0
      decreases |t.slots|
    {
      evicted := true;
      ghost var was := t;
      t, orphan := Evict(t, hash, prev, young, orphan);
      NoHigherTransitive(t.indices, was.indices, t0.indices);
    }
  }

  /** src/hpack/table.rs:296-310: puts an entry into a bucket, pushing what was there one
      bucket on, and so forth up to the first free bucket. */
  method PlaceAndShift(a0: Buckets, probe0: nat, x: Pos, ghost e: nat) returns (a: Buckets)
    requires Pushes(a0, probe0, x) && e < |a0| && a0[e].None?
    ensures |a| == |a0| && Ordered(a)
    ensures multiset(a) + multiset{None} == multiset(a0) + multiset{Some(x)}
  {
    var prev := Some(x);
    var probe: nat := probe0;
    a := a0;
    while a[probe].Some?
      invariant |a| == |a0| && prev.Some? && Pushes(a, probe, prev.value) && a[e].None?
      invariant multiset(a) + multiset{prev} == multiset(a0) + multiset{Some(x)}
      decreases Steps(|a|, probe, e)
    {
      PushMovesOn(a, probe, prev.value, e);
      UpdateEntries(a, probe, prev);
      a, prev := a[probe := prev], a[probe];
      probe := Next(|a|, probe);
    }
    RaiseKeepsOrder(a, probe, prev.value);
    UpdateEntries(a, probe, prev);
    a := a[probe := prev];
  }

  /** src/hpack/table.rs:270-288: after evictions the free or poorer place found by the
      probe may have moved towards the desired bucket. */
  method WalkBack(a: Buckets, h: nat, dist0: nat, probe0: nat) returns (dist: nat, probe: nat)
    requires |a| >= 2 && probe0 < |a| && ProbeDistance(|a|, h, probe0) == dist0
    requires Displacement(a, probe0) < dist0
    ensures probe < |a| && ProbeDistance(|a|, h, probe) == dist
    ensures Displacement(a, probe) < dist <= Displacement(a, Prev(|a|, probe)) + 1
  {
    dist, probe := dist0, probe0;
    while dist != 0
      invariant probe < |a| && ProbeDistance(|a|, h, probe) == dist
      invariant Displacement(a, probe) < dist
    {
      var back := Prev(|a|, probe);
      if a[back].Some? {
        var theirDist := ProbeDistance(|a|, a[back].value.hash, back);
        if theirDist < dist - 1 {
          probe := back;
          dist := dist - 1;
        } else {
          break;
        }
      } else {
        probe := back;
        dist := dist - 1;
      }
    }
  }

  /** A table at rest: structure intact, size counted and within the limit. */
  ghost predicate Ready(t: Rep, maxSize: nat, hash: Name -> nat) {
    match t
    case Rep(a, slots, n, size) => Struct(a, slots, n, hash) && size == SlotsSize(slots) <= maxSize
  }

  ghost function Fifo(t: Rep, maxSize: nat): (r: DynTable) {
    DynTable(Headers(t.slots), maxSize)
  }

  /** slots has the headers of [young] + rest. */
  ghost predicate SameHeaders(slots: seq<Slot>, young: Slot, rest: seq<Slot>) {
    && |slots| == |rest| + 1
    && slots[0].header == young.header
    && forall i :: 0 <= i < |rest| ==> slots[i + 1].header == rest[i].header
  }

  /** After an insertion the slots have the headers of the new one in front of what
      eviction leaves, links being another matter, and the size says so. */
  ghost predicate Pushed(t: Rep, was: seq<Slot>, maxSize: nat, young: Slot) {
    match t
    case Rep(_, slots, _, size) =>
      var rest := EvictSlots(was, maxSize - Len(young.header));
      SameHeaders(slots, young, rest) && size == Len(young.header) + SlotsSize(rest) <= maxSize
  }

  lemma PlainPush(t: Rep, was: seq<Slot>, maxSize: nat, young: Slot, rest: seq<Slot>)
    requires rest == EvictSlots(was, maxSize - Len(young.header))
    requires t.slots == [young] + rest
    requires t.size == SlotsSize(rest) + Len(young.header) <= maxSize
    ensures Pushed(t, was, maxSize, young)
  {
  }

  lemma LinkedPush(t: Rep, was: seq<Slot>, maxSize: nat, young: Slot, rest: seq<Slot>, y: nat, n: int)
    requires rest == EvictSlots(was, maxSize - Len(young.header)) && y < |rest| + 1
    requires t.slots == LinkTo([young] + rest, y, n)
    requires t.size == SlotsSize(rest) + Len(young.header) <= maxSize
    ensures Pushed(t, was, maxSize, young)
  {
    LinkKeepsHeaders(young, rest, y, n);
  }

  lemma LinkKeepsHeaders(young: Slot, rest: seq<Slot>, y: nat, n: int)
    requires y < |rest| + 1
    ensures SameHeaders(LinkTo([young] + rest, y, n), young, rest)
  {
  }

  lemma SameHeadersIsPush(slots: seq<Slot>, young: Slot, rest: seq<Slot>)
    requires SameHeaders(slots, young, rest)
    ensures Headers(slots) == [young.header] + Headers(rest)
  {
  }

  lemma PushedSize(was: seq<Slot>, slots: seq<Slot>, maxSize: nat, young: Slot)
    requires SameHeaders(slots, young, EvictSlots(was, maxSize - Len(young.header)))
    ensures SlotsSize(slots) == Len(young.header) + SlotsSize(EvictSlots(was, maxSize - Len(young.header)))
  {
    SlotsSizePush(slots, young, EvictSlots(was, maxSize - Len(young.header)));
  }

  lemma PushedHeaders(was: seq<Slot>, slots: seq<Slot>, budget: int, young: Slot)
    requires SameHeaders(slots, young, EvictSlots(was, budget))
    ensures Headers(slots) == [young.header] + EvictTo(Headers(was), budget)
  {
    EvictSlotsIsEvictTo(was, budget);
    SameHeadersIsPush(slots, young, EvictSlots(was, budget));
  }

  /** Pushing a slot onto what eviction leaves is the insertion of section 4.4. */
  lemma PushIsInsert(was: seq<Slot>, slots: seq<Slot>, maxSize: nat, young: Slot)
    requires Len(young.header) <= maxSize
    requires SameHeaders(slots, young, EvictSlots(was, maxSize - Len(young.header)))
    ensures DynTable(Headers(slots), maxSize) == Insert(DynTable(Headers(was), maxSize), young.header)
  {
    PushedHeaders(was, slots, maxSize - Len(young.header), young);
    InsertPushes(Headers(was), maxSize, young.header, Headers(slots));
  }

  ghost predicate Absent(slots: seq<Slot>, name: Name) {
    forall i :: 0 <= i < |slots| ==> !Named(slots[i], name)
  }

  /** No slot has the header's name, and bucket probe, dist from the desired one, is
      where the header's entry belongs. */
  ghost predicate FreeFor(t: Rep, name: Name, h: nat, probe: nat, dist: nat) {
    match t
    case Rep(a, slots, _, _) =>
      && Absent(slots, name)
      && |a| > 0 && probe < |a|
      && ProbeDistance(|a|, h, probe) == dist
      && Displacement(a, probe) < dist <= Displacement(a, Prev(|a|, probe)) + 1
  }

  /** Bucket probe leads to the oldest slot of the name. */
  ghost predicate LeadsTo(t: Rep, name: Name, probe: nat) {
    match t
    case Rep(a, slots, n, _) =>
      && probe < |a| && a[probe].Some?
      && IsHead(slots, n, a[probe].value)
      && Named(slots[a[probe].value.index + n], name)
  }

  lemma NothingNamed(t: Rep, maxSize: nat, header: Header)
    requires Absent(t.slots, header.name)
    ensures forall i :: 0 <= i < |Fifo(t, maxSize).entries| ==> Fifo(t, maxSize).entries[i].name != header.name
  {
    forall i | 0 <= i < |Fifo(t, maxSize).entries|
      ensures Fifo(t, maxSize).entries[i].name != header.name
    {
      assert !Named(t.slots[i], header.name);
    }
  }

  lemma VacantUnchanged(t: Rep, maxSize: nat, header: Header, statik: Option<(nat, bool)>)
    requires Absent(t.slots, header.name) && IsSensitive(header)
    ensures ScanDynamic(Fifo(t, maxSize), header, statik) == (NewIndex(statik, header), Fifo(t, maxSize))
  {
    NothingNamed(t, maxSize, header);
    ScanAbsent(Fifo(t, maxSize), header, statik);
  }

  lemma VacantInserted(t0: Rep, t: Rep, maxSize: nat, hash: Name -> nat, young: Slot, statik: Option<(nat, bool)>)
    requires Absent(t0.slots, young.header.name) && !IsSensitive(young.header)
    requires Len(young.header) <= maxSize && Pushed(t, t0.slots, maxSize, young)
    requires Wf(t, hash)
    ensures ScanDynamic(Fifo(t0, maxSize), young.header, statik) ==
              (if statik.Some? then InsertedValue(statik.value.0, 0) else Inserted(0), Fifo(t, maxSize))
    ensures Ready(t, maxSize, hash)
  {
    NothingNamed(t0, maxSize, young.header);
    ScanAbsent(Fifo(t0, maxSize), young.header, statik);
    PushedSize(t0.slots, t.slots, maxSize, young);
    PushIsInsert(t0.slots, t.slots, maxSize, young);
  }

  /** src/hpack/table.rs:253-319 */
  method IndexVacant(t0: Rep, maxSize: nat, ghost hash: Name -> nat, header: Header, h: nat,
                     dist0: nat, probe0: nat, statik: Option<(nat, bool)>) returns (t: Rep, r: Index)
    requires Ready(t0, maxSize, hash) && Len(header) <= maxSize && h == hash(header.name)
    requires FreeFor(t0, header.name, h, probe0, dist0)
    requires !IsSensitive(header) ==> |t0.slots| < UsableCapacity(|t0.indices|)
    ensures Ready(t, maxSize, hash)
    ensures (r, Fifo(t, maxSize)) == ScanDynamic(Fifo(t0, maxSize), header, statik)
  {
    if IsSensitive(header) {
      VacantUnchanged(t0, maxSize, header, statik);
      return t0, NewIndex(statik, header);
    }
    t := InsertFirst(t0, maxSize, hash, header, h, dist0, probe0);
    VacantInserted(t0, t, maxSize, hash, Slot(h, header, None), statik);
    r := if statik.Some? then InsertedValue(statik.value.0, 0) else Inserted(0);
  }

  /** src/hpack/table.rs:270-310: inserts a header whose name no slot has. */
  method InsertFirst(t0: Rep, maxSize: nat, ghost hash: Name -> nat, header: Header, h: nat,
                     dist0: nat, probe0: nat) returns (t: Rep)
    requires Ready(t0, maxSize, hash) && Len(header) <= maxSize && h == hash(header.name)
    requires FreeFor(t0, header.name, h, probe0, dist0) && |t0.slots| < UsableCapacity(|t0.indices|)
    ensures Wf(t, hash)
    ensures Pushed(t, t0.slots, maxSize, Slot(h, header, None))
  {
    var young := Slot(h, header, None);
    var t1, evicted, _ := Converge(t0.(size := t0.size + Len(header)), maxSize, hash, None, young, Len(header));
    StillFreeFor(t0, t1, header.name, h, probe0, dist0);
    var dist, probe := dist0, probe0;
    if evicted {
      dist, probe := WalkBack(t1.indices, h, dist, probe);
    }
    t := PlaceFirst(t1, hash, young, dist, probe);
    PlainPush(t, t0.slots, maxSize, young, t1.slots);
  }

  /** Eviction takes nothing away from the place found, though it may not be the best. */
  lemma StillFreeFor(t0: Rep, t: Rep, name: Name, h: nat, probe: nat, dist: nat)
    requires FreeFor(t0, name, h, probe, dist)
    requires t.slots <= t0.slots && NoHigher(t.indices, t0.indices)
    ensures Absent(t.slots, name)
    ensures probe < |t.indices| && ProbeDistance(|t.indices|, h, probe) == dist && Displacement(t.indices, probe) < dist
    ensures t.indices == t0.indices ==> FreeFor(t, name, h, probe, dist)
  {
    assert Displacement(t.indices, probe) <= Displacement(t0.indices, probe);
    forall i | 0 <= i < |t.slots| ensures !Named(t.slots[i], name) { assert !Named(t0.slots[i], name); }
  }

  /** src/hpack/table.rs:292-310 */
  method PlaceFirst(t0: Rep, ghost hash: Name -> nat, young: Slot, ghost dist: nat, probe: nat) returns (t: Rep)
    requires Wf(t0, hash) && young.next.None? && young.hash == hash(young.header.name)
    requires FreeFor(t0, young.header.name, young.hash, probe, dist)
    requires |t0.slots| + 1 <= UsableCapacity(|t0.indices|)
    ensures Wf(t, hash) && t.slots == [young] + t0.slots && t.size == t0.size
  {
    ghost var e := FreeBucket(t0.indices, t0.slots, t0.inserted, hash);
    var n: int := t0.inserted + 1;
    var a := PlaceAndShift(t0.indices, probe, Pos(-n, young.hash), e);
    InsertUnseen(t0.indices, a, t0.slots, t0.inserted, hash, young);
    t := Rep(a, [young] + t0.slots, t0.inserted + 1, t0.size);
  }

  /** No slot from position i on, to the oldest, matches the header. */
  ghost predicate NoOlderMatch(slots: seq<Slot>, i: int, header: Header) {
    forall j :: i <= j < |slots| && 0 <= j ==> !(Named(slots[j], header.name) && ValueEq(slots[j].header, header))
  }

  /** Slot k is the youngest of the header's name and no slot of the name matches. */
  ghost predicate ChainEnd(t: Rep, header: Header, k: int) {
    match t
    case Rep(_, slots, n, _) =>
      && 0 <= k < |slots|
      && Named(slots[k], header.name)
      && NoOlderMatch(slots, k, header)
      && slots[k].next.None?
      && Linked(slots, n, k)
  }

  /** Slot k is the oldest full match. */
  ghost predicate ChainMatch(t: Rep, header: Header, k: int) {
    match t
    case Rep(_, slots, _, _) =>
      && 0 <= k < |slots|
      && Named(slots[k], header.name) && ValueEq(slots[k].header, header)
      && NoOlderMatch(slots, k + 1, header)
  }

  /** src/hpack/table.rs:204-216: follows the links until a full match or the youngest
      slot of the name. */
  method WalkChain(t: Rep, ghost hash: Name -> nat, header: Header, index0: int, ghost probe: nat) returns (index: int, matched: bool)
    requires Wf(t, hash)
    requires LeadsTo(t, header.name, probe) && t.indices[probe].value.index == index0
    ensures if matched then ChainMatch(t, header, index + t.inserted) else ChainEnd(t, header, index + t.inserted)
  {
    index := index0;
    while true
      invariant 0 <= index + t.inserted < |t.slots| && Named(t.slots[index + t.inserted], header.name)
      invariant NoOlderMatch(t.slots, index + t.inserted + 1, header)
      decreases index + t.inserted
    {
      var realIdx := index + t.inserted;
      if ValueEq(t.slots[realIdx].header, header) {
        return index, true;
      }
      assert Linked(t.slots, t.inserted, realIdx);
      if t.slots[realIdx].next.None? {
        return index, false;
      }
      index := t.slots[realIdx].next.value;
    }
  }

  lemma OccupiedMatches(t: Rep, maxSize: nat, header: Header, statik: Option<(nat, bool)>, k: nat)
    requires ChainMatch(t, header, k)
    ensures ScanDynamic(Fifo(t, maxSize), header, statik) == (Indexed(k + DYN_OFFSET, header), Fifo(t, maxSize))
  {
    var f := Fifo(t, maxSize);
    forall j | k < j < |f.entries|
      ensures !(f.entries[j].name == header.name && ValueEq(f.entries[j], header))
    {
      assert !(Named(t.slots[j], header.name) && ValueEq(t.slots[j].header, header));
    }
    ScanMatches(f, header, statik, k);
  }

  lemma OccupiedUnmatched(t: Rep, maxSize: nat, header: Header, statik: Option<(nat, bool)>, k: nat)
    requires ChainEnd(t, header, k)
    ensures ScanDynamic(Fifo(t, maxSize), header, statik) ==
              if IsSensitive(header) then (NameIndexed(k + DYN_OFFSET, header), Fifo(t, maxSize))
              else (InsertedValue(if statik.Some? then statik.value.0 else k + DYN_OFFSET, 0), Insert(Fifo(t, maxSize), header))
  {
    var f := Fifo(t, maxSize);
    forall j | 0 <= j < k
      ensures f.entries[j].name != header.name
    {
      assert !Named(t.slots[j], t.slots[k].header.name);
    }
    forall j | k <= j < |f.entries|
      ensures !(f.entries[j].name == header.name && ValueEq(f.entries[j], header))
    {
      assert !(Named(t.slots[j], header.name) && ValueEq(t.slots[j].header, header));
    }
    ScanNamed(f, header, statik, k);
  }

  lemma OccupiedInserted(t0: Rep, t: Rep, maxSize: nat, hash: Name -> nat, young: Slot,
                         statik: Option<(nat, bool)>, k: nat)
    requires ChainEnd(t0, young.header, k) && !IsSensitive(young.header)
    requires Len(young.header) <= maxSize && Pushed(t, t0.slots, maxSize, young)
    requires Wf(t, hash)
    ensures ScanDynamic(Fifo(t0, maxSize), young.header, statik) ==
              (InsertedValue(if statik.Some? then statik.value.0 else k + DYN_OFFSET, 0), Fifo(t, maxSize))
    ensures Ready(t, maxSize, hash)
  {
    OccupiedUnmatched(t0, maxSize, young.header, statik, k);
    PushedSize(t0.slots, t.slots, maxSize, young);
    PushIsInsert(t0.slots, t.slots, maxSize, young);
  }

  /** src/hpack/table.rs:192-251 */
  method IndexOccupied(t0: Rep, maxSize: nat, ghost hash: Name -> nat, header: Header, h: nat,
                       index0: int, statik: Option<(nat, bool)>, ghost probe: nat) returns (t: Rep, r: Index)
    requires Ready(t0, maxSize, hash) && Len(header) <= maxSize && h == hash(header.name)
    requires !IsSensitive(header) ==> |t0.slots| < UsableCapacity(|t0.indices|)
    requires LeadsTo(t0, header.name, probe) && t0.indices[probe].value.index == index0
    ensures Ready(t, maxSize, hash)
    ensures (r, Fifo(t, maxSize)) == ScanDynamic(Fifo(t0, maxSize), header, statik)
  {
    var index, matched := WalkChain(t0, hash, header, index0, probe);
    var realIdx := index + t0.inserted;
    if matched {
      OccupiedMatches(t0, maxSize, header, statik, realIdx);
      return t0, Indexed(realIdx + DYN_OFFSET, header);
    }
    if IsSensitive(header) {
      OccupiedUnmatched(t0, maxSize, header, statik, realIdx);
      return t0, NameIndexed(realIdx + DYN_OFFSET, header);
    }
    t := InsertChained(t0, maxSize, hash, header, h, index);
    OccupiedInserted(t0, t, maxSize, hash, Slot(h, header, None), statik, realIdx);
    r := InsertedValue(if statik.Some? then statik.value.0 else realIdx + DYN_OFFSET, 0);
  }

  /** src/hpack/table.rs:224-238: inserts behind index, the youngest slot of the name. */
  method InsertChained(t0: Rep, maxSize: nat, ghost hash: Name -> nat, header: Header, h: nat, index: int)
    returns (t: Rep)
    requires Ready(t0, maxSize, hash) && Len(header) <= maxSize && h == hash(header.name)
    requires |t0.slots| < UsableCapacity(|t0.indices|)
    requires ChainEnd(t0, header, index + t0.inserted)
    ensures Wf(t, hash)
    ensures Pushed(t, t0.slots, maxSize, Slot(h, header, None))
  {
    var young := Slot(h, header, None);
    ChainEndWaits(t0, hash, young, index, t0.size + Len(header));
    var t1, _, orphan := Converge(t0.(size := t0.size + Len(header)), maxSize, hash, Some(index), young, Len(header));
    var n: int := t1.inserted + 1;
    var newRealIdx := index + n;
    t := Rep(t1.indices, [young] + t1.slots, t1.inserted + 1, t1.size);
    if newRealIdx < |t.slots| {
      RoomForLinked(t1, hash, young, index, orphan);
      t := t.(slots := LinkTo(t.slots, newRealIdx, n));
      LinkedPush(t, t0.slots, maxSize, young, t1.slots, newRealIdx, n);
    } else {
      RoomForOrphan(t1, hash, young, index, orphan);
      PlainPush(t, t0.slots, maxSize, young, t1.slots);
    }
  }

  lemma ChainEndWaits(t: Rep, hash: Name -> nat, young: Slot, index: int, size: int)
    requires Wf(t, hash) && ChainEnd(t, young.header, index + t.inserted)
    requires young.next.None? && young.hash == hash(young.header.name)
    ensures WaitingRep(t.(size := size), hash, Some(index), young, false)
  {
  }

  /** After eviction either index is gone, and the buckets describe the new slot already. */
  lemma RoomForOrphan(t: Rep, hash: Name -> nat, young: Slot, index: int, orphan: bool)
    requires WaitingRep(t, hash, Some(index), young, orphan) && index + t.inserted >= |t.slots|
    ensures Wf(Rep(t.indices, [young] + t.slots, t.inserted + 1, t.size), hash)
  {
  }

  /** Or it is still there, to be linked to the new slot. */
  lemma RoomForLinked(t: Rep, hash: Name -> nat, young: Slot, index: int, orphan: bool)
    requires WaitingRep(t, hash, Some(index), young, orphan) && index + t.inserted < |t.slots|
    requires |t.slots| + 1 <= UsableCapacity(|t.indices|)
    ensures 0 <= index + t.inserted
    ensures Wf(Rep(t.indices, LinkTo([young] + t.slots, index + t.inserted + 1, t.inserted + 1), t.inserted + 1, t.size), hash)
  {
    InsertSeen(t.indices, t.slots, t.inserted, hash, young, index + t.inserted);
  }

  /** src/hpack/table.rs:431-444 */
  method ReserveOne(t0: Rep, ghost maxSize: nat, ghost hash: Name -> nat) returns (t: Rep)
    requires Ready(t0, maxSize, hash)
    ensures Ready(t, maxSize, hash)
    ensures t.slots == t0.slots && |t.slots| < UsableCapacity(|t.indices|)
  {
    var len := |t0.slots|;
    t := t0;
    if len == UsableCapacity(|t0.indices|) {
      if len == 0 {
        t := t0.(indices := seq(8, _ => None));
        NothingStored(t.indices, t.inserted, hash);
      } else {
        ghost var e := FreeBucket(t0.indices, t0.slots, t0.inserted, hash);
        var a := Grow(t0.indices, e);
        t := t0.(indices := a);
        GrownStruct(t0, t, hash);
      }
    }
  }

  lemma NothingStored(a: Buckets, n: int, hash: Name -> nat)
    requires |a| == 0 || (|a| >= 8 && PowerOfTwo(|a|))
    requires forall b :: 0 <= b < |a| ==> a[b].None?
    ensures Struct(a, [], n, hash)
  {
    forall p: Pos
      ensures multiset(a)[Some(p)] == if IsHead([], n, p) then 1 else 0
    {
      assert Some(p) !in a;
    }
  }

  lemma GrownStruct(t0: Rep, t: Rep, hash: Name -> nat)
    requires Wf(t0, hash) && |t0.indices| > 0
    requires t.slots == t0.slots && t.inserted == t0.inserted
    requires |t.indices| == 2 * |t0.indices| && Ordered(t.indices)
    requires SameEntries(multiset(t.indices), multiset(t0.indices))
    ensures Wf(t, hash) && UsableCapacity(|t.indices|) > UsableCapacity(|t0.indices|)
  {
    assert PowerOfTwo(|t.indices|) by { assert |t.indices| / 2 == |t0.indices|; }
    forall p: Pos
      ensures multiset(t.indices)[Some(p)] == if IsHead(t.slots, t.inserted, p) then 1 else 0
    {
      assert multiset(t0.indices)[Some(p)] == if IsHead(t0.slots, t0.inserted, p) then 1 else 0;
    }
  }

  /** The probe loop has passed dist buckets and not the one, q, that leads to the name,
      nor the free bucket e. */
  ghost predicate Probing(t: Rep, name: Name, h: nat, probe: nat, dist: nat, q: Option<nat>, e: nat) {
    match t
    case Rep(a, slots, n, _) =>
      && e < |a| && a[e].None?
      && dist <= Steps(|a|, DesiredPos(|a|, h), e)
      && probe == Ahead(|a|, DesiredPos(|a|, h), dist)
      && dist <= Displacement(a, Prev(|a|, probe)) + 1
      && (q.None? ==> Absent(slots, name))
      && (q.Some? ==>
            && q.value < |a| && a[q.value].Some? && a[q.value].value.hash == h
            && LeadsTo(t, name, q.value)
            && dist <= Displacement(a, q.value))
  }

  lemma ProbeStarts(t: Rep, hash: Name -> nat, name: Name, h: nat) returns (q: Option<nat>, e: nat)
    requires Wf(t, hash) && |t.indices| > 0 && h == hash(name)
    ensures Probing(t, name, h, DesiredPos(|t.indices|, h), 0, q, e)
  {
    q := FindHead(t.indices, t.slots, t.inserted, hash, name);
    e := FreeBucket(t.indices, t.slots, t.inserted, hash);
  }

  lemma ProbeStops(t: Rep, hash: Name -> nat, name: Name, h: nat, probe: nat, dist: nat, q: Option<nat>, e: nat)
    requires Wf(t, hash) && Probing(t, name, h, probe, dist, q, e)
    requires Displacement(t.indices, probe) < dist || t.indices[probe].None?
    ensures FreeFor(t, name, h, probe, dist)
  {
    if q.Some? {
      Reachable(t.indices, q.value, dist);
    }
  }

  lemma ProbeGoesOn(t: Rep, hash: Name -> nat, name: Name, h: nat, probe: nat, dist: nat, q: Option<nat>, e: nat)
    requires Wf(t, hash) && Probing(t, name, h, probe, dist, q, e)
    requires t.indices[probe].Some? && Displacement(t.indices, probe) >= dist
    requires !(t.indices[probe].value.hash == h && LeadsTo(t, name, probe))
    ensures Probing(t, name, h, Next(|t.indices|, probe), dist + 1, q, e)
    ensures dist < |t.indices|
  {
    AheadStep(|t.indices|, DesiredPos(|t.indices|, h), dist);
  }

  /** src/hpack/table.rs:162-189: the probe loop, up to the bucket that leads to the name
      or the one where it would have to be. */
  method Probe(t: Rep, ghost hash: Name -> nat, header: Header, h: nat) returns (probe: nat, dist: nat, found: bool)
    requires Wf(t, hash) && |t.indices| > 0 && h == hash(header.name)
    ensures if found then LeadsTo(t, header.name, probe) else FreeFor(t, header.name, h, probe, dist)
  {
    ghost var q, e := ProbeStarts(t, hash, header.name, h);
    probe, dist := DesiredPos(|t.indices|, h), 0;
    while true
      invariant probe < |t.indices| && Probing(t, header.name, h, probe, dist, q, e)
      decreases |t.indices| - dist
    {
      if t.indices[probe].None? {
        ProbeStops(t, hash, header.name, h, probe, dist, q, e);
        return probe, dist, false;
      }
      var pos := t.indices[probe].value;
      BucketIsHead(t.indices, t.slots, t.inserted, probe);
      if ProbeDistance(|t.indices|, pos.hash, probe) < dist {
        ProbeStops(t, hash, header.name, h, probe, dist, q, e);
        return probe, dist, false;
      }
      if pos.hash == h && t.slots[pos.index + t.inserted].header.name == header.name {
        return probe, dist, true;
      }
      ProbeGoesOn(t, hash, header.name, h, probe, dist, q, e);
      probe, dist := Next(|t.indices|, probe), dist + 1;
    }
  }

  /** src/hpack/table.rs:147-190 */
  method IndexDynamic(t0: Rep, maxSize: nat, hash: Name -> nat, header: Header, statik: Option<(nat, bool)>)
    returns (t: Rep, r: Index)
    requires Ready(t0, maxSize, hash) && Len(header) <= maxSize
    ensures Ready(t, maxSize, hash)
    ensures (r, Fifo(t, maxSize)) == ScanDynamic(Fifo(t0, maxSize), header, statik)
  {
    t := t0;
    if Len(header) + t.size < maxSize || !IsSensitive(header) {
      t := ReserveOne(t, maxSize, hash);
    }
    if |t.indices| == 0 {
      VacantUnchanged(t, maxSize, header, statik);
      return t, NewIndex(statik, header);
    }
    var h := hash(header.name);
    var probe, dist, found := Probe(t, hash, header, h);
    if found {
      t, r := IndexOccupied(t, maxSize, hash, header, h, t.indices[probe].value.index, statik, probe);
    } else {
      t, r := IndexVacant(t, maxSize, hash, header, h, dist, probe, statik);
    }
  }

  /** src/hpack/table.rs:332-343 */
  method ResizeRep(t0: Rep, ghost was: nat, max: nat, ghost hash: Name -> nat) returns (t: Rep)
    requires Ready(t0, was, hash)
    ensures Ready(t, max, hash)
    ensures Fifo(t, max) == Resize(Fifo(t0, was), max)
  {
    EvictSlotsIsEvictTo(t0.slots, max);
    if max == 0 {
      t := Rep(seq(|t0.indices|, _ => None), [], 0, 0);
      NothingStored(t.indices, 0, hash);
      assert Headers(t.slots) == [];
      assert EvictTo(Headers(t0.slots), 0) == [];
    } else {
      ghost var nothing := Slot(0, Header(Authority, [], false), None);
      var t1, _, _ := Converge(t0, max, hash, None, nothing, 0);
      t := t1;
    }
  }

  /** The table object: Contents is all a user of it can tell apart. */
  class Table {
    var rep: Rep
    var maxSize: nat
    const hash: Name -> nat

    ghost predicate Valid()
      reads this
    {
      Ready(rep, maxSize, hash)
    }

    ghost function Contents(): (t: DynTable)
      reads this
    {
      Fifo(rep, maxSize)
    }

    constructor (maxSize: nat, hash: Name -> nat)
      ensures Valid() && Contents() == DynTable([], maxSize)
      ensures this.hash == hash
    {
      NothingStored([], 0, hash);
      rep := Rep([], [], 0, 0);
      this.maxSize := maxSize;
      this.hash := hash;
    }

    /** src/hpack/table.rs:120-145: the answer and the new contents are those of a linear
        scan, oldest entry first, of the list of section 2.3.2 of RFC 7541. */
    method Index(header: Header) returns (r: Index)
      requires Valid()
      modifies this`rep
      ensures Valid()
      ensures (r, Contents()) == Scan(old(Contents()), header)
    {
      var statik := IndexStatic(header);
      if SkipValueIndex(header) {
        return NewIndex(statik, header);
      }
      if statik.Some? && statik.value.1 {
        return Indexed(statik.value.0, header);
      }
      if Len(header) * 4 > maxSize * 3 {
        return NewIndex(statik, header);
      }
      rep, r := IndexDynamic(rep, maxSize, hash, header, statik);
    }

    /** src/hpack/table.rs:103-108: what an answer stands for, while it is fresh. */
    method Resolve(index: Index) returns (h: Header)
      requires Valid()
      requires index.Inserted? || index.InsertedValue? ==> index.slot < |Contents().entries|
      ensures h == if index.Inserted? || index.InsertedValue? then Contents().entries[index.slot] else index.header
    {
      match index
      case Indexed(_, x) => h := x;
      case NameIndexed(_, x) => h := x;
      case NotIndexed(x) => h := x;
      case Inserted(slot) => h := rep.slots[slot].header;
      case InsertedValue(_, slot) => h := rep.slots[slot].header;
    }

    /** src/hpack/table.rs:332-343 */
    method Resize(max: nat)
      requires Valid()
      modifies this
      ensures Valid()
      ensures Contents() == HpackFifo.Resize(old(Contents()), max)
    {
      rep := ResizeRep(rep, maxSize, max, hash);
      maxSize := max;
    }
  }
}
