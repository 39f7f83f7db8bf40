/** The dynamic table as RFC 7541 describes it: a newest-first list with the sizes of
    section 4.1, and the answers a plain linear scan of it would give. */
module HpackFifo {
  import opened Prelude
  import opened HpackHeader

  datatype DynTable = DynTable(entries: seq<Header>, maxSize: nat)

  /** What the encoder learns about a header (src/hpack/table.rs:20-35). */
  datatype Index =
    | Indexed(idx: nat, header: Header)
    | NameIndexed(idx: nat, header: Header)
    | Inserted(slot: nat)
    | InsertedValue(idx: nat, slot: nat)
    | NotIndexed(header: Header)

  const DYN_OFFSET: nat := 62

  function Size(es: seq<Header>): (n: nat)
    ensures n >= 32 * |es|
  {
    if |es| == 0 then 0 else Size(es[..|es| - 1]) + Len(es[|es| - 1])
  }

  /** Drops oldest entries until the size is at most budget or nothing is left. */
  function EvictTo(es: seq<Header>, budget: int): (r: seq<Header>)
    ensures r <= es
    ensures r != [] ==> Size(r) <= budget
    ensures Size(es) <= budget ==> r == es
  {
    if |es| == 0 || Size(es) <= budget then es else EvictTo(es[..|es| - 1], budget)
  }

  /** Section 4.4 of RFC 7541: evict, then add unless the entry alone is too large. */
  function Insert(t: DynTable, h: Header): (r: DynTable) {
    var kept := EvictTo(t.entries, t.maxSize - Len(h));
    if Len(h) <= t.maxSize then t.(entries := [h] + kept) else t.(entries := kept)
  }

  lemma InsertIs(t: DynTable, h: Header, kept: seq<Header>)
    requires Len(h) <= t.maxSize && kept == EvictTo(t.entries, t.maxSize - Len(h))
    ensures Insert(t, h) == DynTable([h] + kept, t.maxSize)
  {
  }

  lemma InsertPushes(es: seq<Header>, maxSize: nat, h: Header, after: seq<Header>)
    requires Len(h) <= maxSize && after == [h] + EvictTo(es, maxSize - Len(h))
    ensures DynTable(after, maxSize) == Insert(DynTable(es, maxSize), h)
  {
    InsertIs(DynTable(es, maxSize), h, EvictTo(es, maxSize - Len(h)));
  }

  function Resize(t: DynTable, max: nat): (r: DynTable) {
    DynTable(EvictTo(t.entries, max), max)
  }

  ghost predicate Fits(t: DynTable) {
    Size(t.entries) <= t.maxSize
  }

  /** The oldest entry with the header's name and an equal value. */
  function OldestMatch(es: seq<Header>, h: Header): (r: Option<nat>)
    ensures r.Some? ==> r.value < |es| && es[r.value].name == h.name && ValueEq(es[r.value], h)
    ensures r.Some? ==> forall j :: r.value < j < |es| ==> !(es[j].name == h.name && ValueEq(es[j], h))
    ensures r.None? ==> forall j :: 0 <= j < |es| ==> !(es[j].name == h.name && ValueEq(es[j], h))
  {
    if |es| == 0 then None
    else if es[|es| - 1].name == h.name && ValueEq(es[|es| - 1], h) then Some(|es| - 1)
    else OldestMatch(es[..|es| - 1], h)
  }

  /** The youngest entry from position k on with the given name. */
  function YoungestNamed(es: seq<Header>, n: Name, k: nat): (r: Option<nat>)
    requires k <= |es|
    ensures r.Some? ==> k <= r.value < |es| && es[r.value].name == n
    ensures r.Some? ==> forall j :: k <= j < r.value ==> es[j].name != n
    ensures r.None? ==> forall j :: k <= j < |es| ==> es[j].name != n
    decreases |es| - k
  {
    if k == |es| then None
    else if es[k].name == n then Some(k)
    else YoungestNamed(es, n, k + 1)
  }

  function NewIndex(statik: Option<(nat, bool)>, h: Header): (r: Index) {
    match statik
    case None => NotIndexed(h)
    case Some((n, true)) => Indexed(n, h)
    case Some((n, false)) => NameIndexed(n, h)
  }

  /** The dynamic part of the answer, for a header that may be indexed. */
  function ScanDynamic(t: DynTable, h: Header, statik: Option<(nat, bool)>): (r: (Index, DynTable)) {
    var full := OldestMatch(t.entries, h);
    var named := YoungestNamed(t.entries, h.name, 0);
    if full.Some? then (Indexed(full.value + DYN_OFFSET, h), t)
    else if IsSensitive(h) then
      (if named.Some? then NameIndexed(named.value + DYN_OFFSET, h) else NewIndex(statik, h), t)
    else
      (if statik.Some? then InsertedValue(statik.value.0, 0)
       else if named.Some? then InsertedValue(named.value + DYN_OFFSET, 0)
       else Inserted(0),
       Insert(t, h))
  }

  lemma ScanAbsent(t: DynTable, h: Header, statik: Option<(nat, bool)>)
    requires forall i :: 0 <= i < |t.entries| ==> t.entries[i].name != h.name
    ensures ScanDynamic(t, h, statik) ==
              if IsSensitive(h) then (NewIndex(statik, h), t)
              else (if statik.Some? then InsertedValue(statik.value.0, 0) else Inserted(0), Insert(t, h))
  {
  }

  /** k is the oldest entry with the name and an equal value. */
  lemma ScanMatches(t: DynTable, h: Header, statik: Option<(nat, bool)>, k: nat)
    requires k < |t.entries| && t.entries[k].name == h.name && ValueEq(t.entries[k], h)
    requires forall j :: k < j < |t.entries| ==> !(t.entries[j].name == h.name && ValueEq(t.entries[j], h))
    ensures ScanDynamic(t, h, statik) == (Indexed(k + DYN_OFFSET, h), t)
  {
  }

  /** No entry matches fully and k is the youngest one with the name. */
  lemma ScanNamed(t: DynTable, h: Header, statik: Option<(nat, bool)>, k: nat)
    requires k < |t.entries| && t.entries[k].name == h.name
    requires forall j :: 0 <= j < k ==> t.entries[j].name != h.name
    requires forall j :: k <= j < |t.entries| ==> !(t.entries[j].name == h.name && ValueEq(t.entries[j], h))
    ensures ScanDynamic(t, h, statik) ==
              if IsSensitive(h) then (NameIndexed(k + DYN_OFFSET, h), t)
              else (InsertedValue(if statik.Some? then statik.value.0 else k + DYN_OFFSET, 0), Insert(t, h))
  {
  }

  /** What indexing h answers and does, by linear scan. */
  function Scan(t: DynTable, h: Header): (r: (Index, DynTable)) {
    var statik := IndexStatic(h);
    if SkipValueIndex(h) then (NewIndex(statik, h), t)
    else if statik.Some? && statik.value.1 then (Indexed(statik.value.0, h), t)
    else if Len(h) * 4 > t.maxSize * 3 then (NewIndex(statik, h), t)
    else ScanDynamic(t, h, statik)
  }

  lemma {:induction false} SizePushFront(h: Header, es: seq<Header>)
    ensures Size([h] + es) == Len(h) + Size(es)
  {
    if |es| > 0 {
      SizePushFront(h, es[..|es| - 1]);
      assert ([h] + es)[..|es|] == [h] + es[..|es| - 1];
    } else {
      assert [h] + es == [h] && [h][..0] == [];
    }
  }

  /** Evicting to one budget and then to another is evicting to the smaller. */
  lemma {:induction false} EvictTwice(es: seq<Header>, b1: int, b2: int)
    ensures EvictTo(EvictTo(es, b1), b2) == EvictTo(es, if b1 <= b2 then b1 else b2)
    decreases |es|
  {
    var m := if b1 <= b2 then b1 else b2;
    if |es| == 0 {
    } else if Size(es) > b1 {
      EvictTwice(es[..|es| - 1], b1, b2);
    } else if Size(es) > b2 {
      assert EvictTo(es, b1) == es;
    }
  }

  /** EvictTo keeps as much as the budget allows: any longer prefix is too large. */
  lemma {:induction false} EvictToIsLongest(es: seq<Header>, budget: int, k: nat)
    requires |EvictTo(es, budget)| < k <= |es|
    ensures Size(es[..k]) > budget
  {
    if k == |es| {
      assert es[..k] == es;
    } else {
      EvictToIsLongest(es[..|es| - 1], budget, k);
      assert es[..|es| - 1][..k] == es[..k];
    }
  }

  lemma InsertFits(t: DynTable, h: Header)
    ensures Fits(Insert(t, h))
  {
    var kept := EvictTo(t.entries, t.maxSize - Len(h));
    SizePushFront(h, kept);
  }
}
