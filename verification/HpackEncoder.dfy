/** The encoder as it runs: the hashed table, the queued size update and the octets
    appended to a buffer (src/hpack/encoder.rs). */
module HpackEncoder {
  import opened Prelude
  import opened HpackHeader
  import opened HpackFifo
  import opened HpackInt
  import opened HuffmanCode
  import opened HpackString
  import opened HpackWire
  import HpackSession
  import HpackTable

  /** A Huffman form the 8-octet scratch buffer can hold the length of. */
  predicate Measurable(env: Env, v: seq<Byte>) {
    |HuffEncode(env.code, v)| < 0x2_0000_0000_0000
  }

  predicate MeasurableItem(env: Env, item: Item) {
    match item
    case Named(h) => Measurable(env, NameBytes(h.name)) && Measurable(env, h.value)
    case Nameless(value, _) => Measurable(env, value)
  }

  /** The answer is one the table gives: a slot it names is the newest, and not sensitive. */
  ghost predicate Fresh(index: Index, t: DynTable) {
    match index
    case Inserted(slot) => slot == 0 && |t.entries| > 0 && !IsSensitive(t.entries[0])
    case InsertedValue(_, slot) => slot == 0 && |t.entries| > 0 && !IsSensitive(t.entries[0])
    case _ => true
  }

  /** The answer is the table's for h, and t the table it leaves. */
  ghost predicate Answers(index: Index, t: DynTable, h: Header) {
    match index
    case Inserted(_) => Fresh(index, t) && t.entries[0] == h
    case InsertedValue(_, _) => Fresh(index, t) && t.entries[0] == h
    case NotIndexed(x) => x == h
    case NameIndexed(_, x) => x == h
    case Indexed(_, _) => true
  }

  lemma ScanAnswers(t: DynTable, h: Header)
    ensures Answers(Scan(t, h).0, Scan(t, h).1, h)
  {
    var statik := IndexStatic(h);
    if Len(h) <= t.maxSize {
      DynamicAnswers(t, h, statik);
    }
  }

  lemma DynamicAnswers(t: DynTable, h: Header, statik: Option<(nat, bool)>)
    requires Len(h) <= t.maxSize
    ensures Answers(ScanDynamic(t, h, statik).0, ScanDynamic(t, h, statik).1, h)
  {
    InsertIs(t, h, EvictTo(t.entries, t.maxSize - Len(h)));
  }

  predicate MeasurableLast(env: Env, index: Index) {
    index.NotIndexed? ==> Measurable(env, NameBytes(index.header.name))
  }

  /** A value without a name needs the answer for a header before it. */
  predicate MayEncode(env: Env, last: Option<Index>, item: Item) {
    && MeasurableItem(env, item)
    && (item.Nameless? ==> last.Some? && MeasurableLast(env, last.value))
  }

  ghost predicate CanEncode(env: Env, last: Option<Index>, items: seq<Item>) {
    match items
    case items =>
      && (|items| > 0 && items[0].Nameless? ==> last.Some?)
      && (last.Some? ==> MeasurableLast(env, last.value))
      && forall i :: 0 <= i < |items| ==> MeasurableItem(env, items[i])
  }

  lemma MayEncodeFirst(env: Env, last: Option<Index>, items: seq<Item>)
    requires CanEncode(env, last, items) && |items| > 0
    ensures MayEncode(env, last, items[0])
  {
  }

  lemma MayGoOn(env: Env, last: Option<Index>, items: seq<Item>, last': Option<Index>)
    requires CanEncode(env, last, items) && |items| > 0
    requires last'.Some? && (MeasurableLast(env, last'.value) || last' == last)
    ensures CanEncode(env, last', items[1..])
  {
  }

  class Encoder {
    const env: Env
    const table: HpackTable.Table
    var update: HpackSession.SizeUpdate

    ghost predicate Valid()
      reads this, table
    {
      WellFormed(env.code) && table.Valid()
    }

    ghost function Abstract(): (e: HpackSession.Encoder)
      reads this, table
    {
      HpackSession.Encoder(table.Contents(), update)
    }

    constructor (env: Env, maxSize: nat, hash: Name -> nat)
      requires WellFormed(env.code)
      ensures Valid() && fresh(table) && Abstract() == HpackSession.Encoder(DynTable([], maxSize), HpackSession.NoUpdate)
      ensures this.env == env
    {
      this.env := env;
      table := new HpackTable.Table(maxSize, hash);
      update := HpackSession.NoUpdate;
    }

    /** src/hpack/encoder.rs:31-59 */
    method UpdateMaxSize(val: nat)
      requires Valid()
      modifies this`update
      ensures Valid() && Abstract() == HpackSession.UpdateMaxSize(old(Abstract()), val)
    {
      match update {
        case One(was) =>
          if val > was {
            if was > table.maxSize {
              update := HpackSession.One(val);
            } else {
              update := HpackSession.Two(was, val);
            }
          } else {
            update := HpackSession.One(val);
          }
        case Two(min, _) =>
          if val < min {
            update := HpackSession.One(val);
          } else {
            update := HpackSession.Two(min, val);
          }
        case NoUpdate =>
          if val != table.maxSize {
            update := HpackSession.One(val);
          }
      }
    }

    /** src/hpack/encoder.rs:63-96 */
    method Encode(items: seq<Item>, dst0: seq<Byte>) returns (dst: seq<Byte>)
      requires Valid()
      requires CanEncode(env, None, items)
      modifies this`update, table
      ensures Valid()
      ensures var (bytes, e) := HpackSession.Encode(env, old(Abstract()), items);
              dst == dst0 + bytes && Abstract() == e
    {
      ghost var e := Abstract();
      dst := EncodeSizeUpdates(dst0);
      dst := EncodeAll(items, dst);
      HpackString.Regroup(dst0, HpackSession.SizeUpdateBytes(e.update), EncodeItems(env, HpackSession.Flushed(e), None, items).0);
    }

    /** src/hpack/encoder.rs:69-95 */
    method EncodeAll(items: seq<Item>, dst0: seq<Byte>) returns (dst: seq<Byte>)
      requires Valid()
      requires CanEncode(env, None, items)
      modifies table
      ensures Valid()
      ensures dst == dst0 + EncodeItems(env, old(table.Contents()), None, items).0
      ensures table.Contents() == EncodeItems(env, old(table.Contents()), None, items).1
    {
      dst := dst0;
      ghost var t := table.Contents();
      var last: Option<Index> := None;
      var i := 0;
      assert items[0..] == items;
      NothingWritten(env, t, items, dst0);
      while i < |items|
        invariant Valid() && 0 <= i <= |items|
        invariant CanEncode(env, last, items[i..])
        invariant Written(env, t, items, dst0, table.Contents(), last, items[i..], dst)
      {
        ghost var t0, dst1, last1 := table.Contents(), dst, last;
        MayEncodeFirst(env, last, items[i..]);
        dst, last := EncodeItem(items[i], last, dst);
        MayGoOn(env, last1, items[i..], last);
        WritesItem(env, t, items, dst0, t0, last1, items[i..], dst1, table.Contents(), last, dst);
        assert items[i..][1..] == items[i + 1..];
        i := i + 1;
      }
      assert items[i..] == [];
      AllWritten(env, t, items, dst0, table.Contents(), last, dst);
    }

    /** One turn of the loop of src/hpack/encoder.rs:71-95. */
    method EncodeItem(item: Item, last0: Option<Index>, dst0: seq<Byte>) returns (dst: seq<Byte>, last: Option<Index>)
      requires Valid() && MayEncode(env, last0, item)
      modifies table
      ensures Valid()
      ensures last.Some? && (MeasurableLast(env, last.value) || last == last0)
      ensures ItemWritten(env, item, old(table.Contents()), last0, dst0, table.Contents(), last, dst)
    {
      ghost var t := table.Contents();
      match item {
        case Named(h) =>
          var index := table.Index(h);
          ScanAnswers(t, h);
          dst := EncodeHeader(index, h, dst0);
          last := Some(index);
        case Nameless(value, sensitive) =>
          dst := EncodeHeaderWithoutName(last0.value, value, sensitive, dst0);
          last := last0;
      }
    }

    /** src/hpack/encoder.rs:98-112 */
    method EncodeSizeUpdates(dst0: seq<Byte>) returns (dst: seq<Byte>)
      requires Valid()
      modifies this`update, table
      ensures Valid() && update.NoUpdate?
      ensures dst == dst0 + HpackSession.SizeUpdateBytes(old(update))
      ensures table.Contents() == HpackSession.Flushed(old(Abstract()))
    {
      match update {
        case One(val) =>
          table.Resize(val);
          dst := PutInt(val, 5, 0x20, dst0);
        case Two(min, max) =>
          table.Resize(min);
          table.Resize(max);
          dst := PutInt(min, 5, 0x20, dst0);
          dst := PutInt(max, 5, 0x20, dst);
        case NoUpdate =>
          dst := dst0;
      }
      update := HpackSession.NoUpdate;
    }

    /** src/hpack/encoder.rs:114-153 */
    method EncodeHeader(index: Index, ghost h: Header, dst0: seq<Byte>) returns (dst: seq<Byte>)
      requires Valid() && Answers(index, table.Contents(), h) && MeasurableItem(env, Named(h))
      ensures dst == dst0 + EncodeIndex(env, index, SlotOf(table.Contents(), h))
    {
      var header := table.Resolve(index);
      match index {
        case Indexed(idx, _) =>
          dst := PutInt(idx, 7, 0x80, dst0);
        case NameIndexed(idx, _) =>
          dst := PutNotIndexed(env, idx, header.value, IsSensitive(header), dst0);
        case Inserted(_) =>
          assert !IsSensitive(header);
          dst := PutNameAndValue(env, 0x40, NameBytes(header.name), header.value, dst0);
        case InsertedValue(idx, _) =>
          assert !IsSensitive(header);
          dst := PutIndexAndValue(env, idx, 6, 0x40, header.value, dst0);
        case NotIndexed(_) =>
          dst := PutNotIndexed2(env, NameBytes(header.name), header.value, IsSensitive(header), dst0);
      }
    }

    /** src/hpack/encoder.rs:155-168 */
    method EncodeHeaderWithoutName(last: Index, value: seq<Byte>, sensitive: bool, dst0: seq<Byte>) returns (dst: seq<Byte>)
      requires Valid() && MeasurableLast(env, last) && Measurable(env, value)
      ensures dst == dst0 + EncodeNameless(env, last, value, sensitive)
    {
      match last {
        case NotIndexed(h) =>
          dst := PutNotIndexed2(env, NameBytes(h.name), value, sensitive, dst0);
        case _ =>
          dst := PutNotIndexed(env, ResolveIdx(last), value, sensitive, dst0);
      }
    }
  }

  method PutIndexAndValue(env: Env, idx: nat, prefix: nat, first: Byte, value: seq<Byte>, dst0: seq<Byte>) returns (dst: seq<Byte>)
    requires WellFormed(env.code) && Measurable(env, value) && RoomFor(first, prefix)
    ensures dst == dst0 + (EncodeInt(idx, prefix, first) + EncodeStr(env, value))
  {
    dst := PutInt(idx, prefix, first, dst0);
    dst := PutStr(env, value, dst);
    HpackString.Regroup(dst0, EncodeInt(idx, prefix, first), EncodeStr(env, value));
  }

  method PutNameAndValue(env: Env, first: Byte, name: seq<Byte>, value: seq<Byte>, dst0: seq<Byte>) returns (dst: seq<Byte>)
    requires WellFormed(env.code) && Measurable(env, name) && Measurable(env, value)
    ensures dst == dst0 + ([first] + EncodeStr(env, name) + EncodeStr(env, value))
  {
    dst := PutStr(env, name, dst0 + [first]);
    dst := PutStr(env, value, dst);
    HpackString.Regroup(dst0, [first], EncodeStr(env, name));
    HpackString.Regroup(dst0, [first] + EncodeStr(env, name), EncodeStr(env, value));
  }

  method PutNotIndexed(env: Env, name: nat, value: seq<Byte>, sensitive: bool, dst0: seq<Byte>) returns (dst: seq<Byte>)
    requires WellFormed(env.code) && Measurable(env, value)
    ensures dst == dst0 + EncodeNotIndexed(env, name, value, sensitive)
  {
    if sensitive {
      dst := PutIndexAndValue(env, name, 4, 0x10, value, dst0);
    } else {
      dst := PutIndexAndValue(env, name, 4, 0, value, dst0);
    }
  }

  method PutNotIndexed2(env: Env, name: seq<Byte>, value: seq<Byte>, sensitive: bool, dst0: seq<Byte>) returns (dst: seq<Byte>)
    requires WellFormed(env.code) && Measurable(env, name) && Measurable(env, value)
    ensures dst == dst0 + EncodeNotIndexed2(env, name, value, sensitive)
  {
    dst := PutNameAndValue(env, if sensitive then 0x10 else 0, name, value, dst0);
  }

  /** What one item adds to the buffer and does to the table. */
  ghost predicate ItemWritten(env: Env, item: Item, t: DynTable, last: Option<Index>, dst: seq<Byte>,
                              t': DynTable, last': Option<Index>, dst': seq<Byte>)
  {
    match item
    case Named(h) =>
      && last'.Some? && Scan(t, h) == (last'.value, t')
      && dst' == dst + EncodeIndex(env, last'.value, SlotOf(t', h))
    case Nameless(value, sensitive) =>
      && last.Some? && last' == last && t' == t
      && dst' == dst + EncodeNameless(env, last.value, value, sensitive)
  }

  /** What is written, followed by what the items left would add, is the whole. */
  ghost predicate Written(env: Env, t0: DynTable, items: seq<Item>, start: seq<Byte>,
                          t: DynTable, last: Option<Index>, left: seq<Item>, dst: seq<Byte>)
  {
    match items
    case items =>
      && EncodeItems(env, t0, None, items).1 == EncodeItems(env, t, last, left).1
      && start + EncodeItems(env, t0, None, items).0 == dst + EncodeItems(env, t, last, left).0
  }

  lemma NothingWritten(env: Env, t: DynTable, items: seq<Item>, start: seq<Byte>)
    ensures Written(env, t, items, start, t, None, items[0..], start)
  {
    assert items[0..] == items;
  }

  lemma AllWritten(env: Env, t0: DynTable, items: seq<Item>, start: seq<Byte>, t: DynTable, last: Option<Index>, dst: seq<Byte>)
    requires Written(env, t0, items, start, t, last, [], dst)
    ensures dst == start + EncodeItems(env, t0, None, items).0 && t == EncodeItems(env, t0, None, items).1
  {
    assert dst + [] == dst;
  }

  lemma WritesItem(env: Env, t0: DynTable, items: seq<Item>, start: seq<Byte>,
                   t: DynTable, last: Option<Index>, left: seq<Item>, dst: seq<Byte>,
                   t': DynTable, last': Option<Index>, dst': seq<Byte>)
    requires |left| > 0 && Written(env, t0, items, start, t, last, left, dst)
    requires ItemWritten(env, left[0], t, last, dst, t', last', dst')
    ensures Written(env, t0, items, start, t', last', left[1..], dst')
  {
    var more := EncodeItems(env, t', last', left[1..]).0;
    match left[0]
    case Named(h) => HpackString.Regroup(dst, EncodeIndex(env, last'.value, SlotOf(t', h)), more);
    case Nameless(value, sensitive) => HpackString.Regroup(dst, EncodeNameless(env, last.value, value, sensitive), more);
  }
}
