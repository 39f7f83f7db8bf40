/** Headers that must never be indexed (section 6.2.3 of RFC 7541): which representation
    every header of a block gets, and what that does to the table. */
module HpackSensitive {
  import opened Prelude
  import opened HpackHeader
  import opened HpackFifo
  import opened HpackInt
  import opened HuffmanCode
  import opened HpackString
  import opened HpackWire
  import opened HpackSession

  // ----- one header ------------------------------------------------------------------------

  lemma NotIndexedStarts(env: Env, idx: nat, name: seq<Byte>, value: seq<Byte>, sensitive: bool)
    ensures var s := EncodeNotIndexed(env, idx, value, sensitive);
            |s| > 0 && LoadRepresentation(s[0]) == if sensitive then LiteralNever else LiteralPlain
    ensures var s := EncodeNotIndexed2(env, name, value, sensitive);
            |s| > 0 && LoadRepresentation(s[0]) == if sensitive then LiteralNever else LiteralPlain
  {
    IntFirst(idx, 4, if sensitive then 0x10 else 0, EncodeStr(env, value));
  }

  /** The representation that an answer asks for. */
  function Kind(index: Index, sensitive: bool): (r: Representation) {
    match index
    case Indexed(_, _) => IndexedField
    case Inserted(_) => LiteralIndexed
    case InsertedValue(_, _) => LiteralIndexed
    case _ => if sensitive then LiteralNever else LiteralPlain
  }

  lemma AnswerStarts(env: Env, index: Index, h: Header, slot: Header)
    requires index.NameIndexed? || index.NotIndexed? ==> index.header == h
    ensures var s := EncodeIndex(env, index, slot);
            |s| > 0 && LoadRepresentation(s[0]) == Kind(index, IsSensitive(h))
  {
    match index
    case Indexed(idx, _) => IntFirst(idx, 7, 0x80, []);
    case NameIndexed(idx, _) => NotIndexedStarts(env, idx, [], h.value, IsSensitive(h));
    case InsertedValue(idx, _) => IntFirst(idx, 6, 0x40, EncodeStr(env, slot.value));
    case NotIndexed(_) => NotIndexedStarts(env, 0, NameBytes(h.name), h.value, IsSensitive(h));
    case Inserted(_) =>
  }

  /** An answer carries the header it was given for; a sensitive header is never inserted,
      and what is not inserted leaves the table as it was. */
  lemma ScanCarries(t: DynTable, h: Header)
    ensures var (index, t') := Scan(t, h);
            && (index.NameIndexed? || index.NotIndexed? || index.Indexed? ==> index.header == h)
            && (index.Inserted? || index.InsertedValue? ==> !IsSensitive(h) && t' == Insert(t, h))
            && (!(index.Inserted? || index.InsertedValue?) ==> t' == t)
  {
  }

  /** A header that no entry stands for in full is written as never indexed exactly if it is
      sensitive, and then the table is what it was. */
  lemma SensitiveIsNeverIndexed(env: Env, t: DynTable, h: Header)
    ensures var (index, t') := Scan(t, h);
            var s := EncodeIndex(env, index, SlotOf(t', h));
            && |s| > 0
            && (!index.Indexed? ==> (LoadRepresentation(s[0]) == LiteralNever <==> IsSensitive(h)))
            && (index.Indexed? ==> LoadRepresentation(s[0]) == IndexedField)
            && (LoadRepresentation(s[0]) == LiteralIndexed <==> t' == Insert(t, h) && (index.Inserted? || index.InsertedValue?))
            && (IsSensitive(h) ==> t' == t)
  {
    var (index, t') := Scan(t, h);
    ScanCarries(t, h);
    AnswerStarts(env, index, h, SlotOf(t', h));
  }

  /** The same for a value that repeats the name before it. */
  lemma NamelessIsNeverIndexed(env: Env, last: Index, value: seq<Byte>, sensitive: bool)
    ensures var s := EncodeNameless(env, last, value, sensitive);
            |s| > 0 && LoadRepresentation(s[0]) == if sensitive then LiteralNever else LiteralPlain
  {
    match last
    case NotIndexed(h) => NotIndexedStarts(env, 0, NameBytes(h.name), value, sensitive);
    case _ => NotIndexedStarts(env, ResolveIdx(last), [], value, sensitive);
  }

  // ----- a whole block -----------------------------------------------------------------------

  /** The representations of the headers of a block, as a decoder comes to them. */
  function Kinds(env: Env, t: DynTable, limit: nat, can: bool, s: seq<Byte>): (ks: seq<Representation>)
    decreases |s|
  {
    if |s| == 0 then []
    else
      match ParseStep(env, Lookup(t), limit, can, s)
      case Emit(h, insert, u) => [LoadRepresentation(s[0])] + Kinds(env, if insert then Insert(t, h) else t, limit, false, s[u..])
      case NewLimit(size, u) => Kinds(env, Resize(t, size), limit, can, s[u..])
      case _ => []
  }

  predicate MarkedSensitive(item: Item) {
    match item
    case Named(h) => IsSensitive(h)
    case Nameless(_, sensitive) => sensitive
  }

  /** A sensitive header is never indexed, unless an entry stands for all of it, and no other
      header is marked as one. */
  predicate Protects(kind: Representation, item: Item) {
    if MarkedSensitive(item) then kind == LiteralNever || (item.Named? && kind == IndexedField)
    else kind == LiteralPlain || (item.Named? && (kind == IndexedField || kind == LiteralIndexed))
  }

  ghost predicate AllProtected(kinds: seq<Representation>, items: seq<Item>) {
    |kinds| == |items| && forall i :: 0 <= i < |items| ==> Protects(kinds[i], items[i])
  }

  lemma KindOne(env: Env, t: DynTable, t': DynTable, limit: nat, can: bool, s: seq<Byte>, rest: seq<Byte>, h: Header)
    requires Agrees(env, t, t', s, rest, h, limit, can)
    ensures Kinds(env, t, limit, can, s + rest) == [LoadRepresentation(s[0])] + Kinds(env, t', limit, false, rest)
  {
    assert (s + rest)[|s|..] == rest;
  }

  lemma ProtectedFirst(kind: Representation, item: Item, kinds: seq<Representation>, items: seq<Item>)
    requires Protects(kind, item) && AllProtected(kinds, items)
    ensures AllProtected([kind] + kinds, [item] + items)
  {
  }

  lemma NamedIsProtected(env: Env, t: DynTable, h: Header)
    ensures var (index, t') := Scan(t, h);
            var s := EncodeIndex(env, index, SlotOf(t', h));
            |s| > 0 && Protects(LoadRepresentation(s[0]), Named(h))
  {
    var (index, t') := Scan(t, h);
    ScanCarries(t, h);
    AnswerStarts(env, index, h, SlotOf(t', h));
  }

  /** Over a whole block every header has the representation it is entitled to. */
  lemma {:induction false} BlockIsProtected(env: Env, t: DynTable, limit: nat, can: bool,
                                            last: Option<Index>, name: Option<Name>, items: seq<Item>)
    requires WellFormed(env.code) && Shared(t) && AllSendable(env, name, items)
    requires name.Some? ==> last.Some? && LeadsToName(t, last.value, name.value)
    ensures AllProtected(Kinds(env, t, limit, can, EncodeItems(env, t, last, items).0), items)
    decreases |items|
  {
    if |items| > 0 {
      assert items == [items[0]] + items[1..];
      match items[0]
      case Named(h) =>
        var (index, t') := Scan(t, h);
        var s, more := EncodeIndex(env, index, SlotOf(t', h)), EncodeItems(env, t', Some(index), items[1..]).0;
        HeaderAgrees(env, t, limit, can, h, more);
        KindOne(env, t, t', limit, can, s, more, Plain(h));
        NamedIsProtected(env, t, h);
        BlockIsProtected(env, t', limit, false, Some(index), Some(h.name), items[1..]);
        ProtectedFirst(LoadRepresentation(s[0]), items[0], Kinds(env, t', limit, false, more), items[1..]);
      case Nameless(value, sensitive) =>
        var h := Header(name.value, value, sensitive);
        var s, more := EncodeNameless(env, last.value, value, sensitive), EncodeItems(env, t, last, items[1..]).0;
        NamelessAgrees(env, t, limit, can, last.value, h, more);
        KindOne(env, t, t, limit, can, s, more, Plain(h));
        NamelessIsNeverIndexed(env, last.value, value, sensitive);
        BlockIsProtected(env, t, limit, false, last, name, items[1..]);
        ProtectedFirst(LoadRepresentation(s[0]), items[0], Kinds(env, t, limit, false, more), items[1..]);
    }
  }

  lemma KindsAfterUpdate(env: Env, t: DynTable, limit: nat, size: nat, rest: seq<Byte>)
    requires size <= limit < 0x1000_0000
    ensures Kinds(env, t, limit, true, EncodeSizeUpdate(size) + rest) == Kinds(env, Resize(t, size), limit, true, rest)
  {
    ReadSizeUpdate(env, Lookup(t), limit, size, rest);
    assert (EncodeSizeUpdate(size) + rest)[|EncodeSizeUpdate(size)|..] == rest;
  }

  lemma KindsAfterUpdates(env: Env, e: HpackSession.Encoder, limit: nat, rest: seq<Byte>)
    requires Serves(e, limit)
    ensures Kinds(env, e.table, limit, true, SizeUpdateBytes(e.update) + rest) == Kinds(env, Flushed(e), limit, true, rest)
  {
    match e.update
    case NoUpdate => assert [] + rest == rest;
    case One(v) => KindsAfterUpdate(env, e.table, limit, v, rest);
    case Two(min, max) =>
      var a, b := EncodeSizeUpdate(min), EncodeSizeUpdate(max);
      assert a + b + rest == a + (b + rest);
      KindsAfterUpdate(env, e.table, limit, min, b + rest);
      KindsAfterUpdate(env, Resize(e.table, min), limit, max, rest);
  }

  /** With the size updates in front: what an encoder fit to serve its decoder writes
      protects every sensitive header. */
  lemma EncodedIsProtected(env: Env, e: HpackSession.Encoder, limit: nat, items: seq<Item>)
    requires WellFormed(env.code) && Serves(e, limit) && AllSendable(env, None, items)
    ensures AllProtected(Kinds(env, e.table, limit, true, Encode(env, e, items).0), items)
  {
    FlushedIsShared(e, limit);
    BlockIsProtected(env, Flushed(e), limit, true, None, None, items);
    KindsAfterUpdates(env, e, limit, EncodeItems(env, Flushed(e), None, items).0);
  }
}
