/** Synchrony of the two ends: for every run of size changes and header lists, each block
    decodes to the headers it was made from, and both dynamic tables stay equal. */
module HpackSession {
  import opened Prelude
  import opened HpackHeader
  import opened HpackFifo
  import opened HpackInt
  import opened HuffmanCode
  import opened HpackString
  import opened HpackWire

  // ----- one header -------------------------------------------------------------------

  /** index still leads to the name, by spelling or by an entry both sides have. */
  ghost predicate LeadsToName(t: DynTable, index: Index, name: Name) {
    match index
    case NotIndexed(h) => h.name == name
    case _ =>
      var idx := ResolveIdx(index);
      0 < idx < 0x1000_0000 && TableGet(t, idx).Some? && TableGet(t, idx).value.name == name
  }

  /** What decoding the representation of one header has to come to. */
  ghost predicate Agrees(env: Env, t: DynTable, t': DynTable, s: seq<Byte>, rest: seq<Byte>, h: Header, limit: nat, can: bool) {
    && |s| > 0
    && var step := ParseStep(env, Lookup(t), limit, can, s + rest);
       && step.Emit?
       && step.header == h && step.used == |s|
       && t' == if step.insert then Insert(t, h) else t
  }

  lemma EntryAt(t: DynTable, k: nat)
    requires Shared(t) && k < |t.entries|
    ensures TableGet(t, k + DYN_OFFSET) == Some(t.entries[k]) && k + DYN_OFFSET < 0x1000_0000
    ensures !t.entries[k].sensitive
  {
    EntriesAreFew(t);
  }

  lemma StaticAt(k: nat)
    requires 1 <= k <= 61
    ensures forall t: DynTable :: TableGet(t, k) == Some(StaticHeader(k))
    ensures !StaticHeader(k).sensitive
  {
  }

  /** The answer refers to an entry and changes nothing. */
  lemma IndexedAgrees(env: Env, t: DynTable, limit: nat, can: bool, h: Header, idx: nat, entry: Header, rest: seq<Byte>)
    requires Lookup(t)(idx) == Some(entry) && 0 < idx < 0x1000_0000
    requires entry == Plain(h)
    ensures Agrees(env, t, t, EncodeInt(idx, 7, 0x80), rest, Plain(h), limit, can)
  {
    ReadIndexed(env, Lookup(t), limit, can, idx, entry, rest);
  }

  lemma FoundAgrees(env: Env, t: DynTable, limit: nat, can: bool, h: Header, index: Index, rest: seq<Byte>)
    requires WellFormed(env.code) && Shared(t) && Sendable(env, h)
    requires index == NewIndex(IndexStatic(h), h)
    ensures Agrees(env, t, t, EncodeIndex(env, index, h), rest, Plain(h), limit, can)
    ensures LeadsToName(t, index, h.name)
  {
    match index
    case Indexed(n, _) =>
      StaticAt(n);
      IndexedAgrees(env, t, limit, can, h, n, StaticHeader(n), rest);
    case NameIndexed(n, _) =>
      StaticAt(n);
      ReadNotIndexed(env, Lookup(t), limit, can, n, StaticHeader(n), h, IsSensitive(h), rest);
    case NotIndexed(_) =>
      ReadNotIndexed2(env, Lookup(t), limit, can, h, IsSensitive(h), rest);
  }

  lemma OldestMatchAgrees(env: Env, t: DynTable, limit: nat, can: bool, h: Header, k: nat, rest: seq<Byte>)
    requires Shared(t) && ValidHeader(env, h) && OldestMatch(t.entries, h) == Some(k)
    ensures Agrees(env, t, t, EncodeInt(k + DYN_OFFSET, 7, 0x80), rest, Plain(h), limit, can)
    ensures LeadsToName(t, Indexed(k + DYN_OFFSET, h), h.name)
  {
    EntryAt(t, k);
    IndexedAgrees(env, t, limit, can, h, k + DYN_OFFSET, t.entries[k], rest);
  }

  /** A value is inserted under a name that an index gives, even if that entry is evicted
      by this very insertion. */
  lemma InsertedValueAgrees(env: Env, t: DynTable, limit: nat, can: bool, h: Header, idx: nat, entry: Header, rest: seq<Byte>)
    requires WellFormed(env.code) && Sendable(env, h) && !h.sensitive
    requires Lookup(t)(idx) == Some(entry) && entry.name == h.name && 0 < idx < 0x1000_0000
    ensures Agrees(env, t, Insert(t, h), EncodeInt(idx, 6, 0x40) + EncodeStr(env, h.value), rest, Plain(h), limit, can)
  {
    ReadInsertedValue(env, Lookup(t), limit, can, idx, entry, h, rest);
    assert Plain(h) == h;
  }

  lemma InsertedAgrees(env: Env, t: DynTable, limit: nat, can: bool, h: Header, rest: seq<Byte>)
    requires WellFormed(env.code) && Sendable(env, h) && !h.sensitive
    ensures Agrees(env, t, Insert(t, h), [0x40] + EncodeStr(env, NameBytes(h.name)) + EncodeStr(env, h.value), rest, Plain(h), limit, can)
  {
    ReadInserted(env, Lookup(t), limit, can, h, rest);
    assert Plain(h) == h;
  }

  lemma JustInserted(t: DynTable, h: Header)
    requires Shared(t) && Len(h) <= t.maxSize && !h.sensitive
    ensures Shared(Insert(t, h)) && SlotOf(Insert(t, h), h) == h
    ensures TableGet(Insert(t, h), DYN_OFFSET) == Some(h)
  {
    InsertKeepsShared(t, h);
  }

  /** The answer for a sensitive header without a full match. */
  lemma SensitiveAgrees(env: Env, t: DynTable, limit: nat, can: bool, h: Header, named: Option<nat>, rest: seq<Byte>)
    requires WellFormed(env.code) && Shared(t) && Sendable(env, h) && IsSensitive(h)
    requires named == YoungestNamed(t.entries, h.name, 0)
    ensures var index := if named.Some? then NameIndexed(named.value + DYN_OFFSET, h) else NewIndex(IndexStatic(h), h);
            !(IndexStatic(h).Some? && IndexStatic(h).value.1) ==>
              Agrees(env, t, t, EncodeIndex(env, index, h), rest, Plain(h), limit, can) && LeadsToName(t, index, h.name)
  {
    if named.Some? {
      EntryAt(t, named.value);
      ReadNotIndexed(env, Lookup(t), limit, can, named.value + DYN_OFFSET, t.entries[named.value], h, true, rest);
    } else {
      FoundAgrees(env, t, limit, can, h, NewIndex(IndexStatic(h), h), rest);
    }
  }

  /** The answer for a header that is inserted. */
  lemma InsertionAgrees(env: Env, t: DynTable, limit: nat, can: bool, h: Header, statik: Option<(nat, bool)>, named: Option<nat>, rest: seq<Byte>)
    requires WellFormed(env.code) && Shared(t) && Sendable(env, h) && Len(h) <= t.maxSize && !h.sensitive
    requires statik == IndexStatic(h) && named == YoungestNamed(t.entries, h.name, 0)
    ensures var index := if statik.Some? then InsertedValue(statik.value.0, 0)
                         else if named.Some? then InsertedValue(named.value + DYN_OFFSET, 0) else Inserted(0);
            && Agrees(env, t, Insert(t, h), EncodeIndex(env, index, h), rest, Plain(h), limit, can)
            && LeadsToName(Insert(t, h), index, h.name) && Shared(Insert(t, h))
  {
    JustInserted(t, h);
    if statik.Some? {
      StaticAt(statik.value.0);
      InsertedValueAgrees(env, t, limit, can, h, statik.value.0, StaticHeader(statik.value.0), rest);
    } else if named.Some? {
      EntryAt(t, named.value);
      InsertedValueAgrees(env, t, limit, can, h, named.value + DYN_OFFSET, t.entries[named.value], rest);
    } else {
      InsertedAgrees(env, t, limit, can, h, rest);
    }
  }

  lemma DynamicAgrees(env: Env, t: DynTable, limit: nat, can: bool, h: Header, rest: seq<Byte>)
    requires WellFormed(env.code) && Shared(t) && Sendable(env, h) && Len(h) <= t.maxSize
    requires !(IndexStatic(h).Some? && IndexStatic(h).value.1)
    ensures var (index, t') := ScanDynamic(t, h, IndexStatic(h));
            && Agrees(env, t, t', EncodeIndex(env, index, SlotOf(t', h)), rest, Plain(h), limit, can)
            && LeadsToName(t', index, h.name) && Shared(t')
  {
    var full, named := OldestMatch(t.entries, h), YoungestNamed(t.entries, h.name, 0);
    if full.Some? {
      OldestMatchAgrees(env, t, limit, can, h, full.value, rest);
    } else if IsSensitive(h) {
      SensitiveAgrees(env, t, limit, can, h, named, rest);
    } else {
      JustInserted(t, h);
      InsertionAgrees(env, t, limit, can, h, IndexStatic(h), named, rest);
    }
  }

  lemma HeaderAgrees(env: Env, t: DynTable, limit: nat, can: bool, h: Header, rest: seq<Byte>)
    requires WellFormed(env.code) && Shared(t) && Sendable(env, h)
    ensures var (index, t') := Scan(t, h);
            && Agrees(env, t, t', EncodeIndex(env, index, SlotOf(t', h)), rest, Plain(h), limit, can)
            && LeadsToName(t', index, h.name) && Shared(t')
  {
    var statik := IndexStatic(h);
    if SkipValueIndex(h) || (statik.Some? && statik.value.1) || Len(h) * 4 > t.maxSize * 3 {
      FoundAgrees(env, t, limit, can, h, NewIndex(statik, h), rest);
    } else {
      DynamicAgrees(env, t, limit, can, h, rest);
    }
  }

  lemma NamelessAgrees(env: Env, t: DynTable, limit: nat, can: bool, last: Index, h: Header, rest: seq<Byte>)
    requires WellFormed(env.code) && Sendable(env, h) && LeadsToName(t, last, h.name)
    ensures Agrees(env, t, t, EncodeNameless(env, last, h.value, h.sensitive), rest, Plain(h), limit, can)
  {
    if last.NotIndexed? {
      ReadNotIndexed2(env, Lookup(t), limit, can, h, h.sensitive, rest);
    } else {
      var idx := ResolveIdx(last);
      ReadNotIndexed(env, Lookup(t), limit, can, idx, TableGet(t, idx).value, h, h.sensitive, rest);
    }
  }

  /** What an answer says about the list it was given for. */
  ghost predicate TrueOf(t: DynTable, index: Index, h: Header) {
    match index
    case Indexed(idx, _) =>
      TableGet(t, idx).Some? && TableGet(t, idx).value.name == h.name && TableGet(t, idx).value.value == h.value
    case NameIndexed(idx, _) => TableGet(t, idx).Some? && TableGet(t, idx).value.name == h.name
    case InsertedValue(idx, _) => TableGet(t, idx).Some? && TableGet(t, idx).value.name == h.name
    case _ => true
  }

  /** A header that could be answered by an entry of the list. */
  predicate MayBeIndexed(t: DynTable, h: Header) {
    && !SkipValueIndex(h)
    && Len(h) * 4 <= t.maxSize * 3
    && !(IndexStatic(h).Some? && IndexStatic(h).value.1)
  }

  /** An answer names an entry that is there, with the name and, if it says so, the value. */
  lemma ScanIsTrue(t: DynTable, h: Header)
    ensures TrueOf(t, Scan(t, h).0, h)
  {
    var statik := IndexStatic(h);
    if statik.Some? {
      assert TableGet(t, statik.value.0) == Some(StaticHeader(statik.value.0));
    }
    DynamicIsTrue(t, h, statik);
  }

  lemma DynamicIsTrue(t: DynTable, h: Header, statik: Option<(nat, bool)>)
    requires statik.Some? ==> TrueOf(t, NewIndex(statik, h), h)
    requires statik.Some? ==> TrueOf(t, NameIndexed(statik.value.0, h), h)
    ensures TrueOf(t, ScanDynamic(t, h, statik).0, h)
  {
    var full, named := OldestMatch(t.entries, h), YoungestNamed(t.entries, h.name, 0);
    if full.Some? {
      MatchIsThere(t, h, full.value);
    }
    if named.Some? {
      assert TableGet(t, named.value + DYN_OFFSET) == Some(t.entries[named.value]);
    }
  }

  /** An entry of the list that matches fully is always found, oldest first, and then
      nothing is inserted. */
  lemma FullMatchIsFound(t: DynTable, h: Header, i: nat)
    requires MayBeIndexed(t, h) && i < |t.entries| && t.entries[i].name == h.name && ValueEq(t.entries[i], h)
    ensures var oldest := OldestMatch(t.entries, h);
            && oldest.Some? && i <= oldest.value
            && Scan(t, h) == (Indexed(oldest.value + DYN_OFFSET, h), t)
  {
    FullMatchIsAnswered(t, h, IndexStatic(h), i);
  }

  /** A header is put into the table exactly if it may be indexed, is not sensitive, and no
      entry matches it fully. */
  lemma InsertsExactly(t: DynTable, h: Header)
    ensures var (index, t') := Scan(t, h);
            var matched := exists i :: 0 <= i < |t.entries| && t.entries[i].name == h.name && ValueEq(t.entries[i], h);
            && (index.Inserted? || index.InsertedValue? <==> MayBeIndexed(t, h) && !IsSensitive(h) && !matched)
            && t' == if index.Inserted? || index.InsertedValue? then Insert(t, h) else t
  {
    if MayBeIndexed(t, h) {
      var full := OldestMatch(t.entries, h);
      if full.Some? {
        FullMatchIsFound(t, h, full.value);
      }
    }
  }

  lemma FullMatchIsAnswered(t: DynTable, h: Header, statik: Option<(nat, bool)>, i: nat)
    requires i < |t.entries| && t.entries[i].name == h.name && ValueEq(t.entries[i], h)
    ensures var oldest := OldestMatch(t.entries, h);
            && oldest.Some? && i <= oldest.value
            && ScanDynamic(t, h, statik) == (Indexed(oldest.value + DYN_OFFSET, h), t)
  {
  }

  lemma MatchIsThere(t: DynTable, h: Header, k: nat)
    requires k < |t.entries| && t.entries[k].name == h.name && ValueEq(t.entries[k], h)
    ensures TableGet(t, k + DYN_OFFSET) == Some(t.entries[k]) && t.entries[k].value == h.value
  {
  }

  // ----- one block --------------------------------------------------------------------

  lemma DecodeOne(env: Env, t: DynTable, t': DynTable, limit: nat, can: bool, s: seq<Byte>, rest: seq<Byte>, h: Header)
    requires Agrees(env, t, t', s, rest, h, limit, can)
    ensures DecodeBlock(env, t, limit, can, s + rest) == After(h, DecodeBlock(env, t', limit, false, rest))
  {
    assert (s + rest)[|s|..] == rest;
  }

  /** Every sendable list of headers survives the trip, and leaves equal tables. */
  lemma {:induction false} BlockRoundTrip(env: Env, t: DynTable, limit: nat, can: bool,
                                          last: Option<Index>, name: Option<Name>, items: seq<Item>)
    requires WellFormed(env.code) && Shared(t) && AllSendable(env, name, items)
    requires name.Some? ==> last.Some? && LeadsToName(t, last.value, name.value)
    ensures var (bytes, t') := EncodeItems(env, t, last, items);
            && DecodeBlock(env, t, limit, can, bytes) ==
                 Decoded(Meant(if name.Some? then name.value else Status, items), t', [], None)
            && Shared(t') && t'.maxSize == t.maxSize
    decreases |items|
  {
    if |items| > 0 {
      match items[0]
      case Named(h) =>
        var (index, t') := Scan(t, h);
        var more := EncodeItems(env, t', Some(index), items[1..]).0;
        HeaderAgrees(env, t, limit, can, h, more);
        DecodeOne(env, t, t', limit, can, EncodeIndex(env, index, SlotOf(t', h)), more, Plain(h));
        BlockRoundTrip(env, t', limit, false, Some(index), Some(h.name), items[1..]);
      case Nameless(value, sensitive) =>
        var h := Header(name.value, value, sensitive);
        var more := EncodeItems(env, t, last, items[1..]).0;
        NamelessAgrees(env, t, limit, can, last.value, h, more);
        DecodeOne(env, t, t, limit, can, EncodeNameless(env, last.value, value, sensitive), more, Plain(h));
        BlockRoundTrip(env, t, limit, false, last, name, items[1..]);
    }
  }

  // ----- queued size updates -------------------------------------------------------------

  datatype SizeUpdate = NoUpdate | One(size: nat) | Two(min: nat, max: nat)

  datatype Encoder = Encoder(table: DynTable, update: SizeUpdate)

  /** src/hpack/encoder.rs:31-59 */
  function UpdateMaxSize(e: Encoder, val: nat): (r: Encoder) {
    match e.update
    case One(was) =>
      if val > was then
        if was > e.table.maxSize then e.(update := One(val)) else e.(update := Two(was, val))
      else e.(update := One(val))
    case Two(min, _) => e.(update := if val < min then One(val) else Two(min, val))
    case NoUpdate => if val != e.table.maxSize then e.(update := One(val)) else e
  }

  function UpdateAll(e: Encoder, vals: seq<nat>): (r: Encoder)
    decreases |vals|
  {
    if |vals| == 0 then e else UpdateAll(UpdateMaxSize(e, vals[0]), vals[1..])
  }

  function ResizeAll(t: DynTable, vals: seq<nat>): (r: DynTable)
    decreases |vals|
  {
    if |vals| == 0 then t else ResizeAll(Resize(t, vals[0]), vals[1..])
  }

  /** src/hpack/encoder.rs:98-112, the table's side of it. */
  function Flushed(e: Encoder): (t: DynTable) {
    match e.update
    case NoUpdate => e.table
    case One(v) => Resize(e.table, v)
    case Two(min, max) => Resize(Resize(e.table, min), max)
  }

  /** In Two the second size is not below the first. */
  ghost predicate Ascending(u: SizeUpdate) {
    u.Two? ==> u.min <= u.max
  }

  lemma ResizeTwice(t: DynTable, a: nat, b: nat)
    ensures Resize(Resize(t, a), b) == DynTable(EvictTo(t.entries, Min(a, b)), b)
  {
    EvictTwice(t.entries, a, b);
  }

  lemma ResizeThrice(t: DynTable, a: nat, b: nat, c: nat)
    ensures Resize(Resize(Resize(t, a), b), c) == DynTable(EvictTo(t.entries, Min(Min(a, b), c)), c)
  {
    EvictTwice(t.entries, a, b);
    EvictTwice(t.entries, Min(a, b), c);
  }

  /** Queueing one more size is as good as resizing once more. */
  lemma QueueOne(e: Encoder, val: nat)
    requires Fits(e.table) && Ascending(e.update)
    ensures Flushed(UpdateMaxSize(e, val)) == Resize(Flushed(e), val)
    ensures Ascending(UpdateMaxSize(e, val).update) && UpdateMaxSize(e, val).table == e.table
  {
    var t := e.table;
    match e.update
    case NoUpdate =>
    case One(was) =>
      ResizeTwice(t, was, val);
    case Two(min, max) =>
      ResizeThrice(t, min, max, val);
      ResizeTwice(t, min, val);
  }

  /** A size that the table has already is not announced. */
  lemma NothingToAnnounce(e: Encoder)
    requires e.update.NoUpdate?
    ensures UpdateMaxSize(e, e.table.maxSize) == e && SizeUpdateBytes(UpdateMaxSize(e, e.table.maxSize).update) == []
  {
  }

  /** Coalescing: however many sizes are queued before a block, what the encoder applies
      and announces has the effect of applying every one of them in turn. */
  lemma {:induction false} CoalescedIsSequential(e: Encoder, vals: seq<nat>)
    requires Fits(e.table) && Ascending(e.update)
    ensures Flushed(UpdateAll(e, vals)) == ResizeAll(Flushed(e), vals)
    decreases |vals|
  {
    if |vals| > 0 {
      QueueOne(e, vals[0]);
      CoalescedIsSequential(UpdateMaxSize(e, vals[0]), vals[1..]);
    }
  }

  // ----- whole sessions --------------------------------------------------------------------

  /** DEFAULT_SETTINGS_HEADER_TABLE_SIZE: what the decoder admits, and what the encoder
      caps the peer's wishes at (src/codec/mod.rs:161-166). */
  const TABLE_SIZE: nat := 4096

  /** src/hpack/encoder.rs:98-112, the octets. */
  function SizeUpdateBytes(u: SizeUpdate): (r: seq<Byte>) {
    match u
    case NoUpdate => []
    case One(v) => EncodeSizeUpdate(v)
    case Two(min, max) => EncodeSizeUpdate(min) + EncodeSizeUpdate(max)
  }

  /** src/hpack/encoder.rs:63-96 */
  function Encode(env: Env, e: Encoder, items: seq<Item>): (r: (seq<Byte>, Encoder)) {
    var (bytes, t) := EncodeItems(env, Flushed(e), None, items);
    (SizeUpdateBytes(e.update) + bytes, Encoder(t, NoUpdate))
  }

  ghost predicate Within(u: SizeUpdate, limit: nat) {
    match u
    case NoUpdate => true
    case One(v) => v <= limit
    case Two(min, max) => min <= limit && max <= limit
  }

  /** An encoder fit to serve a decoder with the given limit. */
  ghost predicate Serves(e: Encoder, limit: nat) {
    && limit < 0x1000_0000
    && Shared(e.table) && e.table.maxSize <= limit
    && Ascending(e.update) && Within(e.update, limit)
  }

  lemma DecodeSizeUpdate(env: Env, t: DynTable, limit: nat, size: nat, rest: seq<Byte>)
    requires size <= limit < 0x1000_0000
    ensures DecodeBlock(env, t, limit, true, EncodeSizeUpdate(size) + rest) ==
              DecodeBlock(env, Resize(t, size), limit, true, rest)
  {
    ReadSizeUpdate(env, Lookup(t), limit, size, rest);
    assert (EncodeSizeUpdate(size) + rest)[|EncodeSizeUpdate(size)|..] == rest;
  }

  lemma DecodeSizeUpdates(env: Env, e: Encoder, limit: nat, rest: seq<Byte>)
    requires Serves(e, limit)
    ensures DecodeBlock(env, e.table, limit, true, SizeUpdateBytes(e.update) + rest) ==
              DecodeBlock(env, Flushed(e), limit, true, rest)
  {
    match e.update
    case NoUpdate => assert [] + rest == rest;
    case One(v) => DecodeSizeUpdate(env, e.table, limit, v, rest);
    case Two(min, max) =>
      var a, b := EncodeSizeUpdate(min), EncodeSizeUpdate(max);
      assert a + b + rest == a + (b + rest);
      DecodeSizeUpdate(env, e.table, limit, min, b + rest);
      DecodeSizeUpdate(env, Resize(e.table, min), limit, max, rest);
  }

  lemma FlushedIsShared(e: Encoder, limit: nat)
    requires Serves(e, limit)
    ensures Shared(Flushed(e)) && Flushed(e).maxSize <= limit
  {
    match e.update
    case NoUpdate =>
    case One(v) => ResizeKeepsShared(e.table, v);
    case Two(min, max) =>
      ResizeKeepsShared(e.table, min);
      ResizeKeepsShared(Resize(e.table, min), max);
  }

  /** One block, size updates included: decoded from the table the encoder had before it,
      it gives the headers back and the table the encoder has after it. */
  lemma EncodeDecode(env: Env, e: Encoder, limit: nat, items: seq<Item>)
    requires WellFormed(env.code) && Serves(e, limit) && AllSendable(env, None, items)
    ensures var (bytes, e') := Encode(env, e, items);
            && DecodeBlock(env, e.table, limit, true, bytes) == Decoded(Meant(Status, items), e'.table, [], None)
            && Serves(e', limit)
  {
    var bytes := EncodeItems(env, Flushed(e), None, items).0;
    FlushedIsShared(e, limit);
    BlockRoundTrip(env, Flushed(e), limit, true, None, None, items);
    DecodeSizeUpdates(env, e, limit, bytes);
  }

  /** What happens on a connection, in one direction. */
  datatype Op = SetSize(val: nat) | Block(items: seq<Item>)

  function RunEncoder(env: Env, e: Encoder, ops: seq<Op>): (r: (seq<seq<Byte>>, Encoder))
    decreases |ops|
  {
    if |ops| == 0 then ([], e)
    else
      match ops[0]
      case SetSize(val) => RunEncoder(env, UpdateMaxSize(e, Min(val, TABLE_SIZE)), ops[1..])
      case Block(items) =>
        var (bytes, e') := Encode(env, e, items);
        var more := RunEncoder(env, e', ops[1..]);
        ([bytes] + more.0, more.1)
  }

  /** Blocks decoded one after the other, each from the table the one before left. */
  function RunDecoder(env: Env, t: DynTable, blocks: seq<seq<Byte>>): (r: (seq<Decoded>, DynTable))
    decreases |blocks|
  {
    if |blocks| == 0 then ([], t)
    else
      var d := DecodeBlock(env, t, TABLE_SIZE, true, blocks[0]);
      var more := RunDecoder(env, d.table, blocks[1..]);
      ([d] + more.0, more.1)
  }

  /** The header lists of a run. */
  function MeantBy(ops: seq<Op>): (r: seq<seq<Header>>) {
    if |ops| == 0 then []
    else if ops[0].Block? then [Meant(Status, ops[0].items)] + MeantBy(ops[1..])
    else MeantBy(ops[1..])
  }

  ghost predicate RunSendable(env: Env, ops: seq<Op>) {
    forall i :: 0 <= i < |ops| && ops[i].Block? ==> AllSendable(env, None, ops[i].items)
  }

  /** Decoded completely and without error. */
  ghost predicate AllDecoded(ds: seq<Decoded>, meant: seq<seq<Header>>) {
    && |ds| == |meant|
    && forall i :: 0 <= i < |ds| ==> ds[i].headers == meant[i] && ds[i].rest == [] && ds[i].error.None?
  }

  lemma QueueServes(e: Encoder, limit: nat, val: nat)
    requires Serves(e, limit) && val <= limit
    ensures Serves(UpdateMaxSize(e, val), limit) && UpdateMaxSize(e, val).table == e.table
  {
    QueueOne(e, val);
  }

  lemma DecodeFirst(env: Env, t: DynTable, bytes: seq<Byte>, more: seq<seq<Byte>>)
    ensures var d := DecodeBlock(env, t, TABLE_SIZE, true, bytes);
            var rest := RunDecoder(env, d.table, more);
            RunDecoder(env, t, [bytes] + more) == ([d] + rest.0, rest.1)
  {
    assert ([bytes] + more)[0] == bytes && ([bytes] + more)[1..] == more;
  }

  lemma OneMoreDecoded(d: Decoded, headers: seq<Header>, ds: seq<Decoded>, meant: seq<seq<Header>>)
    requires d.headers == headers && d.rest == [] && d.error.None? && AllDecoded(ds, meant)
    ensures AllDecoded([d] + ds, [headers] + meant)
  {
  }

  /** A run in step: what it encodes is decoded, and it leaves equal tables. */
  ghost predicate InSync(env: Env, e: Encoder, ops: seq<Op>) {
    match RunEncoder(env, e, ops)
    case (blocks, e') =>
      var (ds, t) := RunDecoder(env, e.table, blocks);
      AllDecoded(ds, MeantBy(ops)) && t == e'.table && Serves(e', TABLE_SIZE)
  }

  lemma BlockInSync(env: Env, e: Encoder, items: seq<Item>, ops: seq<Op>)
    requires |ops| > 0 && ops[0] == Block(items)
    requires DecodeBlock(env, e.table, TABLE_SIZE, true, Encode(env, e, items).0)
               == Decoded(Meant(Status, items), Encode(env, e, items).1.table, [], None)
    requires InSync(env, Encode(env, e, items).1, ops[1..])
    ensures InSync(env, e, ops)
  {
    var (bytes, e') := Encode(env, e, items);
    var more := RunEncoder(env, e', ops[1..]).0;
    DecodeFirst(env, e.table, bytes, more);
    OneMoreDecoded(DecodeBlock(env, e.table, TABLE_SIZE, true, bytes), Meant(Status, items),
                   RunDecoder(env, e'.table, more).0, MeantBy(ops[1..]));
  }

  /** Session synchrony. */
  lemma {:induction false} SessionStaysInSync(env: Env, e: Encoder, ops: seq<Op>)
    requires WellFormed(env.code) && Serves(e, TABLE_SIZE) && RunSendable(env, ops)
    ensures InSync(env, e, ops)
    decreases |ops|
  {
    if |ops| > 0 {
      assert RunSendable(env, ops[1..]);
      match ops[0]
      case SetSize(val) =>
        QueueServes(e, TABLE_SIZE, Min(val, TABLE_SIZE));
        SessionStaysInSync(env, UpdateMaxSize(e, Min(val, TABLE_SIZE)), ops[1..]);
      case Block(items) =>
        EncodeDecode(env, e, TABLE_SIZE, items);
        SessionStaysInSync(env, Encode(env, e, items).1, ops[1..]);
        BlockInSync(env, e, items, ops);
    }
  }

  /** In particular from a fresh connection, whatever the peer asks for. */
  lemma FreshSession(env: Env, ops: seq<Op>)
    requires WellFormed(env.code) && RunSendable(env, ops)
    ensures var initial := DynTable([], TABLE_SIZE);
            var (blocks, e') := RunEncoder(env, Encoder(initial, NoUpdate), ops);
            var (ds, t) := RunDecoder(env, initial, blocks);
            AllDecoded(ds, MeantBy(ops)) && t == e'.table
  {
    SessionStaysInSync(env, Encoder(DynTable([], TABLE_SIZE), NoUpdate), ops);
  }
}
