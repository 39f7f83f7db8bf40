/** Header fields and the static table (src/hpack/header.rs, src/hpack/table.rs:651-739,
    src/hpack/decoder.rs:624-832). */
module HpackHeader {
  import opened Prelude

  datatype Name =
    | Field(bytes: seq<Byte>)
    | Authority
    | Method
    | Scheme
    | Path
    | Protocol
    | Status

  /** value holds the octets that value_slice would return. */
  datatype Header = Header(name: Name, value: seq<Byte>, sensitive: bool)

  function Ascii(s: string): (r: seq<Byte>)
    ensures |r| == |s|
  {
    seq(|s|, i requires 0 <= i < |s| => if s[i] as int < 256 then s[i] as int else 0)
  }

  function NameBytes(n: Name): (r: seq<Byte>) {
    match n
    case Field(b) => b
    case Authority => Ascii(":authority")
    case Method => Ascii(":method")
    case Scheme => Ascii(":scheme")
    case Path => Ascii(":path")
    case Protocol => Ascii(":protocol")
    case Status => Ascii(":status")
  }

  function NameLen(n: Name): (r: nat) {
    match n
    case Field(b) => |b|
    case Authority => 10
    case Method => 7
    case Scheme => 7
    case Path => 5
    case Protocol => 9
    case Status => 7
  }

  /** The size of section 4.1 of RFC 7541. */
  function Len(h: Header): (n: nat)
    ensures n >= 32
  {
    32 + NameLen(h.name) + |h.value|
  }

  predicate IsSensitive(h: Header) {
    h.name.Field? && h.sensitive
  }

  /** Same kind and value; `:status` never compares equal. */
  predicate ValueEq(a: Header, b: Header) {
    match (a.name, b.name)
    case (Field(_), Field(_)) => a.value == b.value
    case (Status, _) => false
    case _ => a.name == b.name && a.value == b.value
  }

  function StaticFieldName(k: nat): (s: string)
    requires 15 <= k <= 61
  {
    match k
    case 15 => "accept-charset"
    case 16 => "accept-encoding"
    case 17 => "accept-language"
    case 18 => "accept-ranges"
    case 19 => "accept"
    case 20 => "access-control-allow-origin"
    case 21 => "age"
    case 22 => "allow"
    case 23 => "authorization"
    case 24 => "cache-control"
    case 25 => "content-disposition"
    case 26 => "content-encoding"
    case 27 => "content-language"
    case 28 => "content-length"
    case 29 => "content-location"
    case 30 => "content-range"
    case 31 => "content-type"
    case 32 => "cookie"
    case 33 => "date"
    case 34 => "etag"
    case 35 => "expect"
    case 36 => "expires"
    case 37 => "from"
    case 38 => "host"
    case 39 => "if-match"
    case 40 => "if-modified-since"
    case 41 => "if-none-match"
    case 42 => "if-range"
    case 43 => "if-unmodified-since"
    case 44 => "last-modified"
    case 45 => "link"
    case 46 => "location"
    case 47 => "max-forwards"
    case 48 => "proxy-authenticate"
    case 49 => "proxy-authorization"
    case 50 => "range"
    case 51 => "referer"
    case 52 => "refresh"
    case 53 => "retry-after"
    case 54 => "server"
    case 55 => "set-cookie"
    case 56 => "strict-transport-security"
    case 57 => "transfer-encoding"
    case 58 => "user-agent"
    case 59 => "vary"
    case 60 => "via"
    case _ => "www-authenticate"
  }

  function FieldOf(k: nat): (n: Name)
    requires 15 <= k <= 61
  {
    Field(Ascii(StaticFieldName(k)))
  }

  function StaticName(k: nat): (n: Name)
    requires 1 <= k <= 61
  {
    if k == 1 then Authority
    else if k <= 3 then Method
    else if k <= 5 then Path
    else if k <= 7 then Scheme
    else if k <= 14 then Status
    else FieldOf(k)
  }

  function StaticValue(k: nat): (v: seq<Byte>) {
    match k
    case 2 => Ascii("GET")
    case 3 => Ascii("POST")
    case 4 => Ascii("/")
    case 5 => Ascii("/index.html")
    case 6 => Ascii("http")
    case 7 => Ascii("https")
    case 8 => Ascii("200")
    case 9 => Ascii("204")
    case 10 => Ascii("206")
    case 11 => Ascii("304")
    case 12 => Ascii("400")
    case 13 => Ascii("404")
    case 14 => Ascii("500")
    case 16 => Ascii("gzip, deflate")
    case _ => []
  }

  /** An entry of the static table. */
  function StaticHeader(k: nat): (h: Header)
    requires 1 <= k <= 61
  {
    Header(StaticName(k), StaticValue(k), false)
  }

  /** The first static field name from k on that equals n. */
  function FindField(n: Name, k: nat): (r: Option<nat>)
    requires 15 <= k <= 62
    ensures r.Some? ==> k <= r.value <= 61 && FieldOf(r.value) == n
    ensures r.None? ==> forall j :: k <= j <= 61 ==> FieldOf(j) != n
    decreases 62 - k
  {
    if k == 62 then None
    else if FieldOf(k) == n then Some(k)
    else FindField(n, k + 1)
  }

  /** The first entry among lo..hi with the header's value, else lo by name only. */
  function FindValue(h: Header, lo: nat, k: nat, hi: nat): (r: (nat, bool))
    requires 1 <= lo <= k <= hi + 1 && hi <= 61
    ensures lo <= r.0 <= (if r.1 then hi else lo)
    ensures r.1 ==> StaticHeader(r.0).value == h.value
    decreases hi + 1 - k
  {
    if k > hi then (lo, false)
    else if StaticHeader(k).value == h.value then (k, true)
    else FindValue(h, lo, k + 1, hi)
  }

  /** Index in the static table, and whether the value matched as well. */
  function IndexStatic(h: Header): (r: Option<(nat, bool)>)
    ensures r.Some? ==> 1 <= r.value.0 <= 61 && StaticHeader(r.value.0).name == h.name
    ensures r.Some? && r.value.1 ==> StaticHeader(r.value.0).value == h.value
  {
    match h.name
    case Field(_) =>
      var k := FindField(h.name, 15);
      if k.None? then None
      else if k.value == 16 && h.value == Ascii("gzip, deflate") then Some((16, true))
      else Some((k.value, false))
    case Authority => Some((1, false))
    case Method => Some(FindValue(h, 2, 2, 3))
    case Path => Some(FindValue(h, 4, 4, 5))
    case Scheme => Some(FindValue(h, 6, 6, 7))
    case Status => Some(FindValue(h, 8, 8, 14))
    case Protocol => None
  }

  /** Values that are never put in the dynamic table. */
  predicate SkipValueIndex(h: Header) {
    match h.name
    case Field(_) =>
      h.name in {FieldOf(21), FieldOf(23), FieldOf(28), FieldOf(34), FieldOf(40), FieldOf(41),
                 FieldOf(46), FieldOf(32), FieldOf(55)}
    case Path => true
    case _ => false
  }

  /** The names whose values are never put into the table: the path, and nine fields. */
  lemma SkippedNames(h: Header)
    ensures SkipValueIndex(h) <==>
              h.name == Path ||
              (h.name.Field? && h.name.bytes in
                {Ascii("age"), Ascii("authorization"), Ascii("content-length"), Ascii("etag"), Ascii("if-modified-since"),
                 Ascii("if-none-match"), Ascii("location"), Ascii("cookie"), Ascii("set-cookie")})
  {
  }

  /** Section 4.1 of RFC 7541. */
  lemma LenIsOctets(h: Header)
    ensures Len(h) == |NameBytes(h.name)| + |h.value| + 32
  {
  }

  /** The debug assertion of src/hpack/table.rs:130: such a name is always static. */
  lemma SkippedNamesAreStatic(h: Header)
    requires SkipValueIndex(h)
    ensures IndexStatic(h).Some?
  {
    if h.name.Field? {
      var k :| k in {21, 23, 28, 34, 40, 41, 46, 32, 55} && h.name == FieldOf(k);
      assert FindField(h.name, 15).Some?;
    }
  }

  ghost predicate InStaticTable(h: Header) {
    exists k :: 1 <= k <= 61 && StaticName(k) == h.name && StaticValue(k) == h.value
  }

  lemma FieldsAreExact(h: Header)
    requires h.name.Field?
    ensures IndexStatic(h).Some? <==> exists k :: 1 <= k <= 61 && StaticName(k) == h.name
    ensures IndexStatic(h).Some? && IndexStatic(h).value.1 <==> h.value != [] && InStaticTable(h)
  {
    var k := FindField(h.name, 15);
    if k.Some? {
      assert StaticName(k.value) == h.name;
      assert |Ascii(StaticFieldName(15))| != |Ascii(StaticFieldName(16))|;
      if h.value != [] {
        OnlyOneFieldValue(h.value);
      }
    } else {
      assert forall j :: 1 <= j < 15 ==> !StaticName(j).Field?;
    }
  }

  /** Of the fields only accept-encoding has a value in the table. */
  lemma OnlyOneFieldValue(v: seq<Byte>)
    requires v != []
    ensures forall k :: 15 <= k <= 61 && StaticValue(k) == v ==> k == 16
  {
  }

  lemma PseudoAreExact(h: Header)
    requires !h.name.Field?
    ensures IndexStatic(h).Some? <==> exists k :: 1 <= k <= 61 && StaticName(k) == h.name
    ensures IndexStatic(h).Some? && IndexStatic(h).value.1 <==> h.value != [] && InStaticTable(h)
  {
  }

  /** The static table is searched exactly: a name is found if it is in the table, and its
      value with it if the table has both; values the table leaves empty never match. */
  lemma IndexStaticIsExact(h: Header)
    ensures IndexStatic(h).Some? <==> exists k :: 1 <= k <= 61 && StaticName(k) == h.name
    ensures IndexStatic(h).Some? && IndexStatic(h).value.1 <==> h.value != [] && InStaticTable(h)
  {
    if h.name.Field? {
      FieldsAreExact(h);
    } else {
      PseudoAreExact(h);
    }
  }
}
