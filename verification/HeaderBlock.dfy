/** From decoded headers to a header section: pseudo-headers first and once, no
    connection-specific fields, limits on number and size (src/frame/headers.rs:465-571). */
module HeaderBlock {
  import opened Prelude
  import opened HpackHeader

  /** The pseudo-headers of a section; Field stands for none of them. */
  datatype Section = Section(pseudo: map<Name, seq<Byte>>, fields: seq<Header>)

  const MAX_USIZE: nat := 0xFFFF_FFFF_FFFF_FFFF

  function Lower(b: Byte): (r: Byte) {
    if 65 <= b <= 90 then b + 32 else b
  }

  predicate EqIgnoreCase(a: seq<Byte>, b: seq<Byte>) {
    |a| == |b| && forall i :: 0 <= i < |a| ==> Lower(a[i]) == Lower(b[i])
  }

  /** Fields that belong to a connection of HTTP/1.1, and `te` with anything but trailers
      (section 8.2.2 of RFC 9113). */
  predicate ConnectionSpecific(h: Header) {
    match h.name
    case Field(b) =>
      || b == Ascii("connection") || b == Ascii("transfer-encoding") || b == Ascii("upgrade")
      || b == Ascii("keep-alive") || b == Ascii("proxy-connection")
      || (b == Ascii("te") && !EqIgnoreCase(h.value, Ascii("trailers")))
    case _ => false
  }

  function SaturatingAdd(a: nat, b: nat): (r: nat) {
    if a + b > MAX_USIZE then MAX_USIZE else a + b
  }

  // ----- the fold -----------------------------------------------------------------------------

  /** The variables of the closure. */
  datatype Load = Load(section: Section, reg: bool, malformed: bool, tooMany: bool, numFields: nat, listSize: nat)

  function Start(): (l: Load) {
    Load(Section(map[], []), false, false, false, 0, 0)
  }

  /** src/frame/headers.rs:495-557 */
  function LoadHeader(l: Load, h: Header, maxHeaders: nat, maxList: nat): (r: Load) {
    var size := SaturatingAdd(l.listSize, Len(h));
    var l' := l.(listSize := size, tooMany := l.tooMany || size > maxList);
    if l'.tooMany then l'
    else if h.name.Field? then
      if ConnectionSpecific(h) then l'.(malformed := true)
      else
        var n := l.numFields + 1;
        l'.(reg := true, numFields := n, tooMany := n > maxHeaders,
            section := if n > maxHeaders then l.section else l.section.(fields := l.section.fields + [h]))
    else if l.reg || h.name in l.section.pseudo then l'.(malformed := true)
    else l'.(section := l.section.(pseudo := l.section.pseudo[h.name := h.value]))
  }

  function LoadFrom(l: Load, hs: seq<Header>, maxHeaders: nat, maxList: nat): (r: Load)
    decreases |hs|
  {
    if |hs| == 0 then l else LoadFrom(LoadHeader(l, hs[0], maxHeaders, maxList), hs[1..], maxHeaders, maxList)
  }

  datatype Loaded = Accepted(section: Section) | Malformed | TooManyHeaders

  function Verdict(l: Load): (r: Loaded) {
    if l.malformed then Malformed else if l.tooMany then TooManyHeaders else Accepted(l.section)
  }

  /** The callback applied to each decoded header in turn. */
  method LoadAll(hs: seq<Header>, maxHeaders: nat, maxList: nat) returns (r: Loaded)
    ensures r == Verdict(LoadFrom(Start(), hs, maxHeaders, maxList))
  {
    var l := Start();
    var i := 0;
    assert hs[0..] == hs;
    while i < |hs|
      invariant 0 <= i <= |hs|
      invariant LoadFrom(l, hs[i..], maxHeaders, maxList) == LoadFrom(Start(), hs, maxHeaders, maxList)
    {
      assert hs[i..][1..] == hs[i + 1..];
      l := LoadHeader(l, hs[i], maxHeaders, maxList);
      i := i + 1;
    }
    assert hs[i..] == [];
    r := Verdict(l);
  }

  // ----- what is accepted ------------------------------------------------------------------------

  function ListSize(hs: seq<Header>): (n: nat) {
    if |hs| == 0 then 0 else Len(hs[0]) + ListSize(hs[1..])
  }

  function FieldsOf(hs: seq<Header>): (fs: seq<Header>) {
    if |hs| == 0 then [] else (if hs[0].name.Field? then [hs[0]] else []) + FieldsOf(hs[1..])
  }

  /** Well formed behind a pseudo part that is there already. */
  ghost predicate WellFormedAfter(reg: bool, seen: set<Name>, hs: seq<Header>)
    decreases |hs|
  {
    |hs| == 0 ||
    if hs[0].name.Field? then !ConnectionSpecific(hs[0]) && WellFormedAfter(true, seen, hs[1..])
    else !reg && hs[0].name !in seen && WellFormedAfter(reg, seen + {hs[0].name}, hs[1..])
  }

  function PseudoOf(base: map<Name, seq<Byte>>, hs: seq<Header>): (m: map<Name, seq<Byte>>)
    decreases |hs|
  {
    if |hs| == 0 then base
    else PseudoOf(if hs[0].name.Field? then base else base[hs[0].name := hs[0].value], hs[1..])
  }

  /** What a rejected block ends as: rejected. */
  lemma {:induction false} StaysRejected(l: Load, hs: seq<Header>, maxHeaders: nat, maxList: nat)
    requires l.malformed || l.tooMany
    ensures !Verdict(LoadFrom(l, hs, maxHeaders, maxList)).Accepted?
    decreases |hs|
  {
    if |hs| > 0 {
      StaysRejected(LoadHeader(l, hs[0], maxHeaders, maxList), hs[1..], maxHeaders, maxList);
    }
  }

  /** The rest of a list is taken in exactly if it is well formed and within both limits. */
  ghost predicate Acceptable(l: Load, hs: seq<Header>, maxHeaders: nat, maxList: nat) {
    && WellFormedAfter(l.reg, l.section.pseudo.Keys, hs)
    && l.listSize + ListSize(hs) <= maxList
    && l.numFields + |FieldsOf(hs)| <= maxHeaders
  }

  lemma {:induction false} AcceptsExactly(l: Load, hs: seq<Header>, maxHeaders: nat, maxList: nat)
    requires !l.malformed && !l.tooMany && l.listSize <= maxList < MAX_USIZE && l.numFields <= maxHeaders
    ensures var r := Verdict(LoadFrom(l, hs, maxHeaders, maxList));
            && (r.Accepted? <==> Acceptable(l, hs, maxHeaders, maxList))
            && (r.Accepted? ==> r.section == Section(PseudoOf(l.section.pseudo, hs), l.section.fields + FieldsOf(hs)))
    decreases |hs|
  {
    if |hs| == 0 {
      assert l.section.fields + [] == l.section.fields;
    } else {
      var l' := LoadHeader(l, hs[0], maxHeaders, maxList);
      if l'.malformed || l'.tooMany {
        StaysRejected(l', hs[1..], maxHeaders, maxList);
      } else {
        AcceptsExactly(l', hs[1..], maxHeaders, maxList);
        assert hs[0].name.Field? ==> l.section.fields + FieldsOf(hs) == l'.section.fields + FieldsOf(hs[1..]);
        assert !hs[0].name.Field? ==> l'.section.pseudo.Keys == l.section.pseudo.Keys + {hs[0].name};
      }
    }
  }

  /** A header section is accepted if and only if it is well formed and within both limits,
      and then it is what the list says. */
  lemma SectionIsExact(hs: seq<Header>, maxHeaders: nat, maxList: nat)
    requires maxList < MAX_USIZE
    ensures var r := Verdict(LoadFrom(Start(), hs, maxHeaders, maxList));
            && (r.Accepted? <==> WellFormedAfter(false, {}, hs) && ListSize(hs) <= maxList && |FieldsOf(hs)| <= maxHeaders)
            && (r.Accepted? ==> r.section == Section(PseudoOf(map[], hs), FieldsOf(hs)))
  {
    AcceptsExactly(Start(), hs, maxHeaders, maxList);
    assert [] + FieldsOf(hs) == FieldsOf(hs);
    assert Start().section.pseudo.Keys == {};
  }

  // ----- sending a section --------------------------------------------------------------------

  function PseudoOrder(): (ns: seq<Name>)
    ensures |ns| == 6
  {
    [Method, Scheme, Authority, Path, Protocol, Status]
  }

  /** src/frame/headers.rs:354-389: pseudo-headers in a fixed order, then the fields. */
  function PseudoHeaders(pseudo: map<Name, seq<Byte>>, k: nat): (hs: seq<Header>)
    requires k <= 6
    decreases 6 - k
  {
    if k == 6 then []
    else
      var n := PseudoOrder()[k];
      (if n in pseudo then [Header(n, pseudo[n], false)] else []) + PseudoHeaders(pseudo, k + 1)
  }

  function HeadersOf(s: Section): (hs: seq<Header>) {
    PseudoHeaders(s.pseudo, 0) + s.fields
  }

  /** A section as the library holds it: known pseudo-headers, and fields. */
  ghost predicate Proper(s: Section) {
    && (forall n :: n in s.pseudo ==> !n.Field?)
    && (forall i :: 0 <= i < |s.fields| ==> s.fields[i].name.Field? && !ConnectionSpecific(s.fields[i]))
  }

  lemma {:induction false} FieldsAlone(reg: bool, seen: set<Name>, base: map<Name, seq<Byte>>, fields: seq<Header>)
    requires forall i :: 0 <= i < |fields| ==> fields[i].name.Field? && !ConnectionSpecific(fields[i])
    ensures WellFormedAfter(reg, seen, fields) && FieldsOf(fields) == fields && PseudoOf(base, fields) == base
    decreases |fields|
  {
    if |fields| > 0 {
      FieldsAlone(true, seen, base, fields[1..]);
      assert fields == [fields[0]] + fields[1..];
    }
  }

  function Known(k: nat): (ns: set<Name>)
    requires k <= 6
  {
    set i | 0 <= i < k :: PseudoOrder()[i]
  }

  /** base has the first k of the pseudo-headers. */
  ghost predicate FirstOnes(pseudo: map<Name, seq<Byte>>, k: nat, base: map<Name, seq<Byte>>)
    requires k <= 6
  {
    match base
    case base =>
      && (forall n :: n in base <==> n in pseudo && n in Known(k))
      && (forall n :: n in base ==> base[n] == pseudo[n])
  }

  lemma NotThere(pseudo: map<Name, seq<Byte>>, k: nat, base: map<Name, seq<Byte>>)
    requires k < 6 && FirstOnes(pseudo, k, base) && PseudoOrder()[k] !in pseudo
    ensures FirstOnes(pseudo, k + 1, base) && PseudoHeaders(pseudo, k) == PseudoHeaders(pseudo, k + 1)
  {
    OneMoreKnown(k);
  }

  /** With the first k pseudo-headers read. */
  lemma {:induction false} PseudoInFront(s: Section, k: nat, base: map<Name, seq<Byte>>)
    requires Proper(s) && k <= 6
    requires FirstOnes(s.pseudo, k, base)
    ensures var hs := PseudoHeaders(s.pseudo, k) + s.fields;
            WellFormedAfter(false, base.Keys, hs) && FieldsOf(hs) == s.fields && PseudoOf(base, hs) == s.pseudo
    decreases 6 - k
  {
    if k == 6 {
      AllKnown(s, base);
      FieldsAlone(false, base.Keys, base, s.fields);
      assert PseudoHeaders(s.pseudo, k) + s.fields == s.fields;
    } else {
      var n := PseudoOrder()[k];
      if n in s.pseudo {
        OneMoreRead(s, k, base, n);
        PseudoInFront(s, k + 1, base[n := s.pseudo[n]]);
        OneMoreWritten(s, k, n, base);
      } else {
        NotThere(s.pseudo, k, base);
        PseudoInFront(s, k + 1, base);
      }
    }
  }

  lemma OneMoreWritten(s: Section, k: nat, n: Name, base: map<Name, seq<Byte>>)
    requires k < 6 && n == PseudoOrder()[k] && n in s.pseudo && n !in base
    requires WellFormedAfter(false, base[n := s.pseudo[n]].Keys, PseudoHeaders(s.pseudo, k + 1) + s.fields)
    ensures var more := PseudoHeaders(s.pseudo, k + 1) + s.fields;
            var hs := PseudoHeaders(s.pseudo, k) + s.fields;
            && WellFormedAfter(false, base.Keys, hs) && FieldsOf(hs) == FieldsOf(more)
            && PseudoOf(base, hs) == PseudoOf(base[n := s.pseudo[n]], more)
  {
    var h := Header(n, s.pseudo[n], false);
    OneMoreKnown(k);
    FirstPseudo(s.pseudo, k, h, s.fields);
    HeaderInFront(h, PseudoHeaders(s.pseudo, k + 1) + s.fields, base);
  }

  lemma FirstPseudo(pseudo: map<Name, seq<Byte>>, k: nat, h: Header, fields: seq<Header>)
    requires k < 6 && PseudoOrder()[k] in pseudo && h == Header(PseudoOrder()[k], pseudo[PseudoOrder()[k]], false)
    ensures PseudoHeaders(pseudo, k) + fields == [h] + (PseudoHeaders(pseudo, k + 1) + fields)
  {
    var more := PseudoHeaders(pseudo, k + 1);
    assert PseudoHeaders(pseudo, k) == [h] + more;
    assert [h] + more + fields == [h] + (more + fields);
  }

  lemma OneMoreRead(s: Section, k: nat, base: map<Name, seq<Byte>>, n: Name)
    requires k < 6 && n == PseudoOrder()[k] && n in s.pseudo
    requires FirstOnes(s.pseudo, k, base)
    ensures FirstOnes(s.pseudo, k + 1, base[n := s.pseudo[n]]) && n !in base
  {
    OneMoreKnown(k);
  }

  lemma HeaderInFront(h: Header, more: seq<Header>, base: map<Name, seq<Byte>>)
    requires !h.name.Field? && h.name !in base && WellFormedAfter(false, base[h.name := h.value].Keys, more)
    ensures var hs := [h] + more;
            && WellFormedAfter(false, base.Keys, hs) && FieldsOf(hs) == FieldsOf(more)
            && PseudoOf(base, hs) == PseudoOf(base[h.name := h.value], more)
  {
    assert ([h] + more)[1..] == more;
    assert base[h.name := h.value].Keys == base.Keys + {h.name};
    assert [] + FieldsOf(more) == FieldsOf(more);
  }

  lemma OneMoreKnown(k: nat)
    requires k < 6
    ensures PseudoOrder()[k] !in Known(k) && Known(k + 1) == Known(k) + {PseudoOrder()[k]}
    ensures !PseudoOrder()[k].Field?
  {
    forall i, j | 0 <= i < j < 6
      ensures PseudoOrder()[i] != PseudoOrder()[j]
    {
    }
  }

  lemma AllKnown(s: Section, base: map<Name, seq<Byte>>)
    requires Proper(s) && FirstOnes(s.pseudo, 6, base)
    ensures base == s.pseudo
  {
    forall n | n in s.pseudo
      ensures n in Known(6)
    {
      var o := PseudoOrder();
      assert o[0] == Method && o[1] == Scheme && o[2] == Authority && o[3] == Path && o[4] == Protocol && o[5] == Status;
      match n
      case Method => assert o[0] in Known(6);
      case Scheme => assert o[1] in Known(6);
      case Authority => assert o[2] in Known(6);
      case Path => assert o[3] in Known(6);
      case Protocol => assert o[4] in Known(6);
      case Status => assert o[5] in Known(6);
      case Field(_) =>
    }
  }

  /** A section that is sent is read back as it was, if it is within the reader's limits. */
  lemma SectionRoundTrip(s: Section, maxHeaders: nat, maxList: nat)
    requires Proper(s) && maxList < MAX_USIZE
    ensures Verdict(LoadFrom(Start(), HeadersOf(s), maxHeaders, maxList)).Accepted? <==>
              ListSize(HeadersOf(s)) <= maxList && |s.fields| <= maxHeaders
    ensures ListSize(HeadersOf(s)) <= maxList && |s.fields| <= maxHeaders ==>
              Verdict(LoadFrom(Start(), HeadersOf(s), maxHeaders, maxList)) == Accepted(s)
  {
    var base: map<Name, seq<Byte>> := map[];
    PseudoInFront(s, 0, base);
    assert base.Keys == {};
    SectionIsExact(HeadersOf(s), maxHeaders, maxList);
  }
}
