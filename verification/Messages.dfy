/** What a stream makes of the header sections and payloads of one message
    (src/stream.rs:547-702), with the content-length it was promised. */
module Messages {
  import opened Prelude

  datatype Half = Idle | Payload | Closed

  datatype ContentLength = Omitted | Head | Remaining(rem: nat)

  datatype Method = Connect | HeadMethod | OtherMethod

  datatype Pseudo = Pseudo(
    verb: Option<Method>,
    scheme: Option<seq<Byte>>,
    authority: Option<seq<Byte>>,
    path: Option<seq<Byte>>,
    protocol: Option<seq<Byte>>,
    status: Option<nat>)

  datatype Headers = Headers(pseudo: Pseudo, contentLength: Option<seq<Byte>>, eof: bool)

  // ----- content-length values ---------------------------------------------------------

  predicate Digits(s: seq<Byte>) {
    forall i :: 0 <= i < |s| ==> 48 <= s[i] <= 57
  }

  /** The number a digit string writes, in base ten. */
  function Decimal(s: seq<Byte>): (n: int) {
    if |s| == 0 then 0 else 10 * Decimal(s[..|s| - 1]) + (s[|s| - 1] as int - 48)
  }

  function Pow10(n: nat): (p: nat)
  {
    if n == 0 then 1 else 10 * Pow10(n - 1)
  }

  lemma {:induction false} DecimalBound(s: seq<Byte>)
    requires Digits(s)
    ensures 0 <= Decimal(s) < Pow10(|s|)
  {
    if |s| > 0 {
      DecimalBound(s[..|s| - 1]);
    }
  }

  lemma NineteenDigits(s: seq<Byte>)
    requires Digits(s) && |s| <= 19
    ensures 0 <= Decimal(s) < 0x1_0000_0000_0000_0000
  {
    DecimalBound(s);
    Pow10Grows(|s|, 19);
    assert Pow10(4) == 10000 * Pow10(0);
    assert Pow10(8) == 10000 * Pow10(4);
    assert Pow10(12) == 10000 * Pow10(8);
    assert Pow10(16) == 10000 * Pow10(12);
    assert Pow10(19) == 1000 * Pow10(16);
  }

  lemma {:induction false} Pow10Grows(a: nat, b: nat)
    requires a <= b
    ensures Pow10(a) <= Pow10(b)
  {
    if a < b {
      Pow10Grows(a, b - 1);
    }
  }

  /** A content-length that is understood: at most 19 digits. */
  function ParseU64(src: seq<Byte>): (r: Option<nat>)
    ensures r.Some? ==> r.value < 0x1_0000_0000_0000_0000
  {
    if |src| <= 19 && Digits(src) then
      NineteenDigits(src);
      Some(Decimal(src))
    else None
  }

  /** src/stream.rs:1251-1268, in 64-bit arithmetic that never overflows. */
  method ReadU64(src: seq<Byte>) returns (r: Option<nat>)
    ensures r == ParseU64(src)
  {
    if |src| > 19 {
      return None;
    }
    var ret: nat := 0;
    var i := 0;
    while i < |src|
      invariant 0 <= i <= |src| && Digits(src[..i]) && ret == Decimal(src[..i])
    {
      var d := src[i];
      if !(48 <= d <= 57) {
        return None;
      }
      assert src[..i + 1][..i] == src[..i];
      NineteenDigits(src[..i + 1]);
      assert ret * 10 + (d - 48) < 0x1_0000_0000_0000_0000;
      ret := ret * 10;
      ret := ret + (d - 48);
      i := i + 1;
    }
    assert src[..i] == src;
    r := Some(ret);
  }

  // ----- header sections and payloads ------------------------------------------------------

  /** What a header section does to the receive half. */
  datatype Heard =
    | Interim
    | Opened(content: ContentLength, eof: bool)
    | Ended
    | Malformed

  predicate Informational(status: nat) {
    100 <= status < 200
  }

  predicate NoPseudo(p: Pseudo) {
    p == Pseudo(None, None, None, None, None, None)
  }

  /** src/stream.rs:550-573 */
  predicate GoodResponse(h: Headers) {
    && h.pseudo.status.Some?
    && h.pseudo.(status := None) == Pseudo(None, None, None, None, None, None)
    && (Informational(h.pseudo.status.value) ==> !h.eof && h.pseudo.status.value != 101)
  }

  /** src/connection.rs:841-861 */
  predicate GoodRequest(p: Pseudo) {
    && p.verb.Some? && p.protocol.None? && p.status.None?
    && if p.verb == Some(Connect) then
         p.authority.Some? && p.authority.value != [] && p.scheme.None? && p.path.None?
       else
         p.path.Some? && p.path.value != [] && p.scheme.Some? && p.scheme.value != []
  }

  /** src/stream.rs:546-635 */
  function HearHeaders(remote: bool, recv: Half, content: ContentLength, h: Headers): (r: Heard) {
    match recv
    case Idle =>
      if !remote && !GoodResponse(h) then Malformed
      else if !remote && Informational(h.pseudo.status.value) then Interim
      else if content != Head && h.contentLength.Some? then
        match ParseU64(h.contentLength.value)
        case None => Malformed
        case Some(v) =>
          if h.eof && v != 0 && h.pseudo.status != Some(304) then Malformed
          else Opened(Remaining(v), h.eof)
      else Opened(content, h.eof)
    case Payload =>
      if content.Remaining? && content.rem != 0 then Malformed
      else if !NoPseudo(h.pseudo) then Malformed
      else if h.eof then Ended
      else Malformed
    case Closed => Malformed
  }

  /** src/stream.rs:664-701: Refused leaves the stream to be reset. */
  datatype Taken = Took(content: ContentLength) | Refused(content: ContentLength)

  function TakePayload(recv: Half, content: ContentLength, len: nat, eof: bool): (r: Taken) {
    if recv != Payload then Refused(content)
    else
      match content
      case Omitted => Took(content)
      case Head => if len > 0 then Refused(content) else Took(content)
      case Remaining(rem) =>
        if len > rem then Refused(content)
        else if eof && len != rem then Refused(Remaining(rem - len))
        else Took(Remaining(rem - len))
  }

  // ----- whole messages --------------------------------------------------------------------

  datatype Incoming = HeadersIn(headers: Headers) | DataIn(len: nat, eof: bool)

  /** One incoming message: how much was delivered, what was promised, and how it ended. */
  datatype Message = Message(
    remote: bool,
    recv: Half,
    content: ContentLength,
    delivered: nat,
    promised: Option<nat>,
    notModified: bool,
    broken: bool)

  function Receive(m: Message, f: Incoming): (r: Message) {
    if m.broken then m
    else
      match f
      case HeadersIn(h) =>
        (match HearHeaders(m.remote, m.recv, m.content, h)
         case Interim => m
         case Opened(content, eof) =>
           m.(recv := if eof then Closed else Payload, content := content,
              promised := if content.Remaining? then Some(content.rem) else None,
              notModified := eof && h.pseudo.status == Some(304))
         case Ended => m.(recv := Closed)
         case Malformed => m.(recv := Closed, broken := true))
      case DataIn(len, eof) =>
        match TakePayload(m.recv, m.content, len, eof)
        case Took(content) => m.(recv := if eof then Closed else Payload, content := content, delivered := m.delivered + len)
        case Refused(content) => m.(recv := Closed, content := content, broken := true)
  }

  function ReceiveAll(m: Message, fs: seq<Incoming>): (r: Message)
    decreases |fs|
  {
    if |fs| == 0 then m else ReceiveAll(Receive(m, fs[0]), fs[1..])
  }

  function NewMessage(remote: bool, head: bool): (m: Message) {
    Message(remote, Idle, if head then Head else Omitted, 0, None, false, false)
  }

  ghost predicate Accounted(m: Message) {
    && (m.recv == Idle ==> m.delivered == 0 && m.promised.None? && !m.content.Remaining?)
    && (m.content.Head? ==> m.delivered == 0)
    && (m.promised.Some? <==> m.content.Remaining?)
    && (m.promised.Some? ==> m.delivered <= m.promised.value)
    && (m.promised.Some? && !m.broken ==> m.delivered + m.content.rem == m.promised.value)
    && (m.promised.Some? && !m.broken && m.recv == Closed && !m.notModified ==> m.content.rem == 0)
  }

  lemma ReceiveAccounts(m: Message, f: Incoming)
    requires Accounted(m)
    ensures Accounted(Receive(m, f))
  {
  }

  lemma {:induction false} ReceiveAllAccounts(m: Message, fs: seq<Incoming>)
    requires Accounted(m)
    ensures Accounted(ReceiveAll(m, fs))
    decreases |fs|
  {
    if |fs| > 0 {
      ReceiveAccounts(m, fs[0]);
      ReceiveAllAccounts(Receive(m, fs[0]), fs[1..]);
    }
  }

  /** Whatever frames arrive: no more is delivered than was promised, all of it if the
      message ends without an error (a 304 may promise what it leaves out), and nothing in
      answer to HEAD. */
  lemma ContentLengthHolds(remote: bool, head: bool, fs: seq<Incoming>)
    ensures var m := ReceiveAll(NewMessage(remote, head), fs);
            && (m.promised.Some? ==> m.delivered <= m.promised.value)
            && (m.promised.Some? && m.recv == Closed && !m.broken && !m.notModified ==> m.delivered == m.promised.value)
            && (head ==> m.delivered == 0)
  {
    ReceiveAllAccounts(NewMessage(remote, head), fs);
    if head {
      StaysHead(NewMessage(remote, head), fs);
    }
  }

  lemma {:induction false} StaysHead(m: Message, fs: seq<Incoming>)
    requires m.content.Head?
    ensures ReceiveAll(m, fs).content.Head?
    decreases |fs|
  {
    if |fs| > 0 {
      StaysHead(Receive(m, fs[0]), fs[1..]);
    }
  }

  // ----- which messages are accepted ----------------------------------------------------------

  function Response(status: nat): (p: Pseudo) {
    Pseudo(None, None, None, None, None, Some(status))
  }

  /** A response has a status and no other pseudo-header; an interim one leaves the stream
      open and does not switch protocols. */
  lemma ResponsesAreGood(h: Headers)
    ensures GoodResponse(h) <==>
              exists status: nat :: h.pseudo == Response(status) && (100 <= status < 200 ==> !h.eof && status != 101)
  {
    if h.pseudo.status.Some? && h.pseudo == Response(h.pseudo.status.value) {
      assert GoodResponse(h) <==> (100 <= h.pseudo.status.value < 200 ==> !h.eof && h.pseudo.status.value != 101);
    }
  }

  /** Section 8.3.1 and, for CONNECT, section 8.5 of RFC 9113. */
  lemma RequestsAreGood(verb: Method, scheme: seq<Byte>, authority: Option<seq<Byte>>, path: seq<Byte>, host: seq<Byte>)
    ensures verb != Connect ==>
              (GoodRequest(Pseudo(Some(verb), Some(scheme), authority, Some(path), None, None)) <==> scheme != [] && path != [])
    ensures GoodRequest(Pseudo(Some(Connect), None, Some(host), None, None, None)) <==> host != []
    ensures forall p :: GoodRequest(p) ==> p.verb.Some? && p.protocol.None? && p.status.None? && (p.verb == Some(Connect) <==> p.path.None?)
  {
  }

  /** A message that waits for its header section. */
  predicate Waits(m: Message) {
    !m.broken && m.recv == Idle && !m.content.Remaining? && m.promised.None?
  }

  /** An interim response changes nothing; any other section that a client may take for a
      response, and a server always, opens the payload. */
  lemma HeadersOpen(m: Message, h: Headers)
    requires Waits(m) && (m.remote || (GoodResponse(h) && !Informational(h.pseudo.status.value)))
    ensures var m' := Receive(m, HeadersIn(h));
            if m.content == Head || h.contentLength.None? then
              m' == m.(recv := if h.eof then Closed else Payload, notModified := h.eof && h.pseudo.status == Some(304))
            else
              var v := h.contentLength.value;
              && (m'.broken <==> !(Digits(v) && |v| <= 19) || (h.eof && Decimal(v) != 0 && h.pseudo.status != Some(304)))
              && (!m'.broken ==>
                    && m'.recv == (if h.eof then Closed else Payload)
                    && m'.promised == Some(Decimal(v)) && m'.content == Remaining(Decimal(v)) && m'.delivered == m.delivered)
  {
  }

  lemma InterimIsSkipped(m: Message, h: Headers)
    requires Waits(m) && !m.remote
    ensures GoodResponse(h) && Informational(h.pseudo.status.value) ==> Receive(m, HeadersIn(h)) == m
    ensures !GoodResponse(h) ==> Receive(m, HeadersIn(h)).broken
  {
  }

  /** Trailers end the payload if they are trailers, nothing is missing, and END_STREAM is
      there; nothing at all is heard after the end. */
  lemma TrailersEnd(m: Message, h: Headers)
    requires !m.broken && m.recv == Payload
    ensures var m' := Receive(m, HeadersIn(h));
            && (!m'.broken <==> NoPseudo(h.pseudo) && h.eof && (m.content.Remaining? ==> m.content.rem == 0))
            && (!m'.broken ==> m' == m.(recv := Closed))
  {
  }

  lemma NothingAfterTheEnd(m: Message, f: Incoming)
    requires !m.broken && m.recv == Closed
    ensures Receive(m, f).broken
  {
  }

  /** Frames of these lengths, the last one with END_STREAM if last says so. */
  function PayloadFrames(lens: seq<nat>, last: bool): (fs: seq<Incoming>) {
    if |lens| == 0 then [] else [DataIn(lens[0], last && |lens| == 1)] + PayloadFrames(lens[1..], last)
  }

  function Sum(lens: seq<nat>): (n: nat) {
    if |lens| == 0 then 0 else lens[0] + Sum(lens[1..])
  }

  lemma {:induction false} BrokenStays(m: Message, fs: seq<Incoming>)
    requires m.broken
    ensures ReceiveAll(m, fs) == m
    decreases |fs|
  {
    if |fs| > 0 {
      BrokenStays(m, fs[1..]);
    }
  }

  /** Payload within the promise is accepted frame by frame, and ends the message exactly if
      it adds up to the promise. */
  lemma {:induction false} PayloadIsExact(m: Message, lens: seq<nat>, last: bool)
    requires !m.broken && m.recv == Payload && m.content.Remaining? && |lens| > 0
    ensures var m', n := ReceiveAll(m, PayloadFrames(lens, last)), Sum(lens);
            && (!m'.broken <==> if last then n == m.content.rem else n <= m.content.rem)
            && (!m'.broken ==>
                  m' == m.(recv := if last then Closed else Payload, content := Remaining(m.content.rem - n), delivered := m.delivered + n))
    decreases |lens|
  {
    var fs := PayloadFrames(lens, last);
    var m' := Receive(m, fs[0]);
    assert fs[1..] == PayloadFrames(lens[1..], last);
    if |lens| == 1 {
      assert fs[1..] == [];
    } else if m'.broken {
      BrokenStays(m', fs[1..]);
    } else {
      PayloadIsExact(m', lens[1..], last);
    }
  }

  /** A header section with a content-length and payload after it: the message is accepted
      exactly if the payload adds up to the content-length. */
  lemma MessageIsAccepted(m: Message, h: Headers, lens: seq<nat>)
    requires Waits(m) && m.content != Head && (m.remote || (GoodResponse(h) && !Informational(h.pseudo.status.value)))
    requires h.contentLength.Some? && Digits(h.contentLength.value) && |h.contentLength.value| <= 19 && !h.eof && |lens| > 0
    ensures var m' := ReceiveAll(m, [HeadersIn(h)] + PayloadFrames(lens, true));
            && (!m'.broken <==> Sum(lens) == Decimal(h.contentLength.value))
            && (!m'.broken ==> m'.recv == Closed && m'.delivered == m.delivered + Sum(lens))
  {
    HeadersOpen(m, h);
    var fs := PayloadFrames(lens, true);
    assert ([HeadersIn(h)] + fs)[1..] == fs;
    PayloadIsExact(Receive(m, HeadersIn(h)), lens, true);
  }
}
