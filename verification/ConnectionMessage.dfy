/** Messages as the connection hears them: over every run a stream that has not failed is
    where the frames handed to it take a Message, so that the content-length holds of what
    was delivered. */
module ConnectionMessage {
  import opened Prelude
  import Window
  import opened Messages
  import opened Connection
  import opened ConnectionLife
  import opened ConnectionSend
  import opened ConnectionReceive
  import opened ConnectionRuns
  import opened ConnectionFrame
  import opened ConnectionEffects

  /** A stream that goes on is where the message is. */
  predicate At(m: Message, s: Stream, server: bool) {
    m.remote == server && !m.broken && m.recv == s.life.recv && m.content == s.into.content
  }

  /** The stream takes the step from m to m': it fails exactly if the message is broken. */
  predicate Hears(m': Message, s: Stream, s': Stream, server: bool) {
    && SameLedger(s.out, s'.out) && s'.out.window == s.out.window
    && s'.life.error == m'.broken
    && (m'.broken ==> BothClosed(s'.life))
    && (!m'.broken ==> At(m', s', server) && s'.life.send == s.life.send)
  }

  /** One frame on stream id; all other streams, and the sending side, are what they were. */
  ghost predicate HeardOn(c: Conn, c': Conn, id: nat, m': Message) {
    match (c, c')
    case (c, c') =>
      && id in c.streams && Elsewhere(c, c', id) && c'.sending == c.sending
      && Hears(m', c.streams[id], c'.streams[id], c.cfg.server)
  }

  ghost predicate Open(c: Conn, id: nat) {
    match c
    case c => id in c.mapped && id in c.streams && !c.streams[id].life.error && !BothClosed(c.streams[id].life)
  }

  // ----- HEADERS on a stream of the map ---------------------------------------------------------

  lemma NewContent(c: Conn, id: nat, content: ContentLength) returns (r: Conn)
    requires Wf(c) && id in c.streams
    ensures r == SetContent(c, id, content) && Elsewhere(c, r, id) && r.sending == c.sending && r.receiving == c.receiving
    ensures r.streams[id] == c.streams[id].(into := c.streams[id].into.(content := content)) && r.mapped == c.mapped
  {
    r := SetContent(c, id, content);
  }

  lemma OpeningPayload(c: Conn, id: nat) returns (r: Conn)
    requires Wf(c) && id in c.streams
    ensures var s := c.streams[id]; r == SetStream(c, id, s.(life := s.life.(recv := Payload)))
    ensures Elsewhere(c, r, id) && r.sending == c.sending && r.receiving == c.receiving
    ensures r.streams[id] == c.streams[id].(life := c.streams[id].life.(recv := Payload))
  {
    var s := c.streams[id];
    r := SetStream(c, id, s.(life := s.life.(recv := Payload)));
  }

  lemma HearsHeaders(c: Conn, id: nat, h: Headers, m: Message) returns (r: Conn)
    requires Wf(c) && Open(c, id) && At(m, c.streams[id], c.cfg.server)
    ensures r == StreamHeaders(c, id, h) && HeardOn(c, r, id, Receive(m, HeadersIn(h))) && r.receiving == c.receiving
  {
    var s := c.streams[id];
    match HearHeaders(c.cfg.server, s.life.recv, s.into.content, h)
    case Interim => r := c;
    case Opened(content, eof) =>
      var c' := NewContent(c, id, content);
      if eof {
        r := Shuts(c', id, true, false, false);
      } else {
        r := OpeningPayload(c', id);
      }
    case Ended => r := Shuts(c, id, true, false, false);
    case Malformed => r := Shuts(c, id, true, true, true);
  }

  // ----- DATA on a stream of the map --------------------------------------------------------------

  /** Both receive windows pay for the frame, and len octets of it are held; padding is given
      back at once, which may top the windows up. */
  ghost predicate Debited(c: Conn, r: Conn, id: nat, flow: nat, len: nat) {
    match (c, r)
    case (c, r) =>
      && id in c.streams && id in r.streams && c.cfg.threshold >= 0 && c.cfg.conThreshold >= 0
      && var s, s' := c.streams[id].into, r.streams[id].into;
         && s'.size == s.size + len && r.receiving.size == c.receiving.size + len
         && r.receiving.accepted == c.receiving.accepted + flow
         && s'.window == (if flow == len then s.window - flow
                          else Window.Update(s.window - flow, s.size + len, c.cfg.window, c.cfg.threshold).0)
         && r.receiving.window == (if flow == len then c.receiving.window - flow
                                   else Window.Update(c.receiving.window - flow, c.receiving.size + len, c.cfg.conWindow, c.cfg.conThreshold).0)
  }

  lemma Accepts(c: Conn, id: nat, flow: nat, len: nat) returns (r: Conn)
    requires Wf(c) && ValidConfig(c.cfg) && len <= flow && id in c.streams
    ensures c.streams[id].life.recv != Closed ==> Debited(c, r, id, flow, len)
    ensures r == Accept(c, id, flow, len) && Elsewhere(c, r, id) && r.sending == c.sending && r.mapped == c.mapped
    ensures r.streams[id].life == c.streams[id].life && r.streams[id].out == c.streams[id].out
    ensures r.streams[id].into.content == c.streams[id].into.content
    ensures r.receiving.tokens == c.receiving.tokens + [Token(id, len)]
  {
    var c' := NewToken(c, id, flow);
    r := Accept(c, id, flow, len);
    assert c'.receiving.tokens[|c.receiving.tokens| := Token(id, len)] == c.receiving.tokens + [Token(id, len)];
  }

  lemma DropsToken(c: Conn, t: nat) returns (r: Conn)
    requires Wf(c) && ValidConfig(c.cfg) && t < |c.receiving.tokens|
    ensures var id := c.receiving.tokens[t].stream;
            && r == DropToken(c, t) && Elsewhere(c, r, id) && r.sending == c.sending && r.mapped == c.mapped
            && r.streams[id].life == c.streams[id].life && r.streams[id].out == c.streams[id].out
            && r.receiving.tokens == c.receiving.tokens[t := Token(id, 0)]
  {
    r := DropToken(c, t);
  }

  lemma Delivers(c: Conn, id: nat, t: nat, len: nat, eof: bool, m: Message) returns (r: Conn)
    requires Wf(c) && ValidConfig(c.cfg) && Open(c, id) && At(m, c.streams[id], c.cfg.server)
    requires t < |c.receiving.tokens| && c.receiving.tokens[t] == Token(id, len)
    ensures var m' := Receive(m, DataIn(len, eof));
            && r == Deliver(c, id, t, len, eof) && HeardOn(c, r, id, m')
            && (!m'.broken ==>
                  && c.streams[id].life.recv == Payload && r.receiving == c.receiving
                  && r.streams[id].into.window == c.streams[id].into.window && r.streams[id].into.size == c.streams[id].into.size)
            && r.receiving.tokens == c.receiving.tokens[t := Token(id, if m'.broken then 0 else len)]
  {
    var s := c.streams[id];
    match TakePayload(s.life.recv, s.into.content, len, eof)
    case Took(content) =>
      var c' := NewContent(c, id, content);
      if eof {
        r := Shuts(c', id, true, false, false);
      } else {
        r := c';
      }
    case Refused(content) =>
      var c' := NewContent(c, id, content);
      var c'' := DropsToken(c', t);
      r := Shuts(c'', id, true, true, true);
  }

  // ----- what the frames do --------------------------------------------------------------------------

  lemma MappedIsOpen(c: Conn, id: nat)
    requires Lifecycle(c) && id in c.mapped
    ensures Open(c, id) && id % 2 == 1
  {
  }

  /** A header section on a stream of the map is heard as the message hears it. */
  lemma HeadersAreHeard(c: Conn, id: nat, h: Headers, pending: bool, m: Message)
    requires Invariant(c) && id in c.mapped && At(m, c.streams[id], c.cfg.server)
    ensures HeardOn(c, Step(c, HeadersReceived(id, h, pending)), id, Receive(m, HeadersIn(h)))
    ensures Step(c, HeadersReceived(id, h, pending)).receiving == c.receiving
  {
    MappedIsOpen(c, id);
    var r := HearsHeaders(c, id, h, m);
  }

  /** A server takes a stream up unless it shuts down, is at its limit, or the request is no
      request. */
  predicate Welcome(c: Conn, id: nat, h: Headers) {
    && c.cfg.server && id % 2 == 1 && id > c.ids.last && !c.shut.disconnecting
    && (c.cfg.maxRemote.Some? ==> c.slots.remote < c.cfg.maxRemote.value)
    && GoodRequest(h.pseudo)
  }

  /** A stream id is new and its message has just begun. */
  ghost predicate Begun(c: Conn, r: Conn, id: nat, m: Message) {
    match (c, r)
    case (c, r) =>
      && id !in c.streams && id in r.streams && r.cfg == c.cfg && r.sending == c.sending && r.receiving == c.receiving
      && r.streams.Keys == c.streams.Keys + {id} && (forall j :: j in c.streams ==> r.streams[j] == c.streams[j])
      && r.streams[id].out.credit == 0 && r.streams[id].out.sent == 0 && r.streams[id].out.window == c.sending.initial
      && r.streams[id].life.error == m.broken && (!m.broken ==> At(m, r.streams[id], c.cfg.server))
  }

  lemma Inserts(c: Conn, id: nat) returns (r: Conn)
    requires Wf(c) && c.cfg.server && id > c.ids.last
    ensures r == Insert(c.(ids := c.ids.(last := id)), id, false) && Open(r, id) && Begun(c, r, id, NewMessage(true, false))
    ensures r.ids == Ids(c.ids.next, id) && Wf(r)
  {
    r := Insert(c.(ids := c.ids.(last := id)), id, false);
  }

  lemma BegunHears(c: Conn, c': Conn, r: Conn, id: nat, m: Message, m': Message)
    requires Begun(c, c', id, m) && HeardOn(c', r, id, m') && r.receiving == c'.receiving
    ensures Begun(c, r, id, m')
  {
  }

  lemma RequestIsHeard(c: Conn, id: nat, h: Headers, pending: bool)
    requires Invariant(c) && Welcome(c, id, h)
    ensures var r := Step(c, HeadersReceived(id, h, pending));
            Begun(c, r, id, Receive(NewMessage(true, false), HeadersIn(h))) && r.ids == Ids(c.ids.next, id)
  {
    var c' := Inserts(c, id);
    var r := HearsHeaders(c', id, h, NewMessage(true, false));
    BegunHears(c, c', r, id, NewMessage(true, false), Receive(NewMessage(true, false), HeadersIn(h)));
    assert id !in c.mapped;
  }

  /** Every other header section changes no stream or ends the connection. */
  lemma HeadersAreIgnored(c: Conn, id: nat, h: Headers, pending: bool)
    requires Invariant(c) && id !in c.mapped && !Welcome(c, id, h)
    ensures var r := Step(c, HeadersReceived(id, h, pending));
            var fatal := if c.cfg.server then id % 2 == 0 || (id <= c.ids.last && !pending)
                         else id % 2 == 0 || (id >= c.ids.next && c.cfg.strict);
            if fatal then Breaks(c, r)
            else r == c.(ids := Ids(c.ids.next, if c.cfg.server && id > c.ids.last then id else c.ids.last))
  {
    var r := Broken(c);
  }

  lemma AcceptedHears(c: Conn, c': Conn, r: Conn, id: nat, m': Message)
    requires id in c.streams && Elsewhere(c, c', id) && c'.sending == c.sending && c'.streams[id].out == c.streams[id].out
    requires c'.streams[id].life == c.streams[id].life && HeardOn(c', r, id, m')
    ensures HeardOn(c, r, id, m')
  {
  }

  lemma StaysDebited(c: Conn, c': Conn, r: Conn, id: nat, flow: nat, len: nat)
    requires Debited(c, c', id, flow, len) && id in r.streams && r.receiving == c'.receiving
    requires r.streams[id].into.window == c'.streams[id].into.window && r.streams[id].into.size == c'.streams[id].into.size
    ensures Debited(c, r, id, flow, len)
  {
  }

  lemma HearsData(c: Conn, id: nat, flow: nat, len: nat, eof: bool, m: Message) returns (r: Conn)
    requires Wf(c) && ValidConfig(c.cfg) && Open(c, id) && At(m, c.streams[id], c.cfg.server)
    requires len <= flow <= c.streams[id].into.window
    ensures r == StreamData(c, id, flow, len, eof) && DeliveredOn(c, r, id, Receive(m, DataIn(len, eof)), flow, len)
  {
    var c' := Accepts(c, id, flow, len);
    r := Delivers(c', id, |c.receiving.tokens|, len, eof, m);
    AcceptedHears(c, c', r, id, Receive(m, DataIn(len, eof)));
    if !Receive(m, DataIn(len, eof)).broken {
      StaysDebited(c, c', r, id, flow, len);
    }
  }

  /** The payload is heard, what is delivered is held by a token, and the windows pay. */
  ghost predicate DeliveredOn(c: Conn, r: Conn, id: nat, m': Message, flow: nat, len: nat) {
    match (c, r)
    case (c, r) =>
      HeardOn(c, r, id, m') && (!m'.broken ==> Debited(c, r, id, flow, len)) && r.receiving.tokens == c.receiving.tokens + [Token(id, if m'.broken then 0 else len)]
  }

  lemma StepsToStream(c: Conn, e: Event)
    requires Invariant(c) && Enabled(c, e) && e.DataReceived? && e.id in c.mapped && e.flow <= c.receiving.window
    ensures Step(c, e) == StreamData(c, e.id, e.flow, e.len, e.eof)
  {
  }

  /** Payload on a stream of the map, within both windows, is heard as the message hears it. */
  lemma DataIsHeard(c: Conn, id: nat, flow: nat, len: nat, eof: bool, pending: bool, m: Message)
    requires Invariant(c) && id in c.mapped && At(m, c.streams[id], c.cfg.server)
    requires len <= flow <= c.receiving.window && flow <= c.streams[id].into.window
    ensures DeliveredOn(c, Step(c, DataReceived(id, flow, len, eof, pending)), id, Receive(m, DataIn(len, eof)), flow, len)
  {
    MappedIsOpen(c, id);
    StepsToStream(c, DataReceived(id, flow, len, eof, pending));
    var r := HearsData(c, id, flow, len, eof, m);
  }

  /** The stream fails; the payload is credited back. */
  ghost predicate OverrunBy(c: Conn, r: Conn, id: nat) {
    match (c, r)
    case (c, r) =>
      && id in c.streams && Elsewhere(c, r, id) && r.sending == c.sending && r.receiving.tokens == c.receiving.tokens
      && r.receiving.size == c.receiving.size && HasFailed(c.streams[id], r.streams[id]) && id !in r.mapped
  }

  lemma Overruns(c: Conn, id: nat, flow: nat, len: nat, eof: bool) returns (r: Conn)
    requires Wf(c) && ValidConfig(c.cfg) && Open(c, id) && len <= flow && flow > c.streams[id].into.window
    ensures r == StreamData(c, id, flow, len, eof) && OverrunBy(c, r, id)
  {
    var c' := Consumed(Received(c, flow), flow);
    r := Shuts(c', id, true, true, true);
  }

  /** Beyond the window of its stream payload fails the stream, beyond that of the connection
      it ends the connection. */
  lemma DataOverruns(c: Conn, id: nat, flow: nat, len: nat, eof: bool, pending: bool)
    requires Invariant(c) && len <= flow && id in c.mapped && (flow > c.receiving.window || flow > c.streams[id].into.window)
    ensures var r := Step(c, DataReceived(id, flow, len, eof, pending));
            if flow > c.receiving.window then Breaks(c, r) else OverrunBy(c, r, id)
  {
    MappedIsOpen(c, id);
    if flow > c.receiving.window {
      var r := Broken(c);
    } else {
      var r := Overruns(c, id, flow, len, eof);
    }
  }

  /** Payload for a stream that is not in the map is consumed at once, unless the frame
      breaks a rule of the connection. */
  lemma DataIsIgnored(c: Conn, id: nat, flow: nat, len: nat, eof: bool, pending: bool)
    requires Invariant(c) && len <= flow && id !in c.mapped
    ensures var r := Step(c, DataReceived(id, flow, len, eof, pending));
            var used := if (id % 2 == 1) == c.cfg.server then id <= c.ids.last else id < c.ids.next;
            if flow > c.receiving.window || !(pending || !c.cfg.strict || used) then Breaks(c, r)
            else
              && SameStreams(c, r) && r.sending == c.sending && r.ids == c.ids && r.shut == c.shut
              && r.receiving.tokens == c.receiving.tokens && r.receiving.size == c.receiving.size
              && r.receiving.accepted == c.receiving.accepted + flow
  {
    var r := Broken(c);
  }

  // ----- the message of a stream over a run --------------------------------------------------------

  /** The frames of one event that stream id is handed: those that find it in the map, or
      open it, and keep to the windows. */
  ghost function Handed(c: Conn, e: Event, id: nat): (fs: seq<Incoming>)
    requires Wf(c)
  {
    match e
    case HeadersReceived(j, h, _) => if j == id && (id in c.mapped || Welcome(c, id, h)) then [HeadersIn(h)] else []
    case DataReceived(j, flow, len, eof, _) =>
      if j == id && id in c.mapped && flow <= c.receiving.window && flow <= c.streams[id].into.window then [DataIn(len, eof)] else []
    case _ => []
  }

  ghost function AllHanded(c: Conn, es: seq<Event>, id: nat): (fs: seq<Incoming>)
    requires Wf(c) && ValidConfig(c.cfg) && Possible(c, es)
    decreases |es|
  {
    if |es| == 0 then [] else Handed(c, es[0], id) + AllHanded(Step(c, es[0]), es[1..], id)
  }

  /** Whether stream id is opened by a request with HEAD. */
  ghost predicate AsksHead(c: Conn, es: seq<Event>, id: nat)
    requires Wf(c) && ValidConfig(c.cfg) && Possible(c, es)
    decreases |es|
  {
    |es| > 0 && if id !in c.streams && id in Step(c, es[0]).streams then HeadFlag(es[0]) else AsksHead(Step(c, es[0]), es[1..], id)
  }

  predicate HeadFlag(e: Event) {
    match e
    case RequestSent(_, _, head) => head
    case WaiterRuns(_, _, _, head) => head
    case ReservedSent(_, _, head) => head
    case _ => false
  }

  /** Octets of payload that the event delivers to stream id: it was in the map, and has not
      failed by it. */
  ghost function Taken(c: Conn, e: Event, id: nat): (n: nat)
    requires Wf(c) && ValidConfig(c.cfg) && Enabled(c, e)
  {
    match e
    case DataReceived(j, _, len, _, _) => if j == id && id in c.mapped && !Step(c, e).streams[id].life.error then len else 0
    case _ => 0
  }

  ghost function AllTaken(c: Conn, es: seq<Event>, id: nat): (n: nat)
    requires Wf(c) && ValidConfig(c.cfg) && Possible(c, es)
    decreases |es|
  {
    if |es| == 0 then 0 else Taken(c, es[0], id) + AllTaken(Step(c, es[0]), es[1..], id)
  }

  // ----- every stream follows its message ------------------------------------------------------------

  ghost predicate Following(c: Conn, id: nat, m: Message) {
    match c
    case c => id in c.streams && m.remote == c.cfg.server && (!c.streams[id].life.error ==> At(m, c.streams[id], c.cfg.server))
  }

  function MessageAt(s: Stream, server: bool): (m: Message) {
    NewMessage(server, false).(recv := s.life.recv, content := s.into.content)
  }

  lemma RestingFollows(c: Conn, c': Conn, id: nat, m: Message)
    requires Following(c, id, m) && HearingRests(c, c')
    ensures Following(c', id, m)
  {
  }

  lemma CreditingHears(c: Conn, id: nat, inc: nat, pending: bool)
    requires Invariant(c)
    ensures var r := Step(c, UpdateReceived(id, inc, pending));
            HearingRests(c, r) && r.streams.Keys == c.streams.Keys
  {
    if id == 0 {
      if inc > 0 && c.sending.window + inc <= Window.MAX {
        ConnectionIsCredited(c, inc, pending);
      } else {
        ConnectionCreditRefused(c, inc, pending);
      }
    } else if id in c.mapped {
      if inc > 0 && c.streams[id].out.window + inc <= Window.MAX {
        StreamIsCredited(c, id, inc, pending);
      } else {
        StreamCreditRefused(c, id, inc, pending);
      }
    } else {
      UpdateOfUnknown(c, id, inc, pending);
    }
  }

  lemma SendingHears(c: Conn, id: nat, len: nat, frame: nat, eof: bool)
    requires Invariant(c) && Enabled(c, ChunkSent(id, len, frame, eof))
    ensures HearingRests(c, Step(c, ChunkSent(id, len, frame, eof)))
  {
    var size := ChunkIsSent(c, id, len, frame, eof);
  }

  lemma AskedHears(c: Conn, r: Conn, eof: bool, fits: bool, head: bool)
    requires Asked(c, r, eof, fits, head)
    ensures HearingRests(c, r)
  {
  }

  lemma WaiterHears(c: Conn, w: nat, eof: bool, fits: bool, head: bool)
    requires Invariant(c) && Enabled(c, WaiterRuns(w, eof, fits, head))
    ensures HearingRests(c, Step(c, WaiterRuns(w, eof, fits, head)))
  {
    WaiterAsks(c, w, eof, fits, head);
    AskedHears(c.(slots := c.slots.(notified := c.slots.notified - {w})), Step(c, WaiterRuns(w, eof, fits, head)), eof, fits, head);
  }

  lemma OpeningHears(c: Conn, e: Event)
    requires Invariant(c) && Enabled(c, e) && Opens(e)
    ensures HearingRests(c, Step(c, e))
  {
    match e
    case RequestSent(eof, fits, head) =>
      RequestAsks(c, eof, fits, head);
      AskedHears(c, Step(c, e), eof, fits, head);
    case WaiterRuns(w, eof, fits, head) => WaiterHears(c, w, eof, fits, head);
    case ReservedSent(eof, fits, head) => ReservationHears(c, eof, fits, head);
  }

  lemma ReservationHears(c: Conn, eof: bool, fits: bool, head: bool)
    requires Invariant(c) && Enabled(c, ReservedSent(eof, fits, head))
    ensures HearingRests(c, Step(c, ReservedSent(eof, fits, head)))
  {
    ReservationOpens(c, eof, fits, head);
  }

  // ----- frames of other streams ---------------------------------------------------------------------

  ghost predicate RestsBut(c: Conn, c': Conn, id: nat) {
    match (c, c')
    case (c, c') =>
      && c'.cfg == c.cfg && c.streams.Keys <= c'.streams.Keys <= c.streams.Keys + {id}
      && forall j :: j in c.streams && j != id ==> SameHearing(c.streams[j], c'.streams[j])
  }

  lemma HeardConcernsOne(c: Conn, r: Conn, id: nat, m': Message)
    requires HeardOn(c, r, id, m')
    ensures RestsBut(c, r, id) && r.streams.Keys == c.streams.Keys
  {
  }

  lemma DeliveredConcernsOne(c: Conn, r: Conn, id: nat, m': Message, flow: nat, len: nat)
    requires DeliveredOn(c, r, id, m', flow, len)
    ensures RestsBut(c, r, id) && r.streams.Keys == c.streams.Keys
  {
  }

  lemma HeadersConcernOne(c: Conn, id: nat, h: Headers, pending: bool)
    requires Invariant(c)
    ensures RestsBut(c, Step(c, HeadersReceived(id, h, pending)), id)
    ensures id !in c.mapped && !Welcome(c, id, h) ==>
              var r := Step(c, HeadersReceived(id, h, pending)); HearingRests(c, r) && r.streams.Keys == c.streams.Keys
  {
    if id in c.mapped {
      var m := MessageAt(c.streams[id], c.cfg.server);
      HeadersAreHeard(c, id, h, pending, m);
      HeardConcernsOne(c, Step(c, HeadersReceived(id, h, pending)), id, Receive(m, HeadersIn(h)));
    } else if Welcome(c, id, h) {
      RequestIsHeard(c, id, h, pending);
    } else {
      HeadersAreIgnored(c, id, h, pending);
    }
  }

  lemma DataConcernsOne(c: Conn, id: nat, flow: nat, len: nat, eof: bool, pending: bool)
    requires Invariant(c) && len <= flow
    ensures var r := Step(c, DataReceived(id, flow, len, eof, pending));
            RestsBut(c, r, id) && r.streams.Keys == c.streams.Keys
            && (Handed(c, DataReceived(id, flow, len, eof, pending), id) == [] ==> HearingRests(c, r))
  {
    if id in c.mapped {
      if flow <= c.receiving.window && flow <= c.streams[id].into.window {
        var m := MessageAt(c.streams[id], c.cfg.server);
        DataIsHeard(c, id, flow, len, eof, pending, m);
        DeliveredConcernsOne(c, Step(c, DataReceived(id, flow, len, eof, pending)), id, Receive(m, DataIn(len, eof)), flow, len);
      } else {
        DataOverruns(c, id, flow, len, eof, pending);
      }
    } else {
      DataIsIgnored(c, id, flow, len, eof, pending);
    }
  }

  // ----- one step --------------------------------------------------------------------------------------

  lemma RestsButFollows(c: Conn, c': Conn, other: nat, id: nat, m: Message)
    requires Following(c, id, m) && RestsBut(c, c', other) && id != other
    ensures Following(c', id, m)
  {
  }

  lemma HeardFollows(c: Conn, c': Conn, id: nat, m': Message)
    requires HeardOn(c, c', id, m') && m'.remote == c.cfg.server
    ensures Following(c', id, m')
  {
  }

  lemma OneHanded(m: Message, f: Incoming)
    ensures ReceiveAll(m, [f]) == Receive(m, f) && ReceiveAll(m, []) == m && Receive(m, f).remote == m.remote
  {
    assert [f][1..] == [];
  }

  lemma MappedIsAt(c: Conn, id: nat, m: Message)
    requires Lifecycle(c) && id in c.mapped && Following(c, id, m)
    ensures At(m, c.streams[id], c.cfg.server)
  {
  }

  lemma MappedHeadersFollow(c: Conn, id: nat, h: Headers, pending: bool, m: Message)
    requires Invariant(c) && id in c.mapped && Following(c, id, m)
    ensures Following(Step(c, HeadersReceived(id, h, pending)), id, Receive(m, HeadersIn(h)))
  {
    MappedIsAt(c, id, m);
    HeadersAreHeard(c, id, h, pending, m);
    OneHanded(m, HeadersIn(h));
    HeardFollows(c, Step(c, HeadersReceived(id, h, pending)), id, Receive(m, HeadersIn(h)));
  }

  /** A stream that has been opened is not opened again. */
  lemma HeadersFollow(c: Conn, e: Event, id: nat, m: Message)
    requires Invariant(c) && Enabled(c, e) && e.HeadersReceived? && Following(c, id, m)
    ensures Following(Step(c, e), id, ReceiveAll(m, Handed(c, e, id)))
    ensures ReceiveAll(m, Handed(c, e, id)).delivered == m.delivered
  {
    OneHanded(m, HeadersIn(e.headers));
    if e.id == id && id in c.mapped {
      MappedHeadersFollow(c, id, e.headers, e.pending, m);
    } else {
      HeadersConcernOne(c, e.id, e.headers, e.pending);
      if e.id != id {
        RestsButFollows(c, Step(c, e), e.id, id, m);
      } else {
        RestingFollows(c, Step(c, e), id, m);
      }
    }
  }

  lemma DeliveredFollows(c: Conn, c': Conn, id: nat, m': Message, flow: nat, len: nat)
    requires DeliveredOn(c, c', id, m', flow, len) && m'.remote == c.cfg.server
    ensures Following(c', id, m') && id in c'.streams && c'.streams[id].life.error == m'.broken
  {
  }

  lemma ReceivesPayload(m: Message, len: nat, eof: bool)
    requires !m.broken
    ensures var m' := Receive(m, DataIn(len, eof));
            m'.remote == m.remote && m'.delivered == m.delivered + if m'.broken then 0 else len
  {
  }

  lemma HandedDataFollows(c: Conn, e: Event, id: nat, m: Message)
    requires Invariant(c) && Enabled(c, e) && e.DataReceived? && Following(c, id, m) && Handed(c, e, id) == [DataIn(e.len, e.eof)]
    ensures Following(Step(c, e), id, Receive(m, DataIn(e.len, e.eof)))
    ensures Receive(m, DataIn(e.len, e.eof)).delivered == m.delivered + Taken(c, e, id)
  {
    MappedIsAt(c, id, m);
    DataIsHeard(c, id, e.flow, e.len, e.eof, e.pending, m);
    ReceivesPayload(m, e.len, e.eof);
    DeliveredFollows(c, Step(c, e), id, Receive(m, DataIn(e.len, e.eof)), e.flow, e.len);
  }

  lemma RefusedDataFollows(c: Conn, e: Event, id: nat, m: Message)
    requires Invariant(c) && Enabled(c, e) && e.DataReceived? && Following(c, id, m) && Handed(c, e, id) == []
    ensures Following(Step(c, e), id, m) && Taken(c, e, id) == 0
  {
    DataConcernsOne(c, e.id, e.flow, e.len, e.eof, e.pending);
    if e.id != id {
      RestsButFollows(c, Step(c, e), e.id, id, m);
    } else {
      RestingFollows(c, Step(c, e), id, m);
      if id in c.mapped {
        DataOverruns(c, id, e.flow, e.len, e.eof, e.pending);
      }
    }
  }

  lemma DataFollows(c: Conn, e: Event, id: nat, m: Message)
    requires Invariant(c) && Enabled(c, e) && e.DataReceived? && Following(c, id, m)
    ensures Following(Step(c, e), id, ReceiveAll(m, Handed(c, e, id)))
    ensures ReceiveAll(m, Handed(c, e, id)).delivered == m.delivered + Taken(c, e, id)
  {
    OneHanded(m, DataIn(e.len, e.eof));
    if Handed(c, e, id) == [] {
      RefusedDataFollows(c, e, id, m);
    } else {
      HandedDataFollows(c, e, id, m);
    }
  }

  lemma OtherHears(c: Conn, e: Event)
    requires Invariant(c) && Enabled(c, e) && !e.HeadersReceived? && !e.DataReceived?
    ensures HearingRests(c, Step(c, e))
  {
    if e.ChunkSent? {
      SendingHears(c, e.id, e.len, e.frame, e.eof);
    } else if e.UpdateReceived? {
      CreditingHears(c, e.id, e.size, e.pending);
    } else if Opens(e) {
      OpeningHears(c, e);
    } else {
      TheRestIsQuiet(c, e);
    }
  }

  /** One event moves a stream as the frames it hands over move its message. */
  lemma StepFollows(c: Conn, e: Event, id: nat, m: Message)
    requires Invariant(c) && Enabled(c, e) && Following(c, id, m)
    ensures Following(Step(c, e), id, ReceiveAll(m, Handed(c, e, id)))
    ensures ReceiveAll(m, Handed(c, e, id)).delivered == m.delivered + Taken(c, e, id)
  {
    if e.HeadersReceived? {
      HeadersFollow(c, e, id, m);
    } else if e.DataReceived? {
      DataFollows(c, e, id, m);
    } else {
      OtherHears(c, e);
      RestingFollows(c, Step(c, e), id, m);
    }
  }

  // ----- the first step --------------------------------------------------------------------------------

  lemma AskedBegins(c: Conn, r: Conn, eof: bool, fits: bool, head: bool, id: nat)
    requires Asked(c, r, eof, fits, head) && !c.cfg.server && id !in c.streams && id in r.streams
    ensures Following(r, id, NewMessage(c.cfg.server, head))
  {
  }

  lemma WaiterBegins(c: Conn, w: nat, eof: bool, fits: bool, head: bool, id: nat)
    requires Invariant(c) && Enabled(c, WaiterRuns(w, eof, fits, head))
    requires id !in c.streams && id in Step(c, WaiterRuns(w, eof, fits, head)).streams
    ensures Following(Step(c, WaiterRuns(w, eof, fits, head)), id, NewMessage(c.cfg.server, head))
  {
    WaiterAsks(c, w, eof, fits, head);
    AskedBegins(c.(slots := c.slots.(notified := c.slots.notified - {w})), Step(c, WaiterRuns(w, eof, fits, head)), eof, fits, head, id);
  }

  lemma OpeningBegins(c: Conn, e: Event, id: nat)
    requires Invariant(c) && Enabled(c, e) && Opens(e) && id !in c.streams && id in Step(c, e).streams
    ensures Following(Step(c, e), id, NewMessage(c.cfg.server, HeadFlag(e)))
  {
    match e
    case RequestSent(eof, fits, head) =>
      RequestAsks(c, eof, fits, head);
      AskedBegins(c, Step(c, e), eof, fits, head, id);
    case WaiterRuns(w, eof, fits, head) => WaiterBegins(c, w, eof, fits, head, id);
    case ReservedSent(eof, fits, head) => ReservationOpens(c, eof, fits, head);
  }

  lemma BegunFollows(c: Conn, r: Conn, id: nat, m: Message)
    requires Begun(c, r, id, m) && m.remote == c.cfg.server
    ensures Following(r, id, m)
  {
  }

  lemma RequestBegins(c: Conn, e: Event, id: nat)
    requires Invariant(c) && Enabled(c, e) && e.HeadersReceived? && id !in c.streams && id in Step(c, e).streams
    ensures Handed(c, e, id) == [HeadersIn(e.headers)]
    ensures Following(Step(c, e), id, Receive(NewMessage(c.cfg.server, false), HeadersIn(e.headers)))
  {
    HeadersConcernOne(c, e.id, e.headers, e.pending);
    assert e.id == id;
    RequestIsHeard(c, id, e.headers, e.pending);
    OneHanded(NewMessage(true, false), HeadersIn(e.headers));
    BegunFollows(c, Step(c, e), id, Receive(NewMessage(true, false), HeadersIn(e.headers)));
  }

  lemma OtherKeys(c: Conn, e: Event)
    requires Invariant(c) && Enabled(c, e) && !e.HeadersReceived? && !Opens(e)
    ensures Step(c, e).streams.Keys == c.streams.Keys
  {
    if e.ChunkSent? {
      var size := ChunkIsSent(c, e.id, e.len, e.frame, e.eof);
    } else if e.UpdateReceived? {
      CreditingHears(c, e.id, e.size, e.pending);
    } else if e.DataReceived? {
      DataConcernsOne(c, e.id, e.flow, e.len, e.eof, e.pending);
    } else {
      TheRestIsQuiet(c, e);
    }
  }

  /** The event that opens a stream begins its message. */
  lemma StepBegins(c: Conn, e: Event, id: nat)
    requires Invariant(c) && Enabled(c, e) && id !in c.streams && id in Step(c, e).streams
    ensures var m := ReceiveAll(NewMessage(c.cfg.server, HeadFlag(e)), Handed(c, e, id));
            Following(Step(c, e), id, m) && m.delivered == 0
    ensures Taken(c, e, id) == 0
  {
    if e.HeadersReceived? {
      RequestBegins(c, e, id);
      OneHanded(NewMessage(c.cfg.server, false), HeadersIn(e.headers));
    } else if Opens(e) {
      OpeningBegins(c, e, id);
    } else {
      OtherKeys(c, e);
    }
  }

  lemma NotBegun(c: Conn, e: Event, id: nat)
    requires Invariant(c) && Enabled(c, e) && id !in c.streams && id !in Step(c, e).streams
    ensures Handed(c, e, id) == [] && Taken(c, e, id) == 0
  {
    if e.HeadersReceived? && Welcome(c, id, e.headers) && e.id == id {
      RequestIsHeard(c, id, e.headers, e.pending);
    }
  }

  // ----- runs ----------------------------------------------------------------------------------------------

  lemma {:induction false} HandedTwice(m: Message, fs: seq<Incoming>, gs: seq<Incoming>)
    ensures ReceiveAll(m, fs + gs) == ReceiveAll(ReceiveAll(m, fs), gs)
    decreases |fs|
  {
    if |fs| == 0 {
      assert fs + gs == gs;
    } else {
      assert (fs + gs)[1..] == fs[1..] + gs;
      HandedTwice(Receive(m, fs[0]), fs[1..], gs);
    }
  }

  lemma {:induction false} RunFollows(c: Conn, es: seq<Event>, id: nat, m: Message)
    requires Invariant(c) && Possible(c, es) && Following(c, id, m)
    ensures var m' := ReceiveAll(m, AllHanded(c, es, id));
            Following(Run(c, es), id, m') && m'.delivered == m.delivered + AllTaken(c, es, id)
    decreases |es|
  {
    if |es| > 0 {
      StepKeepsInvariant(c, es[0]);
      StepFollows(c, es[0], id, m);
      HandedTwice(m, Handed(c, es[0], id), AllHanded(Step(c, es[0]), es[1..], id));
      RunFollows(Step(c, es[0]), es[1..], id, ReceiveAll(m, Handed(c, es[0], id)));
    }
  }

  lemma RunBegins(c: Conn, es: seq<Event>, id: nat)
    requires Invariant(c) && Possible(c, es) && |es| > 0 && id !in c.streams && id in Step(c, es[0]).streams
    ensures var m := ReceiveAll(NewMessage(c.cfg.server, HeadFlag(es[0])), AllHanded(c, es, id));
            Following(Run(c, es), id, m) && m.delivered == AllTaken(c, es, id)
  {
    var c', m := Step(c, es[0]), NewMessage(c.cfg.server, HeadFlag(es[0]));
    StepKeepsInvariant(c, es[0]);
    StepBegins(c, es[0], id);
    HandedTwice(m, Handed(c, es[0], id), AllHanded(c', es[1..], id));
    RunFollows(c', es[1..], id, ReceiveAll(m, Handed(c, es[0], id)));
  }

  /** Every stream of every run: unless it has failed it is where the frames handed to it
      take a new message, and what that counts as delivered is what was delivered. */
  lemma {:induction false} StreamsFollowMessages(c: Conn, es: seq<Event>, id: nat)
    requires Invariant(c) && Possible(c, es) && id !in c.streams && id in Run(c, es).streams
    ensures var m := ReceiveAll(NewMessage(c.cfg.server, AsksHead(c, es, id)), AllHanded(c, es, id));
            Following(Run(c, es), id, m) && m.delivered == AllTaken(c, es, id)
    decreases |es|
  {
    if |es| > 0 {
      var c' := Step(c, es[0]);
      if id in c'.streams {
        RunBegins(c, es, id);
      } else {
        StepKeepsInvariant(c, es[0]);
        NotBegun(c, es[0], id);
        assert Handed(c, es[0], id) + AllHanded(c', es[1..], id) == AllHanded(c', es[1..], id);
        StreamsFollowMessages(c', es[1..], id);
      }
    }
  }

  /** Section 8.1.1 of RFC 9113 over every run of a connection: no more octets are delivered
      than the header section promised, all of them if the stream has ended without an
      error, and none in answer to HEAD. */
  lemma ContentLengthOfRuns(cfg: Config, es: seq<Event>, id: nat)
    requires ValidConfig(cfg) && Possible(Init(cfg), es) && id in Run(Init(cfg), es).streams
    ensures var s, n := Run(Init(cfg), es).streams[id], AllTaken(Init(cfg), es, id);
            var head := AsksHead(Init(cfg), es, id);
            var m := ReceiveAll(NewMessage(cfg.server, head), AllHanded(Init(cfg), es, id));
            && (m.promised.Some? ==> n <= m.promised.value)
            && (m.promised.Some? && s.life.recv == Closed && !s.life.error && !m.notModified ==> n == m.promised.value)
            && (head ==> n == 0)
  {
    var c := Init(cfg);
    InitiallyFine(cfg);
    StreamsFollowMessages(c, es, id);
    ContentLengthHolds(cfg.server, AsksHead(c, es, id), AllHanded(c, es, id));
  }
}
