/** Receiving: what is not consumed is exactly what somebody holds, and the peer's credit
    stays within a threshold of the configured windows. */
module ConnectionReceive {
  import opened Prelude
  import Window
  import opened Messages
  import opened Connection
  import opened ConnectionLife

  // ----- tokens --------------------------------------------------------------------------

  function SumAll(ts: seq<Token>): (n: nat) {
    if |ts| == 0 then 0 else SumAll(ts[..|ts| - 1]) + ts[|ts| - 1].size
  }

  function SizeFor(t: Token, id: nat): (n: nat) {
    if t.stream == id then t.size else 0
  }

  function SumFor(ts: seq<Token>, id: nat): (n: nat) {
    if |ts| == 0 then 0 else SumFor(ts[..|ts| - 1], id) + SizeFor(ts[|ts| - 1], id)
  }

  lemma SumAppend(ts: seq<Token>, t: Token)
    ensures SumAll(ts + [t]) == SumAll(ts) + t.size
    ensures forall id :: SumFor(ts + [t], id) == SumFor(ts, id) + SizeFor(t, id)
  {
    assert (ts + [t])[..|ts|] == ts;
  }

  lemma {:induction false} SumUpdate(ts: seq<Token>, i: nat, t: Token)
    requires i < |ts|
    ensures SumAll(ts[i := t]) == SumAll(ts) - ts[i].size + t.size
    ensures forall id :: SumFor(ts[i := t], id) == SumFor(ts, id) - SizeFor(ts[i], id) + SizeFor(t, id)
  {
    var k := |ts| - 1;
    if i == k {
      assert ts[i := t][..k] == ts[..k];
    } else {
      assert ts[i := t][..k] == ts[..k][i := t];
      SumUpdate(ts[..k], i, t);
    }
  }

  lemma {:induction false} SumForNone(ts: seq<Token>, id: nat)
    requires forall i :: 0 <= i < |ts| ==> ts[i].stream != id
    ensures SumFor(ts, id) == 0
  {
    if |ts| > 0 {
      SumForNone(ts[..|ts| - 1], id);
    }
  }

  lemma {:induction false} SumForAtLeast(ts: seq<Token>, i: nat)
    requires i < |ts|
    ensures ts[i].size <= SumFor(ts, ts[i].stream) <= SumAll(ts)
  {
    var k := |ts| - 1;
    if i < k {
      SumForAtLeast(ts[..k], i);
    } else {
      SumForAtMost(ts[..k], ts[i].stream);
    }
  }

  lemma {:induction false} SumForAtMost(ts: seq<Token>, id: nat)
    ensures SumFor(ts, id) <= SumAll(ts)
  {
    if |ts| > 0 {
      SumForAtMost(ts[..|ts| - 1], id);
    }
  }

  // ----- the invariant ---------------------------------------------------------------------

  ghost predicate Conserved(r: Receiving, cfg: Config) {
    && r.size == SumAll(r.tokens)
    && r.window == Window.DEFAULT + r.granted - r.accepted
    && 0 <= r.window
    && cfg.conWindow - cfg.conThreshold < r.window + r.size <= Max(cfg.conWindow, Window.DEFAULT)
  }

  /** How far the window and what is unconsumed can be from the configured size.  Until the
      settings are acknowledged the default is in force but updates go up to the configured
      size; a stream from before the acknowledgment may have both. */
  ghost predicate Bounded(s: In, cfg: Config, acked: bool) {
    var sum := s.window + s.size;
    && Min(0, cfg.window - Window.DEFAULT) <= s.window <= Window.MAX
    && if !acked then
         && s.early && 0 <= s.window && sum <= Max(cfg.window, Window.DEFAULT)
         && (Window.DEFAULT <= sum || cfg.window - cfg.threshold < sum)
       else
         && cfg.window - cfg.threshold < sum
         && if s.early then sum <= Max(cfg.window, 2 * cfg.window - Window.DEFAULT)
            else 0 <= s.window && sum <= cfg.window
  }

  ghost predicate Receives(c: Conn) {
    match c
    case c =>
      && Wf(c) && Conserved(c.receiving, c.cfg)
      && (forall id :: id in c.streams ==> c.streams[id].into.size == SumFor(c.receiving.tokens, id))
      && (forall id :: id in c.mapped && c.streams[id].life.recv != Closed ==> Bounded(c.streams[id].into, c.cfg, c.receiving.acked))
  }

  // ----- primitives ------------------------------------------------------------------------

  /** Only what receiving does not look at differs, or halves close, or streams leave. */
  ghost predicate SameReceive(c: Conn, c': Conn) {
    match (c, c')
    case (c, c') =>
      && Wf(c') && c'.cfg == c.cfg && c'.mapped <= c.mapped && c'.receiving == c.receiving
      && c'.streams.Keys == c.streams.Keys
      && forall id :: id in c.streams ==> SameReceiver(c.streams[id], c'.streams[id])
  }

  ghost predicate SameReceiver(s: Stream, s': Stream) {
    && s'.into.window == s.into.window && s'.into.size == s.into.size && s'.into.early == s.into.early
    && (s.life.recv == Closed ==> s'.life.recv == Closed)
  }

  lemma SameReceiveKeeps(c: Conn, c': Conn)
    requires Receives(c) && SameReceive(c, c')
    ensures Receives(c')
  {
  }

  lemma SameReceiveTwice(c: Conn, c': Conn, c'': Conn)
    requires SameReceive(c, c') && SameReceive(c', c'')
    ensures SameReceive(c, c'')
  {
  }

  lemma SettingSameReceive(c: Conn, id: nat, s: Stream)
    requires Wf(c) && id in c.streams && SameReceiver(c.streams[id], s)
    ensures SameReceive(c, SetStream(c, id, s))
  {
  }

  lemma DroppingSameReceive(c: Conn, id: nat)
    requires Wf(c) && id in c.streams
    ensures SameReceive(c, DropStream(c, id))
  {
  }

  lemma Shutting(c: Conn, id: nat, recv: bool, send: bool, error: bool)
    requires Wf(c) && id in c.streams
    ensures SameReceive(c, Shut(c, id, recv, send, error))
  {
    var s := c.streams[id];
    var life := Life(if recv then Closed else s.life.recv, if send then Closed else s.life.send, s.life.error || error);
    var s' := s.(life := life, out := if send || BothClosed(life) then Wake(s.out) else s.out);
    SettingSameReceive(c, id, s');
    var c' := SetStream(c, id, s');
    DroppingSameReceive(c', id);
    SameReceiveTwice(c, c', DropStream(c', id));
  }

  lemma Resetting(c: Conn, id: nat)
    requires Receives(c) && id in c.streams
    ensures Receives(ResetSilent(c, id))
  {
    Shutting(c, id, true, true, true);
    SameReceiveKeeps(c, Shut(c, id, true, true, true));
  }

  lemma {:induction false} FailingEach(c: Conn, ids: seq<nat>)
    requires Receives(c) && forall i :: 0 <= i < |ids| ==> ids[i] in c.streams
    ensures Receives(FailEach(c, ids))
    decreases |ids|
  {
    if |ids| > 0 {
      Shutting(c, ids[0], true, true, true);
      SameReceiveKeeps(c, Shut(c, ids[0], true, true, true));
      FailingEach(Shut(c, ids[0], true, true, true), ids[1..]);
    }
  }

  lemma FailingAll(c: Conn)
    requires Receives(c)
    ensures Receives(FailAll(c))
  {
    SameReceiveKeeps(c, FailAll(c));
  }

  lemma SendingHeaders(c: Conn, id: nat, eof: bool)
    requires Receives(c) && id in c.streams
    ensures Receives(SendHeaders(c, id, eof))
  {
    Shutting(c, id, false, true, false);
    SameReceiveKeeps(c, SendHeaders(c, id, eof));
  }

  lemma Inserting(c: Conn, id: nat, head: bool) returns (r: Conn)
    requires Receives(c) && ValidConfig(c.cfg)
    requires c.shut.goAway.Some? ==> c.cfg.server
    requires id !in c.streams && Issued(c, id)
    ensures r == Insert(c, id, head) && Receives(r)
  {
    SumForNone(c.receiving.tokens, id);
    r := Insert(c, id, head);
  }

  lemma Opening(c: Conn, eof: bool, fits: bool, head: bool)
    requires !c.cfg.server
    requires Receives(c) && ValidConfig(c.cfg)
    requires c.shut.goAway.None?
    ensures OpenStream(c, eof, fits, head).Some? ==> Receives(OpenStream(c, eof, fits, head).value)
  {
    var c' := c.(ids := c.ids.(next := c.ids.next + 2));
    SameReceiveKeeps(c, c');
    var c'' := Inserting(c', c.ids.next, head);
    SendingHeaders(c'', c.ids.next, eof);
  }

  lemma NewSlots(c: Conn, s: Slots, shut: Shutdown)
    requires Receives(c)
    ensures Receives(c.(slots := s)) && Receives(c.(shut := shut)) && Receives(c.(slots := s, shut := shut))
    ensures Receives(CloseIfDone(c.(slots := s))) && Receives(CloseIfDone(c.(slots := s, shut := shut)))
  {
    SameReceiveKeeps(c, c.(slots := s));
    SameReceiveKeeps(c, c.(shut := shut));
    SameReceiveKeeps(c, c.(slots := s, shut := shut));
    SameReceiveKeeps(c, CloseIfDone(c.(slots := s)));
    SameReceiveKeeps(c, CloseIfDone(c.(slots := s, shut := shut)));
  }

  lemma OpeningCounted(c: Conn, eof: bool, fits: bool, head: bool) returns (r: Conn)
    requires !c.cfg.server
    requires Receives(c) && ValidConfig(c.cfg) && c.shut.goAway.None?
    ensures r == OpenCounted(c, eof, fits, head) && Receives(r)
  {
    r := OpenCounted(c, eof, fits, head);
    Opening(c, eof, fits, head);
    SameReceiveKeeps(c, c.(slots := ReleaseLocal(c.slots)));
  }

  lemma Reslotting(c: Conn, s: Slots) returns (r: Conn)
    requires Receives(c)
    ensures r == c.(slots := s) && Receives(r)
  {
    r := c.(slots := s);
    SameReceiveKeeps(c, r);
  }

  lemma Requesting(c: Conn, eof: bool, fits: bool, head: bool) returns (r: Conn)
    requires !c.cfg.server
    requires Receives(c) && ValidConfig(c.cfg)
    ensures r == SendRequest(c, eof, fits, head) && Receives(r)
  {
    if Refuses(c) {
      r := c;
    } else if CanCreate(c.slots) {
      var c' := Reslotting(c, c.slots.(local := c.slots.local + 1));
      r := OpeningCounted(CountOne(c), eof, fits, head);
    } else {
      r := Reslotting(c, Park(c.slots));
    }
  }

  lemma RunningWaiter(c: Conn, w: nat, eof: bool, fits: bool, head: bool)
    requires !c.cfg.server
    requires Receives(c) && ValidConfig(c.cfg)
    ensures Receives(RunWaiter(c, w, eof, fits, head))
  {
    var s := c.slots.(notified := c.slots.notified - {w});
    NewSlots(c, s, c.shut);
    var r := Requesting(c.(slots := s), eof, fits, head);
  }

  lemma SendingReserved(c: Conn, eof: bool, fits: bool, head: bool)
    requires !c.cfg.server
    requires Receives(c) && ValidConfig(c.cfg)
    ensures Receives(SendReserved(c, eof, fits, head))
  {
    if c.shut.goAway.None? {
      Opening(c, eof, fits, head);
    }
    var o := if c.shut.goAway.None? then OpenStream(c, eof, fits, head) else None;
    if o.Some? {
      NewSlots(o.value, o.value.slots.(reserved := if o.value.slots.reserved > 0 then o.value.slots.reserved - 1 else 0), o.value.shut);
    }
  }

  // ----- data --------------------------------------------------------------------------------

  /** What the connection window loses to data it gets back at once, at most. */
  lemma Refunding(c: Conn, flow: nat)
    requires Receives(c) && ValidConfig(c.cfg) && flow <= c.receiving.window
    ensures Receives(Consumed(Received(c, flow), flow))
  {
    var r := c.receiving;
    SumIsNatural(r);
    Window.UpdateBounds(r.window - flow, r.size, c.cfg.conWindow, c.cfg.conThreshold);
  }

  lemma SumIsNatural(r: Receiving)
    requires r.size == SumAll(r.tokens)
    ensures r.size >= 0
  {
  }

  lemma AddingToken(c: Conn, id: nat, n: nat) returns (r: Conn)
    requires Receives(c) && id in c.streams && n <= c.receiving.window
    requires n <= c.streams[id].into.window
    ensures r == NewToken(c, id, n) && Receives(r)
  {
    SumAppend(c.receiving.tokens, Token(id, n));
    r := NewToken(c, id, n);
  }

  /** The stream's side of a release. */
  lemma Releasing(s: Stream, n: nat, cfg: Config, acked: bool)
    requires ValidConfig(cfg) && n <= s.into.size && s.life.recv != Closed && Bounded(s.into, cfg, acked)
    ensures Bounded(Release(s, n, cfg).into, cfg, acked)
  {
  }

  lemma Consuming(c: Conn, t: nat, n: nat) returns (r: Conn)
    requires Receives(c) && ValidConfig(c.cfg) && t < |c.receiving.tokens| && n <= c.receiving.tokens[t].size
    ensures r == ConsumeToken(c, t, n) && Receives(r)
  {
    var token := c.receiving.tokens[t].(size := c.receiving.tokens[t].size - n);
    SumUpdate(c.receiving.tokens, t, token);
    SumForAtLeast(c.receiving.tokens, t);
    ReleasingMapped(c, t, n);
    ConsumedConserves(c.receiving, c.cfg, n, c.receiving.tokens[t := token]);
    r := ConsumedTokens(c, t, n, token);
  }

  lemma ReleasingMapped(c: Conn, t: nat, n: nat)
    requires Receives(c) && ValidConfig(c.cfg) && t < |c.receiving.tokens| && n <= c.receiving.tokens[t].size
    ensures var id := c.receiving.tokens[t].stream;
            id in c.mapped && c.streams[id].life.recv != Closed ==>
              Bounded(Release(c.streams[id], n, c.cfg).into, c.cfg, c.receiving.acked)
  {
    SumForAtLeast(c.receiving.tokens, t);
    var id := c.receiving.tokens[t].stream;
    if id in c.mapped && c.streams[id].life.recv != Closed {
      Releasing(c.streams[id], n, c.cfg, c.receiving.acked);
    }
  }

  lemma ConsumedConserves(r: Receiving, cfg: Config, n: nat, tokens: seq<Token>)
    requires Conserved(r, cfg) && ValidConfig(cfg) && n <= r.size && SumAll(tokens) == SumAll(r.tokens) - n
    ensures var (window, inc) := Window.Update(r.window, r.size - n, cfg.conWindow, cfg.conThreshold);
            Conserved(r.(window := window, size := r.size - n, tokens := tokens,
                         granted := r.granted + if inc.Some? then inc.value else 0), cfg)
  {
    Window.UpdateBounds(r.window, r.size - n, cfg.conWindow, cfg.conThreshold);
  }

  /** What is released of one stream, in the connection that results. */
  lemma ConsumedStream(c: Conn, t: nat, n: nat, id: nat)
    requires Wf(c) && ValidConfig(c.cfg) && t < |c.receiving.tokens| && n <= c.receiving.tokens[t].size && id in c.streams
    ensures var r := ConsumeToken(c, t, n);
            && r.streams.Keys == c.streams.Keys && r.mapped == c.mapped && r.receiving.acked == c.receiving.acked
            && r.streams[id] == if id == c.receiving.tokens[t].stream then Release(c.streams[id], n, c.cfg) else c.streams[id]
  {
  }

  lemma ConsumedReceiving(c: Conn, t: nat, n: nat, token: Token)
    requires Wf(c) && ValidConfig(c.cfg) && t < |c.receiving.tokens| && n <= c.receiving.tokens[t].size
    requires token == c.receiving.tokens[t].(size := c.receiving.tokens[t].size - n)
    ensures var (window, inc) := Window.Update(c.receiving.window, c.receiving.size - n, c.cfg.conWindow, c.cfg.conThreshold);
            ConsumeToken(c, t, n).receiving ==
              c.receiving.(window := window, size := c.receiving.size - n, tokens := c.receiving.tokens[t := token],
                           granted := c.receiving.granted + if inc.Some? then inc.value else 0)
  {
  }

  lemma ConsumedTokens(c: Conn, t: nat, n: nat, token: Token) returns (r: Conn)
    requires Receives(c) && ValidConfig(c.cfg) && t < |c.receiving.tokens| && n <= c.receiving.tokens[t].size
    requires token == c.receiving.tokens[t].(size := c.receiving.tokens[t].size - n)
    requires var ts := c.receiving.tokens[t := token];
             forall id :: SumFor(ts, id) == SumFor(c.receiving.tokens, id) - SizeFor(c.receiving.tokens[t], id) + SizeFor(token, id)
    requires token.stream in c.mapped && c.streams[token.stream].life.recv != Closed ==>
               Bounded(Release(c.streams[token.stream], n, c.cfg).into, c.cfg, c.receiving.acked)
    requires var (window, inc) := Window.Update(c.receiving.window, c.receiving.size - n, c.cfg.conWindow, c.cfg.conThreshold);
             Conserved(c.receiving.(window := window, size := c.receiving.size - n, tokens := c.receiving.tokens[t := token],
                                    granted := c.receiving.granted + if inc.Some? then inc.value else 0), c.cfg)
    ensures r == ConsumeToken(c, t, n) && Receives(r)
  {
    r := ConsumeToken(c, t, n);
    ConsumedReceiving(c, t, n, token);
    forall id | id in c.streams
      ensures r.streams[id] == if id == token.stream then Release(c.streams[id], n, c.cfg) else c.streams[id]
    {
      ConsumedStream(c, t, n, id);
    }
    ReleasedOne(c, r, t, n, token);
  }

  lemma ReleasedOne(c: Conn, r: Conn, t: nat, n: nat, token: Token)
    requires Receives(c) && ValidConfig(c.cfg) && Extends(c, r) && t < |c.receiving.tokens| && n <= c.receiving.tokens[t].size
    requires token == c.receiving.tokens[t].(size := c.receiving.tokens[t].size - n)
    requires r.streams.Keys == c.streams.Keys && r.mapped == c.mapped && r.receiving.acked == c.receiving.acked
    requires r.receiving.tokens == c.receiving.tokens[t := token] && Conserved(r.receiving, c.cfg)
    requires forall id :: SumFor(r.receiving.tokens, id) == SumFor(c.receiving.tokens, id) - SizeFor(c.receiving.tokens[t], id) + SizeFor(token, id)
    requires forall id :: id in c.streams ==> r.streams[id] == if id == token.stream then Release(c.streams[id], n, c.cfg) else c.streams[id]
    requires token.stream in c.mapped && c.streams[token.stream].life.recv != Closed ==>
               Bounded(Release(c.streams[token.stream], n, c.cfg).into, c.cfg, c.receiving.acked)
    ensures Receives(r)
  {
  }

  lemma DroppingToken(c: Conn, t: nat)
    requires Receives(c) && ValidConfig(c.cfg) && t < |c.receiving.tokens|
    ensures Receives(DropToken(c, t))
  {
    var r := Consuming(c, t, c.receiving.tokens[t].size);
  }

  lemma Merging(c: Conn, a: nat, b: nat)
    requires Receives(c) && a < |c.receiving.tokens| && b < |c.receiving.tokens| && a != b
    requires c.receiving.tokens[a].stream == c.receiving.tokens[b].stream
    ensures Receives(MergeTokens(c, a, b))
  {
    MergedSums(c.receiving.tokens, a, b);
    SameSums(c, MergeTokens(c, a, b));
  }

  lemma MergedSums(ts: seq<Token>, a: nat, b: nat)
    requires a < |ts| && b < |ts| && a != b && ts[a].stream == ts[b].stream
    ensures var ts' := ts[a := Token(ts[a].stream, ts[a].size + ts[b].size)][b := Token(ts[b].stream, 0)];
            SumAll(ts') == SumAll(ts) && forall id :: SumFor(ts', id) == SumFor(ts, id)
  {
    var merged, gone := Token(ts[a].stream, ts[a].size + ts[b].size), Token(ts[b].stream, 0);
    SumUpdate(ts, a, merged);
    SumUpdate(ts[a := merged], b, gone);
  }

  /** Tokens change hands. */
  lemma SameSums(c: Conn, c': Conn)
    requires Receives(c) && Wf(c') && c' == c.(receiving := c.receiving.(tokens := c'.receiving.tokens))
    requires SumAll(c'.receiving.tokens) == SumAll(c.receiving.tokens)
    requires forall id :: SumFor(c'.receiving.tokens, id) == SumFor(c.receiving.tokens, id)
    ensures Receives(c')
  {
  }

  lemma Accepting(c: Conn, id: nat, flow: nat, len: nat) returns (r: Conn)
    requires Receives(c) && ValidConfig(c.cfg) && len <= flow && id in c.streams
    requires flow <= c.receiving.window && flow <= c.streams[id].into.window
    ensures r == Accept(c, id, flow, len) && Receives(r)
  {
    var c' := AddingToken(c, id, flow);
    r := c';
    if flow > len {
      r := Consuming(c', |c.receiving.tokens|, flow - len);
    }
  }

  lemma Delivering(c: Conn, id: nat, t: nat, len: nat, eof: bool)
    requires Receives(c) && ValidConfig(c.cfg) && id in c.streams && t < |c.receiving.tokens|
    ensures Receives(Deliver(c, id, t, len, eof))
  {
    var s := c.streams[id];
    var taken := TakePayload(s.life.recv, s.into.content, len, eof);
    var c' := SetContent(c, id, taken.content);
    SettingSameReceive(c, id, s.(into := s.into.(content := taken.content)));
    SameReceiveKeeps(c, c');
    if taken.Took? {
      Shutting(c', id, true, false, false);
      SameReceiveKeeps(c', Shut(c', id, true, false, false));
    } else {
      DroppingToken(c', t);
      Resetting(DropToken(c', t), id);
    }
  }

  lemma StreamingData(c: Conn, id: nat, flow: nat, len: nat, eof: bool)
    requires Receives(c) && ValidConfig(c.cfg) && len <= flow && id in c.streams && flow <= c.receiving.window
    ensures Receives(StreamData(c, id, flow, len, eof))
  {
    if flow > c.streams[id].into.window {
      Refunding(c, flow);
      Resetting(Consumed(Received(c, flow), flow), id);
    } else {
      var c' := Accepting(c, id, flow, len);
      Delivering(c', id, |c.receiving.tokens|, len, eof);
    }
  }

  lemma ReceivingData(c: Conn, id: nat, flow: nat, len: nat, eof: bool, pending: bool)
    requires Receives(c) && ValidConfig(c.cfg) && len <= flow
    ensures Receives(RecvData(c, id, flow, len, eof, pending))
  {
    FailingAll(c);
    if flow <= c.receiving.window {
      Refunding(c, flow);
      if id in c.mapped {
        StreamingData(c, id, flow, len, eof);
      }
    }
  }

  // ----- other frames ------------------------------------------------------------------------

  lemma HearingHeaders(c: Conn, id: nat, h: Headers)
    requires Receives(c) && id in c.streams && c.streams[id].life.recv != Closed
    ensures Receives(StreamHeaders(c, id, h))
  {
    var s := c.streams[id];
    Shutting(c, id, true, false, false);
    SameReceiveKeeps(c, Shut(c, id, true, false, false));
    Resetting(c, id);
    match HearHeaders(c.cfg.server, s.life.recv, s.into.content, h)
    case Opened(content, eof) =>
      OpeningHalf(c, id, content, eof);
    case _ =>
  }

  lemma OpeningHalf(c: Conn, id: nat, content: ContentLength, eof: bool)
    requires Receives(c) && id in c.streams && c.streams[id].life.recv != Closed
    ensures var c' := SetContent(c, id, content);
            var s' := c'.streams[id];
            Receives(Shut(c', id, true, false, false)) && Receives(SetStream(c', id, s'.(life := s'.life.(recv := Payload))))
  {
    var s := c.streams[id];
    var c' := SetContent(c, id, content);
    var s' := s.(into := s.into.(content := content));
    SettingSameReceive(c, id, s');
    SameReceiveKeeps(c, c');
    Shutting(c', id, true, false, false);
    SameReceiveKeeps(c', Shut(c', id, true, false, false));
    SettingSameReceive(c', id, s'.(life := s'.life.(recv := Payload)));
    SameReceiveKeeps(c', SetStream(c', id, s'.(life := s'.life.(recv := Payload))));
  }

  lemma HearingClosed(c: Conn, id: nat, h: Headers)
    requires Receives(c) && id in c.streams && c.streams[id].life.recv == Closed
    ensures Receives(StreamHeaders(c, id, h))
  {
    Resetting(c, id);
  }

  lemma Accepted(c: Conn, id: nat, h: Headers)
    requires Receives(c) && ValidConfig(c.cfg) && c.cfg.server && id > c.ids.last
    ensures Receives(c.(ids := c.ids.(last := id)))
    ensures Receives(StreamHeaders(Insert(c.(ids := c.ids.(last := id)), id, false), id, h))
  {
    var c' := c.(ids := c.ids.(last := id));
    SameReceiveKeeps(c, c');
    var c'' := Inserting(c', id, false);
    HearingHeaders(c'', id, h);
  }

  lemma ReceivingHeaders(c: Conn, id: nat, h: Headers, pending: bool)
    requires Receives(c) && ValidConfig(c.cfg)
    ensures Receives(RecvHeaders(c, id, h, pending))
  {
    if id in c.mapped {
      if c.streams[id].life.recv == Closed { HearingClosed(c, id, h); } else { HearingHeaders(c, id, h); }
    } else if c.cfg.server && id > c.ids.last {
      Accepted(c, id, h);
    }
    FailingAll(c);
  }

  /** A stream's window at the acknowledgment. */
  lemma AckingStream(s: Stream, cfg: Config)
    requires ValidConfig(cfg) && s.life.recv != Closed && s.into.size >= 0 && Bounded(s.into, cfg, false)
    requires !AckStream(s, cfg.window - Window.DEFAULT, cfg).1
    ensures Bounded(AckStream(s, cfg.window - Window.DEFAULT, cfg).0.into, cfg, true)
  {
  }

  /** Receives, but for some streams that are to be failed. */
  ghost predicate ReceivesBut(c: Conn, ids: seq<nat>) {
    match c
    case c =>
      && Wf(c) && Conserved(c.receiving, c.cfg)
      && (forall id :: id in c.streams ==> c.streams[id].into.size == SumFor(c.receiving.tokens, id))
      && (forall id :: id in c.mapped && id !in ids && c.streams[id].life.recv != Closed ==>
            Bounded(c.streams[id].into, c.cfg, c.receiving.acked))
  }

  lemma AckingAll(c: Conn, order: seq<nat>) returns (r: Conn)
    requires Receives(c) && ValidConfig(c.cfg) && !c.receiving.acked
    requires forall id :: id in AckFailures(c) ==> id in order
    ensures r == AckAll(c) && ReceivesBut(r, order)
  {
    r := AckAll(c);
    var upd := c.cfg.window - Window.DEFAULT;
    forall id | id in c.mapped && id !in order && c.streams[id].life.recv != Closed
      ensures Bounded(AckStream(c.streams[id], upd, c.cfg).0.into, c.cfg, true)
    {
      assert id !in AckFailures(c);
      AckingStream(c.streams[id], c.cfg);
    }
  }

  lemma ShutCloses(c: Conn, id: nat)
    requires Wf(c) && id in c.streams
    ensures Shut(c, id, true, true, true).streams[id].life.recv == Closed
  {
  }

  lemma {:induction false} FailingAcked(c: Conn, ids: seq<nat>)
    requires ReceivesBut(c, ids) && forall i :: 0 <= i < |ids| ==> ids[i] in c.streams
    ensures Receives(FailEach(c, ids))
    decreases |ids|
  {
    if |ids| > 0 {
      var c' := Shut(c, ids[0], true, true, true);
      Shutting(c, ids[0], true, true, true);
      ShutCloses(c, ids[0]);
      OneFewer(c, c', ids);
      FailingAcked(c', ids[1..]);
    }
  }

  lemma OneFewer(c: Conn, c': Conn, ids: seq<nat>)
    requires ReceivesBut(c, ids) && |ids| > 0 && SameReceive(c, c')
    requires ids[0] in c'.streams && c'.streams[ids[0]].life.recv == Closed
    ensures ReceivesBut(c', ids[1..])
  {
    forall id | id in c'.mapped && id !in ids[1..] && c'.streams[id].life.recv != Closed
      ensures id !in ids
    {
      assert forall i :: 0 < i < |ids| ==> ids[i] == ids[1..][i - 1];
    }
  }

  /** Streams whose window overflows at the acknowledgment are failed. */
  lemma ReceivingAck(c: Conn, order: seq<nat>)
    requires Receives(c) && ValidConfig(c.cfg) && (forall i :: 0 <= i < |order| ==> order[i] in c.streams)
    requires forall id :: id in AckFailures(c) ==> id in order
    ensures Receives(RecvAck(c, order))
  {
    FailingAll(c);
    if !c.receiving.acked {
      var c' := AckingAll(c, order);
      FailingAcked(c', order);
    }
  }

  lemma ReceivingGoAway(c: Conn, last: nat, order: seq<nat>)
    requires Receives(c) && forall i :: 0 <= i < |order| ==> order[i] in c.streams
    ensures Receives(RecvGoAway(c, last, order))
  {
    NewSlots(c, c.slots, c.shut.(goAway := Some(last)));
    var c' := c.(shut := c.shut.(goAway := Some(last)));
    FailingEach(c', order);
    var c'' := FailEach(c', order);
    NewSlots(c'', ClearWaiters(c''.slots), c''.shut.(disconnecting := true));
  }

  // ----- sending and its windows ------------------------------------------------------------

  lemma SettingOut(c: Conn, id: nat, s: Stream)
    requires Receives(c) && id in c.streams && SameReceiver(c.streams[id], s)
    ensures Receives(SetStream(c, id, s))
  {
    SettingSameReceive(c, id, s);
    SameReceiveKeeps(c, SetStream(c, id, s));
  }

  lemma Charging(c: Conn, id: nat, size: nat)
    requires Receives(c) && id in c.streams && size <= c.streams[id].out.window && size <= c.sending.window
    ensures Receives(Charge(c, id, size))
  {
    SameReceiveKeeps(c, Charge(c, id, size));
  }

  lemma SendingChunk(c: Conn, id: nat, len: nat, frame: nat, eof: bool)
    requires Receives(c) && id in c.streams
    ensures Receives(SendChunk(c, id, len, frame, eof))
  {
    var win := Available(c, id);
    if SendsPayload(c.streams[id]) && win > 0 && len > 0 {
      var size := Min3(win, len, frame);
      Shutting(c, id, false, true, false);
      SameReceiveKeeps(c, Shut(c, id, false, true, false));
      Charging(if eof && size == len then Shut(c, id, false, true, false) else c, id, size);
    }
  }

  lemma TimingOut(c: Conn, id: nat)
    requires Receives(c) && id in c.streams
    ensures Receives(CapacityTimeout(c, id)) && Receives(PollCapacity(c, id)) && Receives(CancelCapacity(c, id))
  {
    var s := c.streams[id];
    SettingOut(c, id, s.(out := s.out.(timer := false)));
    Resetting(SetStream(c, id, s.(out := s.out.(timer := false))), id);
    SettingOut(c, id, s.(out := s.out.(waits := false, timer := false, parked := false)));
    SettingOut(c, id, s.(out := s.out.(waits := true, timer := s.out.timer || c.cfg.timed, waker := true, parked := true)));
  }

  lemma UpdatingStream(c: Conn, id: nat, inc: nat)
    requires Receives(c) && id in c.streams
    ensures Receives(StreamUpdate(c, id, inc))
  {
    Resetting(c, id);
    SettingOut(c, id, Woken(c.streams[id].(out := Credited(c.streams[id].out, inc)), c.sending.window));
  }

  lemma UpdatingConnection(c: Conn, inc: nat) returns (r: Option<Conn>)
    requires Receives(c)
    ensures r == ConnectionUpdate(c, inc) && (r.Some? ==> Receives(r.value))
  {
    r := ConnectionUpdate(c, inc);
    if r.Some? {
      SameReceiveKeeps(c, r.value);
    }
  }

  lemma ReceivingUpdate(c: Conn, id: nat, inc: nat, pending: bool)
    requires Receives(c)
    ensures Receives(RecvUpdate(c, id, inc, pending))
  {
    FailingAll(c);
    var r := UpdatingConnection(c, inc);
    if id in c.mapped {
      UpdatingStream(c, id, inc);
    }
  }

  lemma {:induction false} AdjustingAll(c: Conn, order: seq<nat>, upd: int)
    requires Receives(c) && forall i :: 0 <= i < |order| ==> order[i] in c.streams
    ensures Receives(AdjustAll(c, order, upd).0)
    decreases |order|
  {
    if |order| > 0 {
      var s := c.streams[order[0]];
      SettingOut(c, order[0], Woken(s.(out := s.out.(window := s.out.window + upd)), c.sending.window));
      AdjustingAll(Adjust(c, order[0], upd), order[1..], upd);
    }
  }

  lemma ReceivingSettings(c: Conn, maxStreams: Option<nat>, initial: Option<nat>, order: seq<nat>)
    requires Receives(c) && forall i :: 0 <= i < |order| ==> order[i] in c.streams
    ensures Receives(RecvSettings(c, maxStreams, initial, order))
  {
    var c' := LimitingStreams(c, maxStreams);
    if initial.Some? {
      var r := ChangingInitial(c', initial.value, order);
      FailingAll(r.0);
    }
  }

  lemma LimitingStreams(c: Conn, max: Option<nat>) returns (r: Conn)
    requires Receives(c)
    ensures r == LimitStreams(c, max) && Receives(r)
  {
    r := LimitStreams(c, max);
    SameReceiveKeeps(c, r);
  }

  lemma ChangingInitial(c: Conn, val: nat, order: seq<nat>) returns (r: (Conn, bool))
    requires Receives(c) && forall i :: 0 <= i < |order| ==> order[i] in c.streams
    ensures r == ChangeInitial(c, val, order) && Receives(r.0)
  {
    SettingInitial(c, val);
    AdjustingAll(SetInitial(c, val), order, val - c.sending.initial);
    r := ChangeInitial(c, val, order);
  }

  lemma SettingInitial(c: Conn, val: nat)
    requires Receives(c)
    ensures Receives(SetInitial(c, val))
  {
    SameReceiveKeeps(c, SetInitial(c, val));
  }

  // ----- consequences -----------------------------------------------------------------------

  /** Whoever holds data can give it back: none of the unsigned subtractions underflows. */
  lemma NoUnderflow(c: Conn, t: nat, n: nat)
    requires Receives(c) && t < |c.receiving.tokens| && n <= c.receiving.tokens[t].size
    ensures c.streams[c.receiving.tokens[t].stream].into.size >= n && c.receiving.size >= n
  {
    SumForAtLeast(c.receiving.tokens, t);
  }

  /** The increment a stream announces when it releases n octets. */
  function Announced(s: Stream, n: nat, cfg: Config): (inc: Option<nat>)
    requires cfg.threshold >= 0
  {
    if s.life.recv == Closed then None else Window.Update(s.into.window, s.into.size - n, cfg.window, cfg.threshold).1
  }

  /** Every increment a stream or the connection announces is positive, and computing it
      does not leave 32 bits. */
  lemma IncrementsArePositive(c: Conn, t: nat, n: nat)
    requires Receives(c) && ValidConfig(c.cfg) && t < |c.receiving.tokens| && n <= c.receiving.tokens[t].size
    ensures var id := c.receiving.tokens[t].stream;
            var inc := Announced(c.streams[id], n, c.cfg);
            id in c.mapped && inc.Some? ==> 1 <= inc.value <= Window.MAX && Window.Fits(c.cfg.window - c.streams[id].into.window)
    ensures var granted := ConsumeToken(c, t, n).receiving.granted - c.receiving.granted;
            granted == 0 || 1 <= granted <= Window.MAX
  {
    NoUnderflow(c, t, n);
  }
}
