/** Sending: both windows account for every octet sent, and no task sleeps on capacity it
    could have. */
module ConnectionSend {
  import opened Prelude
  import Window
  import opened Messages
  import opened Connection
  import opened ConnectionLife

  /** A sleeping task would be told to wait again, something will wake it, and its timer
      runs; timers belong to streams of the map. */
  ghost predicate WakeOk(s: Stream, mapped: bool, conWindow: int, error: bool, timed: bool) {
    && (s.out.parked ==>
          && s.out.waker && s.out.waits
          && s.life.send != Closed && !s.life.error && !error
          && Capacity(s.out, conWindow) == 0
          && (timed ==> s.out.timer))
    && (s.out.timer ==> mapped)
  }

  /** Section 6.9.2 of RFC 9113: the window is the initial size, what was credited and what
      was sent, within 31 bits and a sign. */
  ghost predicate LedgerOk(o: Out, initial: int) {
    && o.window == initial + o.credit - o.sent
    && -Window.MAX <= o.credit as int - o.sent
    && o.window <= Window.MAX
  }

  ghost predicate ConLedgerOk(s: Sending) {
    && s.window == Window.DEFAULT + s.credit - s.sent
    && 0 <= s.window <= Window.MAX
    && 0 <= s.initial <= Window.MAX
  }

  ghost predicate Wakes(c: Conn) {
    match c
    case c =>
      && Wf(c) && ConLedgerOk(c.sending)
      && forall id :: id in c.streams ==>
           WakeOk(c.streams[id], id in c.mapped, c.sending.window, c.shut.error, c.cfg.timed)
  }

  ghost predicate Ledgers(c: Conn) {
    match c
    case c => Wf(c) && forall id :: id in c.mapped ==> LedgerOk(c.streams[id].out, c.sending.initial)
  }

  ghost predicate Sends(c: Conn) {
    match c
    case c => Wakes(c) && Ledgers(c)
  }

  /** No lost wake-up: a task that sleeps on capacity would get Pending if it polled now. */
  lemma SleepersMustWait(c: Conn, id: nat)
    requires Sends(c) && id in c.streams && c.streams[id].out.parked
    ensures MustWait(c, id) && (c.cfg.timed ==> c.streams[id].out.timer)
  {
  }

  // ----- primitives ------------------------------------------------------------------------

  /** Only what sending does not look at differs. */
  ghost predicate SameSend(c: Conn, c': Conn) {
    match (c, c')
    case (c, c') =>
      && Wf(c') && c'.cfg == c.cfg && c'.mapped == c.mapped && c'.sending == c.sending && c'.shut.error == c.shut.error
      && c'.streams.Keys == c.streams.Keys
      && forall id :: id in c.streams ==> SameSender(c.streams[id], c'.streams[id])
  }

  ghost predicate SameSender(s: Stream, s': Stream) {
    s'.out == s.out && s'.life.send == s.life.send && s'.life.error == s.life.error
  }

  lemma SameSendKeeps(c: Conn, c': Conn)
    requires Sends(c) && SameSend(c, c')
    ensures Sends(c')
  {
  }

  /** One stream changes, and is fine. */
  lemma Changing(c: Conn, id: nat, s: Stream)
    requires Sends(c) && id in c.streams
    requires WakeOk(s, id in c.mapped, c.sending.window, c.shut.error, c.cfg.timed)
    requires id in c.mapped ==> LedgerOk(s.out, c.sending.initial)
    ensures Sends(SetStream(c, id, s))
  {
  }

  lemma ClosingIfDone(c: Conn)
    requires Sends(c)
    ensures Sends(CloseIfDone(c))
  {
    SameSendKeeps(c, CloseIfDone(c));
  }

  lemma Dropping(c: Conn, id: nat) returns (r: Conn)
    requires Sends(c) && id in c.streams && BothClosed(c.streams[id].life)
    ensures r == DropStream(c, id) && Sends(r)
  {
    if id in c.mapped {
      var s := c.streams[id];
      var c' := Remove(c, id);
      assert Wakes(c') && Ledgers(c');
      ClosingIfDone(c');
    }
    r := DropStream(c, id);
  }

  lemma Shutting(c: Conn, id: nat, recv: bool, send: bool, error: bool)
    requires Sends(c) && id in c.streams && (error ==> recv && send)
    ensures Sends(Shut(c, id, recv, send, error))
  {
    var s := c.streams[id];
    var life := Life(if recv then Closed else s.life.recv, if send then Closed else s.life.send, s.life.error || error);
    var s' := s.(life := life, out := if send || BothClosed(life) then Wake(s.out) else s.out);
    Changing(c, id, s');
    if BothClosed(life) {
      var r := Dropping(SetStream(c, id, s'), id);
    }
  }

  lemma Resetting(c: Conn, id: nat)
    requires Sends(c) && id in c.streams
    ensures Sends(ResetSilent(c, id))
  {
    Shutting(c, id, true, true, true);
  }

  lemma SendingHeaders(c: Conn, id: nat, eof: bool)
    requires Sends(c) && id in c.streams
    ensures Sends(SendHeaders(c, id, eof))
  {
    if eof {
      Shutting(c, id, false, true, false);
    } else {
      var s := c.streams[id];
      Changing(c, id, s.(life := s.life.(send := Payload)));
    }
  }

  lemma {:induction false} FailingEach(c: Conn, ids: seq<nat>)
    requires Sends(c) && forall i :: 0 <= i < |ids| ==> ids[i] in c.streams
    ensures Sends(FailEach(c, ids))
    decreases |ids|
  {
    if |ids| > 0 {
      Shutting(c, ids[0], true, true, true);
      FailingEach(Shut(c, ids[0], true, true, true), ids[1..]);
    }
  }

  /** Everybody wakes; the ledgers of what is left are those of an empty map.  A stream that
      has left the map has nobody sleeping on it. */
  lemma FailingAll(c: Conn)
    requires Wakes(c) && Lifecycle(c)
    ensures Sends(FailAll(c))
  {
    assert forall id :: id in c.streams && id !in c.mapped ==> BothClosed(c.streams[id].life);
  }

  // ----- opening -----------------------------------------------------------------------------

  lemma Inserting(c: Conn, id: nat, head: bool) returns (r: Conn)
    requires Sends(c)
    requires c.shut.goAway.Some? ==> c.cfg.server
    requires id !in c.streams && Issued(c, id)
    ensures r == Insert(c, id, head) && Sends(r)
  {
    r := Insert(c, id, head);
  }

  lemma Opening(c: Conn, eof: bool, fits: bool, head: bool)
    requires !c.cfg.server
    requires Sends(c)
    requires c.shut.goAway.None?
    ensures OpenStream(c, eof, fits, head).Some? ==> Sends(OpenStream(c, eof, fits, head).value)
  {
    var c' := c.(ids := c.ids.(next := c.ids.next + 2));
    SameSendKeeps(c, c');
    var c'' := Inserting(c', c.ids.next, head);
    SendingHeaders(c'', c.ids.next, eof);
  }

  lemma OpeningCounted(c: Conn, eof: bool, fits: bool, head: bool) returns (r: Conn)
    requires !c.cfg.server
    requires Sends(c) && c.shut.goAway.None?
    ensures r == OpenCounted(c, eof, fits, head) && Sends(r)
  {
    r := OpenCounted(c, eof, fits, head);
    Opening(c, eof, fits, head);
    SameSendKeeps(c, c.(slots := ReleaseLocal(c.slots)));
  }

  lemma Reslotting(c: Conn, s: Slots) returns (r: Conn)
    requires Sends(c)
    ensures r == c.(slots := s) && Sends(r)
  {
    r := c.(slots := s);
    SameSendKeeps(c, r);
  }

  lemma Requesting(c: Conn, eof: bool, fits: bool, head: bool) returns (r: Conn)
    requires !c.cfg.server
    requires Sends(c)
    ensures r == SendRequest(c, eof, fits, head) && Sends(r)
  {
    if Refuses(c) {
      r := c;
    } else if CanCreate(c.slots) {
      var c' := Reslotting(c, c.slots.(local := c.slots.local + 1));
      r := OpeningCounted(CountOne(c), eof, fits, head);
    } else {
      r := Reslotting(c, Park(c.slots));
    }
  }

  lemma RunningWaiter(c: Conn, w: nat, eof: bool, fits: bool, head: bool)
    requires !c.cfg.server
    requires Sends(c)
    ensures Sends(RunWaiter(c, w, eof, fits, head))
  {
    var c' := c.(slots := c.slots.(notified := c.slots.notified - {w}));
    SameSendKeeps(c, c');
    var r := Requesting(c', eof, fits, head);
  }

  lemma SendingReserved(c: Conn, eof: bool, fits: bool, head: bool)
    requires !c.cfg.server
    requires Sends(c)
    ensures Sends(SendReserved(c, eof, fits, head))
  {
    if c.shut.goAway.None? {
      Opening(c, eof, fits, head);
    }
    var o := if c.shut.goAway.None? then OpenStream(c, eof, fits, head) else None;
    if o.Some? {
      NewSlots(o.value, o.value.slots.(reserved := if o.value.slots.reserved > 0 then o.value.slots.reserved - 1 else 0));
    }
  }

  lemma NewSlots(c: Conn, s: Slots)
    requires Sends(c)
    ensures Sends(c.(slots := s))
  {
    SameSendKeeps(c, c.(slots := s));
  }

  lemma ReleasingReserved(c: Conn)
    requires Sends(c)
    ensures Sends(ReleaseReserved(c)) && Sends(Reserve(c)) && Sends(DisconnectWhenReady(c))
  {
    var s := c.slots.(reserved := if c.slots.reserved > 0 then c.slots.reserved - 1 else 0);
    NewSlots(c, ReleaseLocal(s));
    ClosingIfDone(c.(slots := ReleaseLocal(s)));
    NewSlots(c, c.slots.(local := c.slots.local + 1, reserved := c.slots.reserved + 1));
    var c' := c.(slots := ClearWaiters(c.slots), shut := c.shut.(disconnecting := true));
    SameSendKeeps(c, c');
    ClosingIfDone(c');
  }

  // ----- the sender ----------------------------------------------------------------------------

  lemma Polling(c: Conn, id: nat)
    requires Sends(c) && Lifecycle(c) && id in c.streams
    ensures Sends(PollCapacity(c, id)) && Sends(CancelCapacity(c, id))
  {
    var s := c.streams[id];
    Changing(c, id, s.(out := s.out.(waits := false, timer := false, parked := false)));
    if MustWait(c, id) {
      Changing(c, id, s.(out := s.out.(waits := true, timer := s.out.timer || c.cfg.timed, waker := true, parked := true)));
    }
  }

  /** The timer of a sleeping task never fires in vain. */
  lemma TimingOut(c: Conn, id: nat)
    requires Sends(c) && id in c.streams
    ensures Sends(CapacityTimeout(c, id))
  {
    var s := c.streams[id];
    if s.out.parked {
      assert s.out.waits && s.life.send != Closed && Available(c, id) == 0;
      ResettingUntimed(c, id);
    } else {
      var s' := s.(out := s.out.(timer := false));
      Changing(c, id, s');
      Resetting(SetStream(c, id, s'), id);
    }
  }

  lemma ResettingUntimed(c: Conn, id: nat)
    requires Sends(c) && id in c.streams && c.streams[id].out.parked
    ensures var s := c.streams[id];
            Sends(ResetSilent(SetStream(c, id, s.(out := s.out.(timer := false))), id))
  {
    var s := c.streams[id];
    var c' := SetStream(c, id, s.(out := s.out.(timer := false)));
    var s' := Stream(Life(Closed, Closed, true), Wake(s.out.(timer := false)), s.into);
    Changing(c, id, s');
    assert c.streams[id := s'] == c'.streams[id := s'];
    var r := Dropping(SetStream(c, id, s'), id);
    assert SetStream(c, id, s') == SetStream(c', id, s');
  }

  lemma Charging(c: Conn, id: nat, size: nat)
    requires Sends(c) && id in c.streams && 0 < size <= Available(c, id)
    ensures Sends(Charge(c, id, size))
  {
  }

  /** Payload leaves only where both windows are open, and both pay for it. */
  lemma SendingChunk(c: Conn, id: nat, len: nat, frame: nat, eof: bool)
    requires Sends(c) && id in c.streams && frame > 0
    ensures Sends(SendChunk(c, id, len, frame, eof))
    ensures SendChunk(c, id, len, frame, eof) != c ==> c.streams[id].out.window > 0 && c.sending.window > 0
  {
    var win := Available(c, id);
    if SendsPayload(c.streams[id]) && win > 0 && len > 0 {
      var size := Min3(win, len, frame);
      Shutting(c, id, false, true, false);
      Charging(if eof && size == len then Shut(c, id, false, true, false) else c, id, size);
    }
  }

  // ----- windows the peer changes ----------------------------------------------------------------

  lemma UpdatingStream(c: Conn, id: nat, inc: nat)
    requires Sends(c) && id in c.mapped
    ensures Sends(StreamUpdate(c, id, inc))
  {
    Resetting(c, id);
    var s := c.streams[id];
    if inc > 0 && s.out.window + inc <= Window.MAX {
      Changing(c, id, Woken(s.(out := Credited(s.out, inc)), c.sending.window));
    }
  }

  /** More capacity where there was some: who sleeps has an empty window of its own. */
  lemma Adding(c: Conn, inc: nat)
    requires Sends(c) && c.sending.window > 0 && c.sending.window + inc <= Window.MAX
    ensures Sends(CreditConnection(c, inc))
  {
  }

  /** Capacity where there was none: the streams of the map are told, and nobody sleeps on
      another. */
  lemma Telling(c: Conn, inc: nat) returns (r: Conn)
    requires Sends(c) && Lifecycle(c) && c.sending.window + inc <= Window.MAX
    ensures r == Broadcast(CreditConnection(c, inc)) && Sends(r)
  {
    assert forall id :: id in c.streams && id !in c.mapped ==> BothClosed(c.streams[id].life);
    r := Broadcast(CreditConnection(c, inc));
  }

  /** Streams are told of new capacity only if there was none before. */
  lemma UpdatingConnection(c: Conn, inc: nat) returns (r: Option<Conn>)
    requires Sends(c) && Lifecycle(c)
    ensures r == ConnectionUpdate(c, inc) && (r.Some? ==> Sends(r.value))
  {
    if inc == 0 || c.sending.window + inc > Window.MAX {
      r := None;
    } else if Window.Size(c.sending.window) == 0 {
      var c' := Telling(c, inc);
      r := Some(c');
    } else {
      Adding(c, inc);
      r := Some(CreditConnection(c, inc));
    }
  }

  lemma ReceivingUpdate(c: Conn, id: nat, inc: nat, pending: bool)
    requires Sends(c) && Lifecycle(c)
    ensures Sends(RecvUpdate(c, id, inc, pending))
  {
    FailingAll(c);
    var r := UpdatingConnection(c, inc);
    if id in c.mapped {
      UpdatingStream(c, id, inc);
    }
  }

  /** While the initial size changes, streams still in order have the old one. */
  ghost predicate Adjusting(c: Conn, order: seq<nat>, before: int) {
    match c
    case c =>
      && Wakes(c)
      && (forall i, j :: 0 <= i < j < |order| ==> order[i] != order[j])
      && (forall i :: 0 <= i < |order| ==> order[i] in c.mapped && LedgerOk(c.streams[order[i]].out, before))
      && (forall id :: id in c.mapped && id !in order ==> LedgerOk(c.streams[id].out, c.sending.initial))
  }

  lemma AdjustingOne(c: Conn, order: seq<nat>, before: int, upd: int) returns (r: Conn)
    requires Adjusting(c, order, before) && |order| > 0 && 0 <= before <= Window.MAX && upd == c.sending.initial - before
    requires order[0] in c.streams && Window.Fits(c.streams[order[0]].out.window + upd)
    ensures r == Adjust(c, order[0], upd) && Adjusting(r, order[1..], before)
    ensures r.sending == c.sending && r.streams.Keys == c.streams.Keys
  {
    r := Adjust(c, order[0], upd);
    forall id | id in c.mapped && id !in order[1..] && id != order[0]
      ensures id !in order
    {
      assert forall i :: 0 < i < |order| ==> order[i] == order[1..][i - 1];
    }
  }

  /** A window that shrinks stays above the least 32-bit number: overflow is upwards only. */
  lemma {:induction false} AdjustingAll(c: Conn, order: seq<nat>, before: int, upd: int) returns (r: Conn, fine: bool)
    requires Adjusting(c, order, before) && 0 <= before <= Window.MAX && upd == c.sending.initial - before
    requires forall i :: 0 <= i < |order| ==> order[i] in c.streams
    ensures (r, fine) == AdjustAll(c, order, upd)
    ensures Wakes(r) && (fine ==> Sends(r)) && (!fine ==> upd > 0)
    decreases |order|
  {
    if |order| == 0 {
      AllAdjusted(c, before);
      r, fine := c, true;
    } else if Window.Fits(c.streams[order[0]].out.window + upd) {
      var c' := AdjustingOne(c, order, before, upd);
      r, fine := AdjustingAll(c', order[1..], before, upd);
    } else {
      OverflowsUpwards(c, order, before, upd);
      r, fine := c, false;
    }
  }

  lemma AllAdjusted(c: Conn, before: int)
    requires Adjusting(c, [], before)
    ensures Sends(c)
  {
  }

  lemma OverflowsUpwards(c: Conn, order: seq<nat>, before: int, upd: int)
    requires Adjusting(c, order, before) && |order| > 0 && 0 <= before <= Window.MAX && upd == c.sending.initial - before
    requires order[0] in c.streams && !Window.Fits(c.streams[order[0]].out.window + upd)
    ensures Wakes(c) && upd > 0
  {
  }

  /** order lists the map, each stream once. */
  ghost predicate Lists(order: seq<nat>, ids: set<nat>) {
    && (forall i :: 0 <= i < |order| ==> order[i] in ids)
    && (forall id :: id in ids ==> id in order)
    && (forall i, j :: 0 <= i < j < |order| ==> order[i] != order[j])
  }

  lemma StartsAdjusting(c: Conn, val: nat, order: seq<nat>)
    requires Sends(c) && Lists(order, c.mapped) && val <= Window.MAX
    ensures Adjusting(SetInitial(c, val), order, c.sending.initial)
    ensures val == c.sending.initial ==> Sends(SetInitial(c, val))
    ensures 0 <= c.sending.initial <= Window.MAX
  {
  }

  lemma ChangingInitial(c: Conn, val: nat, order: seq<nat>) returns (r: (Conn, bool))
    requires Sends(c) && Lists(order, c.mapped) && val <= Window.MAX
    ensures r == ChangeInitial(c, val, order) && Wakes(r.0) && (r.1 ==> Sends(r.0))
  {
    StartsAdjusting(c, val, order);
    if val == c.sending.initial {
      r := (SetInitial(c, val), true);
    } else {
      var c', fine := AdjustingAll(SetInitial(c, val), order, c.sending.initial, val - c.sending.initial);
      r := (c', fine);
    }
  }

  lemma ReceivingSettings(c: Conn, maxStreams: Option<nat>, initial: Option<nat>, order: seq<nat>)
    requires Sends(c) && Lifecycle(c) && Lists(order, c.mapped) && (initial.Some? ==> initial.value <= Window.MAX)
    ensures Sends(RecvSettings(c, maxStreams, initial, order))
  {
    var c' := LimitStreams(c, maxStreams);
    SameSendKeeps(c, c');
    LimitingStreams(c, maxStreams);
    if initial.Some? {
      var r := ChangingInitial(c', initial.value, order);
      var r' := ConnectionLife.ChangingInitial(c', initial.value, order);
      FailingAll(r.0);
    }
  }

  // ----- the receiving side ------------------------------------------------------------------------

  lemma HearingHeaders(c: Conn, id: nat, h: Headers)
    requires Sends(c) && id in c.streams
    ensures Sends(StreamHeaders(c, id, h))
  {
    var s := c.streams[id];
    match HearHeaders(c.cfg.server, s.life.recv, s.into.content, h)
    case Interim =>
    case Opened(content, eof) =>
      var s' := s.(into := s.into.(content := content));
      Changing(c, id, s');
      Shutting(SetContent(c, id, content), id, true, false, false);
      Changing(SetContent(c, id, content), id, s'.(life := s'.life.(recv := Payload)));
    case Ended => Shutting(c, id, true, false, false);
    case Malformed => Resetting(c, id);
  }

  lemma Accepted(c: Conn, id: nat, h: Headers)
    requires Sends(c) && c.cfg.server && id > c.ids.last
    ensures Sends(c.(ids := c.ids.(last := id)))
    ensures Sends(StreamHeaders(Insert(c.(ids := c.ids.(last := id)), id, false), id, h))
  {
    var c' := c.(ids := c.ids.(last := id));
    SameSendKeeps(c, c');
    var c'' := Inserting(c', id, false);
    HearingHeaders(c'', id, h);
  }

  lemma ReceivingHeaders(c: Conn, id: nat, h: Headers, pending: bool)
    requires Sends(c) && Lifecycle(c)
    ensures Sends(RecvHeaders(c, id, h, pending))
  {
    if id in c.mapped {
      HearingHeaders(c, id, h);
    } else if c.cfg.server && id > c.ids.last {
      Accepted(c, id, h);
    }
    FailingAll(c);
  }

  /** Tokens and receive windows are no concern of the sender. */
  lemma Refunding(c: Conn, flow: nat)
    requires Sends(c) && c.cfg.conThreshold >= 0
    ensures Sends(Consumed(Received(c, flow), flow))
  {
    SameSendKeeps(c, Consumed(Received(c, flow), flow));
  }

  lemma Consuming(c: Conn, t: nat, n: nat)
    requires Sends(c) && c.cfg.conThreshold >= 0 && c.cfg.threshold >= 0
    requires t < |c.receiving.tokens| && n <= c.receiving.tokens[t].size
    ensures Sends(ConsumeToken(c, t, n))
  {
    SameSendKeeps(c, ConsumeToken(c, t, n));
  }

  lemma DroppingToken(c: Conn, t: nat)
    requires Sends(c) && c.cfg.conThreshold >= 0 && c.cfg.threshold >= 0 && t < |c.receiving.tokens|
    ensures Sends(DropToken(c, t))
  {
    Consuming(c, t, c.receiving.tokens[t].size);
  }

  lemma Accepting(c: Conn, id: nat, flow: nat, len: nat)
    requires Sends(c) && c.cfg.conThreshold >= 0 && c.cfg.threshold >= 0 && len <= flow && id in c.streams
    ensures Sends(Accept(c, id, flow, len))
  {
    var c' := NewToken(c, id, flow);
    SameSendKeeps(c, c');
    if flow > len {
      Consuming(c', |c.receiving.tokens|, flow - len);
    }
  }

  lemma Delivering(c: Conn, id: nat, t: nat, len: nat, eof: bool)
    requires Sends(c) && c.cfg.conThreshold >= 0 && c.cfg.threshold >= 0 && id in c.streams && t < |c.receiving.tokens|
    ensures Sends(Deliver(c, id, t, len, eof))
  {
    var s := c.streams[id];
    var taken := TakePayload(s.life.recv, s.into.content, len, eof);
    var c' := SetContent(c, id, taken.content);
    Changing(c, id, s.(into := s.into.(content := taken.content)));
    if taken.Took? {
      Shutting(c', id, true, false, false);
    } else {
      DroppingToken(c', t);
      Resetting(DropToken(c', t), id);
    }
  }

  lemma StreamingData(c: Conn, id: nat, flow: nat, len: nat, eof: bool)
    requires Sends(c) && c.cfg.conThreshold >= 0 && c.cfg.threshold >= 0 && len <= flow && id in c.streams
    ensures Sends(StreamData(c, id, flow, len, eof))
  {
    if flow > c.streams[id].into.window {
      Refunding(c, flow);
      Resetting(Consumed(Received(c, flow), flow), id);
    } else {
      Accepting(c, id, flow, len);
      Delivering(Accept(c, id, flow, len), id, |c.receiving.tokens|, len, eof);
    }
  }

  lemma ReceivingData(c: Conn, id: nat, flow: nat, len: nat, eof: bool, pending: bool)
    requires Sends(c) && Lifecycle(c) && c.cfg.conThreshold >= 0 && c.cfg.threshold >= 0 && len <= flow
    ensures Sends(RecvData(c, id, flow, len, eof, pending))
  {
    FailingAll(c);
    if flow <= c.receiving.window {
      if id in c.mapped {
        StreamingData(c, id, flow, len, eof);
      } else {
        Refunding(c, flow);
      }
    }
  }

  lemma ReceivingAck(c: Conn, order: seq<nat>)
    requires Sends(c) && Lifecycle(c) && c.cfg.threshold >= 0 && forall i :: 0 <= i < |order| ==> order[i] in c.streams
    ensures Sends(RecvAck(c, order))
  {
    FailingAll(c);
    if !c.receiving.acked {
      SameSendKeeps(c, AckAll(c));
      FailingEach(AckAll(c), order);
    }
  }

  lemma ReceivingGoAway(c: Conn, last: nat, order: seq<nat>)
    requires Sends(c) && forall i :: 0 <= i < |order| ==> order[i] in c.streams
    ensures Sends(RecvGoAway(c, last, order))
  {
    var c' := c.(shut := c.shut.(goAway := Some(last)));
    SameSendKeeps(c, c');
    FailingEach(c', order);
    ReleasingReserved(FailEach(c', order));
  }
}
