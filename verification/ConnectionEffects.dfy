/** What every event does, in terms of the fields before and after it. */
module ConnectionEffects {
  import opened Prelude
  import Window
  import opened Messages
  import opened Connection
  import opened ConnectionLife
  import opened ConnectionSend
  import opened ConnectionReceive
  import opened ConnectionRuns
  import opened ConnectionFrame

  /** No stream has changed. */
  ghost predicate SameStreams(c: Conn, c': Conn) {
    match (c, c')
    case (c, c') => c'.cfg == c.cfg && c'.streams == c.streams && c'.mapped == c.mapped
  }

  /** A connection error: every stream of the map fails. */
  ghost predicate Breaks(c: Conn, c': Conn) {
    match (c, c')
    case (c, c') => Fails(c, c', c.mapped) && c'.shut == c.shut.(error := true) && c'.slots.parked == {}
  }

  lemma Broken(c: Conn) returns (r: Conn)
    requires Wf(c)
    ensures r == FailAll(c) && Breaks(c, r)
  {
    r := FailsAll(c);
  }

  /** A stream error: the stream fails, the connection and the others go on. */
  ghost predicate BreaksStream(c: Conn, c': Conn, id: nat) {
    match (c, c')
    case (c, c') => Fails(c, c', {id}) && c'.shut == c.shut.(closed := c'.shut.closed)
  }

  lemma StreamBroken(c: Conn, id: nat) returns (r: Conn)
    requires Lifecycle(c) && id in c.mapped
    ensures r == ResetSilent(c, id) && BreaksStream(c, r, id)
  {
    r := FailsOne(c, id);
  }

  // ----- the beginning -------------------------------------------------------------------

  /** A new connection has no streams, numbers them from 1, lets 100 be opened until the peer
      sets its own limit, and raises its receive window if that is worth an announcement. */
  lemma Starts(cfg: Config)
    requires ValidConfig(cfg)
    ensures var c, raise := Init(cfg), cfg.conWindow - Window.DEFAULT;
            && c.streams == map[] && c.mapped == {} && c.ids == Ids(1, 0) && c.slots.max == Some(100) && c.slots.queue == []
            && c.shut == Shutdown(false, None, false, false, false) && !c.remoteSettings
            && c.sending == Sending(65535, 65535, 0, 0)
            && c.receiving.window == (if raise > 0 && raise >= cfg.conThreshold then cfg.conWindow else 65535)
            && c.receiving.granted == c.receiving.window - 65535 && c.receiving.size == 0 && c.receiving.tokens == [] && !c.receiving.acked
  {
  }

  // ----- WINDOW_UPDATE ---------------------------------------------------------------------

  /** Nothing but the sending side of stream id differs. */
  ghost predicate OnlySender(c: Conn, c': Conn, id: nat) {
    match (c, c')
    case (c, c') =>
      && Elsewhere(c, c', id) && c'.mapped == c.mapped && c'.receiving == c.receiving && c'.slots == c.slots && c'.shut == c.shut
      && (id in c.streams ==> c'.streams[id].life == c.streams[id].life && c'.streams[id].into == c.streams[id].into)
  }

  lemma Crediting(c: Conn, id: nat, inc: nat) returns (r: Conn)
    requires Wf(c) && id in c.streams && inc > 0 && c.streams[id].out.window + inc <= Window.MAX
    ensures r == StreamUpdate(c, id, inc) && OnlySender(c, r, id) && r.sending == c.sending
    ensures r.streams[id].out.window == c.streams[id].out.window + inc
    ensures r.streams[id].out.credit == c.streams[id].out.credit + inc && r.streams[id].out.sent == c.streams[id].out.sent
  {
    r := StreamUpdate(c, id, inc);
  }

  lemma NobodySleeps(c: Conn, e: Event, r: Conn, id: nat)
    requires Invariant(c) && Enabled(c, e) && r == Step(c, e) && id in r.streams
    requires r.streams[id].out.window > 0 && r.sending.window > 0
    ensures !r.streams[id].out.parked
  {
    StepKeepsInvariant(c, e);
    if r.streams[id].out.parked {
      SleepersMustWait(r, id);
    }
  }

  /** Sections 6.9 and 6.9.1 of RFC 9113 for a stream: its window grows by the increment and
      nothing else does, and its sender does not sleep if both windows are then open. */
  lemma StreamIsCredited(c: Conn, id: nat, inc: nat, pending: bool)
    requires Invariant(c) && id in c.mapped && inc > 0 && c.streams[id].out.window + inc <= Window.MAX
    ensures var r := Step(c, UpdateReceived(id, inc, pending));
            && OnlySender(c, r, id) && r.sending == c.sending
            && r.streams[id].out.window == c.streams[id].out.window + inc
            && r.streams[id].out.credit == c.streams[id].out.credit + inc
            && r.streams[id].out.sent == c.streams[id].out.sent
            && (r.streams[id].out.window > 0 && r.sending.window > 0 ==> !r.streams[id].out.parked)
  {
    var r := Crediting(c, id, inc);
    assert r == Step(c, UpdateReceived(id, inc, pending));
    if r.streams[id].out.window > 0 && r.sending.window > 0 {
      NobodySleeps(c, UpdateReceived(id, inc, pending), r, id);
    }
  }

  /** An increment of zero, or one that takes the window beyond 31 bits, fails the stream. */
  lemma StreamCreditRefused(c: Conn, id: nat, inc: nat, pending: bool)
    requires Wf(c) && ValidConfig(c.cfg) && Lifecycle(c) && id in c.mapped && (inc == 0 || c.streams[id].out.window + inc > Window.MAX)
    ensures BreaksStream(c, Step(c, UpdateReceived(id, inc, pending)), id)
  {
    var r := StreamBroken(c, id);
  }

  /** No stream differs but in who sleeps. */
  ghost predicate SameButSleepers(c: Conn, c': Conn) {
    match (c, c')
    case (c, c') =>
      && c'.cfg == c.cfg && c'.ids == c.ids && c'.mapped == c.mapped && c'.receiving == c.receiving
      && c'.slots == c.slots && c'.shut == c.shut && c'.streams.Keys == c.streams.Keys
      && forall id :: id in c.streams ==>
           && c'.streams[id].life == c.streams[id].life && c'.streams[id].into == c.streams[id].into
           && c'.streams[id].out.window == c.streams[id].out.window && SameLedger(c.streams[id].out, c'.streams[id].out)
  }

  lemma CreditingConnection(c: Conn, inc: nat) returns (r: Conn)
    requires Wf(c) && inc > 0 && c.sending.window + inc <= Window.MAX
    ensures Some(r) == ConnectionUpdate(c, inc) && SameButSleepers(c, r)
    ensures r.sending == c.sending.(window := c.sending.window + inc, credit := c.sending.credit + inc)
  {
    r := ConnectionUpdate(c, inc).value;
  }

  /** The same for the connection; streams keep their own windows, and whoever has one that
      is open does not sleep. */
  lemma ConnectionIsCredited(c: Conn, inc: nat, pending: bool)
    requires Invariant(c) && inc > 0 && c.sending.window + inc <= Window.MAX
    ensures var r := Step(c, UpdateReceived(0, inc, pending));
            && SameButSleepers(c, r)
            && r.sending == c.sending.(window := c.sending.window + inc, credit := c.sending.credit + inc)
            && forall id :: id in r.streams && r.streams[id].out.window > 0 ==> !r.streams[id].out.parked
  {
    var r := CreditingConnection(c, inc);
    assert r == Step(c, UpdateReceived(0, inc, pending));
    forall id | id in r.streams && r.streams[id].out.window > 0
      ensures !r.streams[id].out.parked
    {
      assert c.sending.window >= 0;
      NobodySleeps(c, UpdateReceived(0, inc, pending), r, id);
    }
  }

  lemma ConnectionCreditRefused(c: Conn, inc: nat, pending: bool)
    requires Wf(c) && ValidConfig(c.cfg) && (inc == 0 || c.sending.window + inc > Window.MAX)
    ensures Breaks(c, Step(c, UpdateReceived(0, inc, pending)))
  {
    var r := Broken(c);
  }

  /** For a stream that is not in the map the frame is ignored, unless ids are checked and
      this one was never used. */
  lemma UpdateOfUnknown(c: Conn, id: nat, inc: nat, pending: bool)
    requires Wf(c) && ValidConfig(c.cfg) && id != 0 && id !in c.mapped
    ensures var r := Step(c, UpdateReceived(id, inc, pending));
            var used := if (id % 2 == 1) == c.cfg.server then id <= c.ids.last else id < c.ids.next;
            if pending || used || !c.cfg.strict then r == c else Breaks(c, r)
  {
    var r := Broken(c);
  }

  // ----- GOAWAY ------------------------------------------------------------------------------

  lemma GoingAway(c: Conn, last: nat, order: seq<nat>) returns (r: Conn)
    requires Wf(c) && (forall i :: 0 <= i < |order| ==> order[i] in c.streams)
    ensures r == RecvGoAway(c, last, order) && Fails(c, r, Among(order))
    ensures r.shut == c.shut.(goAway := Some(last), disconnecting := true, closed := r.shut.closed) && r.slots.parked == {}
  {
    var c' := c.(shut := c.shut.(goAway := Some(last)));
    var c'' := FailsEach(c', order);
    r := Disconnects(c'');
  }

  lemma Disconnects(c: Conn) returns (r: Conn)
    requires Wf(c)
    ensures r == DisconnectWhenReady(c) && Fails(c, r, {}) && r == c.(slots := r.slots, shut := r.shut)
    ensures r.shut == c.shut.(disconnecting := true, closed := r.shut.closed) && r.slots == ClearWaiters(c.slots)
  {
    r := DisconnectWhenReady(c);
  }

  /** Section 6.8 of RFC 9113: the streams up to the last one that the peer has processed go
      on as they are, the later ones have failed; a server has opened none. */
  ghost predicate WentAway(c: Conn, r: Conn, last: nat) {
    match (c, r)
    case (c, r) =>
      && (forall id :: id in r.mapped <==> id in c.mapped && (c.cfg.server || id <= last))
      && r.streams.Keys == c.streams.Keys
      && (forall id :: id in c.streams && !(id in c.mapped && id !in r.mapped) ==> r.streams[id] == c.streams[id])
      && (forall id :: id in c.streams && id in c.mapped && id !in r.mapped ==> HasFailed(c.streams[id], r.streams[id]))
      && r.sending == c.sending && r.receiving == c.receiving && r.ids == c.ids
      && r.shut == c.shut.(goAway := Some(last), disconnecting := true, closed := r.shut.closed) && r.slots.parked == {}
  }

  lemma ProcessedStreamsSurvive(c: Conn, last: nat, order: seq<nat>)
    requires Wf(c) && ValidConfig(c.cfg) && Enabled(c, GoAwayReceived(last, order))
    ensures WentAway(c, Step(c, GoAwayReceived(last, order)), last)
  {
    var r := GoingAway(c, last, order);
    assert Among(order) == Unprocessed(c, last);
  }

  // ----- RST_STREAM and frames that are invalid -----------------------------------------------

  /** RST_STREAM closes a stream of the map on both halves with an error, and is ignored for
      any other; on stream 0 it ends the connection. */
  lemma ResetCloses(c: Conn, id: nat)
    requires Wf(c) && ValidConfig(c.cfg)
    ensures var r := Step(c, ResetReceived(id));
            if id == 0 then Breaks(c, r) else if id in c.mapped then BreaksStream(c, r, id) else r == c
  {
    var r := Broken(c);
    if id in c.mapped {
      var r' := FailsOne(c, id);
    }
  }

  /** A malformed frame fails its stream; a header section that no stream can have ends the
      connection, and one on a new stream uses up the id. */
  lemma InvalidFails(c: Conn, id: nat, headers: bool)
    requires Wf(c) && ValidConfig(c.cfg) && Lifecycle(c)
    ensures var r := Step(c, InvalidReceived(id, headers));
            if id in c.mapped then BreaksStream(c, r, id)
            else if headers && (id % 2 == 0 || (c.cfg.server && id <= c.ids.last)) then Breaks(c, r)
            else SameStreams(c, r) && r == c.(ids := Ids(c.ids.next, if headers && c.cfg.server then id else c.ids.last))
  {
    var r := Broken(c);
    if id in c.mapped {
      var r' := StreamBroken(c, id);
    }
  }

  // ----- failures ----------------------------------------------------------------------------

  lemma FailuresFail(c: Conn)
    requires Invariant(c)
    ensures Breaks(c, Step(c, ProtocolError))
    ensures var r := Step(c, CloseForced);
            SameStreams(c, r) && r.shut == c.shut.(forced := true, closed := true)
  {
    var r := Broken(c);
  }

  lemma AbortFails(c: Conn, close: bool)
    requires Invariant(c)
    ensures var r := Step(c, Aborted(close));
            Fails(c, r, c.mapped) && r.shut == c.shut.(error := true, forced := true, closed := c.shut.closed || close)
  {
    var r := Broken(c);
  }

  // ----- SETTINGS ----------------------------------------------------------------------------

  /** Streams may differ, but are the same ones in the same map. */
  ghost predicate SameButStreams(c: Conn, c': Conn) {
    match (c, c')
    case (c, c') => Wf(c') && c' == c.(streams := c'.streams) && c'.streams.Keys == c.streams.Keys
  }

  /** The send windows of the streams ids have moved by upd. */
  ghost predicate Shifted(c: Conn, c': Conn, ids: set<nat>, upd: int) {
    match (c, c')
    case (c, c') =>
      && c'.streams.Keys == c.streams.Keys
      && (forall id :: id in c.streams && id !in ids ==> c'.streams[id] == c.streams[id])
      && (forall id :: id in c.streams && id in ids ==> ShiftedStream(c.streams[id], c'.streams[id], upd))
  }

  predicate ShiftedStream(s: Stream, s': Stream, upd: int) {
    && s'.life == s.life && s'.into == s.into && SameLedger(s.out, s'.out)
    && s'.out.window == s.out.window + upd
  }

  /** The window of every stream of ids can move by upd within 32 bits. */
  ghost predicate CanShift(c: Conn, ids: set<nat>, upd: int) {
    forall id :: id in c.streams && id in ids ==> Window.Fits(c.streams[id].out.window + upd)
  }

  lemma ShiftsOne(c: Conn, id: nat, upd: int) returns (r: Conn)
    requires Wf(c) && id in c.streams
    ensures r == Adjust(c, id, upd) && SameButStreams(c, r) && Shifted(c, r, {id}, upd)
  {
    r := Adjust(c, id, upd);
  }

  lemma ShiftsFirst(c: Conn, c': Conn, r: Conn, id: nat, ids: set<nat>, upd: int)
    requires Wf(c) && id !in ids && Shifted(c, c', {id}, upd) && Shifted(c', r, ids, upd)
    ensures Shifted(c, r, {id} + ids, upd)
  {
  }

  lemma CanShiftFirst(c: Conn, c': Conn, id: nat, ids: set<nat>, upd: int)
    requires Wf(c) && id in c.streams && id !in ids && Shifted(c, c', {id}, upd) && Window.Fits(c.streams[id].out.window + upd)
    ensures CanShift(c, {id} + ids, upd) <==> CanShift(c', ids, upd)
  {
    forall j | j in c.streams && j in ids
      ensures c'.streams[j] == c.streams[j]
    {
    }
  }

  lemma {:induction false} ShiftsAll(c: Conn, order: seq<nat>, upd: int) returns (r: Conn, fine: bool)
    requires Wf(c) && (forall i :: 0 <= i < |order| ==> order[i] in c.streams)
    requires forall i, j :: 0 <= i < j < |order| ==> order[i] != order[j]
    ensures (r, fine) == AdjustAll(c, order, upd) && (fine <==> CanShift(c, Among(order), upd))
    ensures SameButStreams(c, r) && (fine ==> Shifted(c, r, Among(order), upd))
    decreases |order|
  {
    if |order| == 0 {
      r, fine := c, true;
    } else {
      AmongFirst(order);
      if Window.Fits(c.streams[order[0]].out.window + upd) {
        var c' := ShiftsOne(c, order[0], upd);
        assert order[0] !in Among(order[1..]);
        r, fine := ShiftsAll(c', order[1..], upd);
        CanShiftFirst(c, c', order[0], Among(order[1..]), upd);
        if fine {
          ShiftsFirst(c, c', r, order[0], Among(order[1..]), upd);
        }
      } else {
        assert order[0] in Among(order);
        r, fine := c, false;
      }
    }
  }

  /** The peer's limit is taken over, the first SETTINGS frame lifts the default if it has
      none; and nobody who slept for a slot under another limit goes on sleeping. */
  ghost predicate Limited(c: Conn, r: Conn, max: Option<nat>) {
    match (c, r)
    case (c, r) =>
      && r.remoteSettings && r.slots.max == (if max.None? && c.remoteSettings then c.slots.max else max)
      && (max.Some? || !c.remoteSettings ==> r.slots.parked == {})
  }

  lemma Limiting(c: Conn, max: Option<nat>) returns (r: Conn)
    requires Wf(c)
    ensures r == LimitStreams(c, max) && SameStreams(c, r) && r.sending == c.sending && r.receiving == c.receiving
    ensures r.ids == c.ids && r.shut == c.shut && r.slots.local == c.slots.local && r.slots.remote == c.slots.remote
    ensures Limited(c, r, max) && (r.slots.parked == {} || r.slots.parked == c.slots.parked)
  {
    r := LimitStreams(c, max);
  }

  /** Without an initial window size no window moves. */
  lemma SettingsLimit(c: Conn, max: Option<nat>, order: seq<nat>)
    requires Invariant(c) && Enabled(c, SettingsReceived(max, None, order))
    ensures var r := Step(c, SettingsReceived(max, None, order));
            Limited(c, r, max) && SameStreams(c, r) && r.sending == c.sending && r.receiving == c.receiving
            && r.ids == c.ids && r.shut == c.shut
  {
    var r := Limiting(c, max);
  }

  lemma ChangesInitial(c: Conn, val: nat, order: seq<nat>) returns (r: Conn, fine: bool)
    requires Wf(c) && Lists(order, c.mapped) && forall id :: id in c.mapped ==> Window.Fits(c.streams[id].out.window)
    ensures (r, fine) == ChangeInitial(c, val, order) && Wf(r) && r.streams.Keys == c.streams.Keys
    ensures r == c.(streams := r.streams, sending := c.sending.(initial := val))
    ensures fine <==> CanShift(c, c.mapped, val - c.sending.initial)
    ensures fine ==> Shifted(c, r, c.mapped, val - c.sending.initial)
  {
    var c' := SetInitial(c, val);
    if val == c.sending.initial {
      r, fine := c', true;
    } else {
      assert Among(order) == c.mapped;
      r, fine := ShiftsAll(c', order, val - c.sending.initial);
    }
  }

  lemma WindowsFit(c: Conn)
    requires Invariant(c)
    ensures forall id :: id in c.mapped ==> Window.Fits(c.streams[id].out.window)
  {
    forall id | id in c.mapped
      ensures LedgerOk(c.streams[id].out, c.sending.initial)
    {
    }
  }

  /** The windows of all streams move by the difference, those of closed streams and of the
      connection do not; if one cannot, every stream fails. */
  ghost predicate NewInitial(c: Conn, r: Conn, val: nat) {
    match (c, r)
    case (c, r) =>
      && r.sending == c.sending.(initial := val) && r.streams.Keys == c.streams.Keys
      && if CanShift(c, c.mapped, val - c.sending.initial)
         then r.mapped == c.mapped && r.shut == c.shut && Shifted(c, r, c.mapped, val - c.sending.initial)
         else r.mapped == {} && r.shut == c.shut.(error := true) && forall id :: id in c.mapped && id in c.streams ==> BothClosed(r.streams[id].life)
  }

  lemma NewSettings(c: Conn, max: Option<nat>, val: nat, order: seq<nat>) returns (r: Conn)
    requires Wf(c) && Lists(order, c.mapped) && forall id :: id in c.mapped ==> Window.Fits(c.streams[id].out.window)
    ensures r == RecvSettings(c, max, Some(val), order) && Limited(c, r, max) && NewInitial(c, r, val)
  {
    var c' := Limiting(c, max);
    var c'', fine := ChangesInitial(c', val, order);
    if fine {
      r := c'';
    } else {
      r := FailsAll(c'');
    }
  }

  /** Section 6.9.2 of RFC 9113, with the limit on streams. */
  lemma SettingsShiftWindows(c: Conn, max: Option<nat>, val: nat, order: seq<nat>)
    requires Invariant(c) && Enabled(c, SettingsReceived(max, Some(val), order))
    ensures var r := Step(c, SettingsReceived(max, Some(val), order));
            Limited(c, r, max) && NewInitial(c, r, val)
  {
    WindowsFit(c);
    var r := NewSettings(c, max, val, order);
  }

  // ----- opening streams -----------------------------------------------------------------------

  /** A client's next stream: its own window is the peer's initial size. */
  ghost predicate Opened(c: Conn, r: Conn, eof: bool, head: bool) {
    match (c, r)
    case (c, r) =>
      var id := c.ids.next;
      && id !in c.streams && id in r.streams && r.streams == c.streams[id := r.streams[id]] && r.mapped == c.mapped + {id}
      && r.cfg == c.cfg && r.sending == c.sending && r.receiving == c.receiving && r.shut == c.shut && r.ids == Ids(id + 2, c.ids.last)
      && r.streams[id].life == Life(Idle, if eof then Closed else Payload, false)
      && r.streams[id].out == Out(c.sending.initial, false, false, false, false, 0, 0)
      && r.streams[id].into == In(if c.receiving.acked then c.cfg.window else Window.DEFAULT, 0,
                                  if head then Head else Omitted, !c.receiving.acked)
  }

  lemma OpensNext(c: Conn, eof: bool, head: bool) returns (r: Conn)
    requires Wf(c) && !c.cfg.server && c.shut.goAway.None?
    ensures r == OpenNext(c, eof, head) && Opened(c, r, eof, head) && r.slots == c.slots
  {
    var c' := c.(ids := c.ids.(next := c.ids.next + 2));
    var c'' := Insert(c', c.ids.next, head);
    if eof {
      r := Shuts(c'', c.ids.next, false, true, false);
    } else {
      r := SendHeaders(c'', c.ids.next, eof);
    }
  }

  /** Asking for a stream: a connection that shuts down refuses; below the peer's limit the
      stream is opened and counted, unless its headers do not fit or the ids are used up;
      at the limit the caller sleeps at the end of the queue. */
  ghost predicate Asked(c: Conn, r: Conn, eof: bool, fits: bool, head: bool) {
    match (c, r)
    case (c, r) =>
      if c.shut.error || c.shut.goAway.Some? || c.shut.disconnecting then r == c
      else if c.slots.max.Some? && c.slots.local >= c.slots.max.value then
        r == c.(slots := r.slots) && LastInQueue(c.slots, r.slots)
      else if fits && c.ids.next + 2 <= MAX_ID then
        Opened(c, r, eof, head) && r.slots == c.slots.(local := c.slots.local + 1)
      else
        r == c.(slots := r.slots) && r.slots.local == c.slots.local && r.slots.reserved == c.slots.reserved
  }

  ghost predicate LastInQueue(s: Slots, s': Slots) {
    && s'.local == s.local && s'.reserved == s.reserved && s'.max == s.max && s'.notified == s.notified
    && |s'.queue| == |s.queue| + 1 && s.queue <= s'.queue
    && var w := s'.queue[|s.queue|]; w !in s.parked && w !in s.notified && s'.parked == s.parked + {w}
  }

  lemma Asks(c: Conn, eof: bool, fits: bool, head: bool) returns (r: Conn)
    requires Wf(c) && !c.cfg.server && SlotsOrdered(c.slots)
    ensures r == SendRequest(c, eof, fits, head) && Asked(c, r, eof, fits, head)
  {
    r := SendRequest(c, eof, fits, head);
    if !Refuses(c) && CanCreate(c.slots) {
      var c' := CountOne(c);
      if fits && c.ids.next + 2 <= MAX_ID {
        r := OpensNext(c', eof, head);
      } else {
        ReleasingLocal(c'.slots);
      }
    }
  }

  lemma RequestAsks(c: Conn, eof: bool, fits: bool, head: bool)
    requires Invariant(c) && Enabled(c, RequestSent(eof, fits, head))
    ensures Asked(c, Step(c, RequestSent(eof, fits, head)), eof, fits, head)
  {
    var r := Asks(c, eof, fits, head);
  }

  /** A waiter that was woken looks again, like a new request. */
  lemma WaiterAsks(c: Conn, w: nat, eof: bool, fits: bool, head: bool)
    requires Invariant(c) && Enabled(c, WaiterRuns(w, eof, fits, head))
    ensures Asked(c.(slots := c.slots.(notified := c.slots.notified - {w})), Step(c, WaiterRuns(w, eof, fits, head)), eof, fits, head)
  {
    var r := Asks(c.(slots := c.slots.(notified := c.slots.notified - {w})), eof, fits, head);
  }

  /** A reservation is used up by the stream it opens, which it has been counted for. */
  lemma ReservationOpens(c: Conn, eof: bool, fits: bool, head: bool)
    requires Invariant(c) && Enabled(c, ReservedSent(eof, fits, head))
    ensures var r := Step(c, ReservedSent(eof, fits, head));
            if !c.shut.error && !c.shut.closed && c.shut.goAway.None? && fits && c.ids.next + 2 <= MAX_ID
            then Opened(c, r, eof, head) && r.slots == c.slots.(reserved := c.slots.reserved - 1)
            else r == c
  {
    if c.shut.goAway.None? {
      var r := OpensNext(c, eof, head);
    }
  }

  /** A slot is reserved where a request would get one at once. */
  lemma Reserves(c: Conn)
    requires Invariant(c) && Enabled(c, StreamReserved)
    ensures var r := Step(c, StreamReserved);
            if c.shut.error || c.shut.goAway.Some? || c.shut.disconnecting || (c.slots.max.Some? && c.slots.local >= c.slots.max.value)
            then r == c
            else r == c.(slots := c.slots.(local := c.slots.local + 1, reserved := c.slots.reserved + 1))
  {
  }

  lemma ReservationIsReleased(c: Conn)
    requires Invariant(c) && Enabled(c, ReservationReleased)
    ensures var r := Step(c, ReservationReleased);
            && r == c.(slots := r.slots, shut := c.shut.(closed := r.shut.closed))
            && r.slots.reserved == c.slots.reserved - 1 && r.slots.local == c.slots.local - 1
  {
    ReleasingLocal(c.slots.(reserved := c.slots.reserved - 1));
  }

  lemma ShutdownStarts(c: Conn)
    requires Invariant(c)
    ensures var r := Step(c, ShutdownStarted);
            && r == c.(slots := r.slots, shut := c.shut.(disconnecting := true, closed := r.shut.closed))
            && r.slots.parked == {} && r.slots.local == c.slots.local && r.slots.reserved == c.slots.reserved
  {
    var r := Disconnects(c);
  }

  // ----- the sender ----------------------------------------------------------------------------

  /** The sending half becomes half; a stream that is closed on both halves leaves the map. */
  ghost predicate SendHalf(c: Conn, r: Conn, id: nat, half: Half) {
    match (c, r)
    case (c, r) =>
      && id in c.streams && Elsewhere(c, r, id) && r.sending == c.sending && r.receiving == c.receiving
      && r.streams[id].life == c.streams[id].life.(send := half) && r.streams[id].into == c.streams[id].into
      && r.streams[id].out.window == c.streams[id].out.window && SameLedger(c.streams[id].out, r.streams[id].out)
      && (id in r.mapped <==> id in c.mapped && !(half == Closed && c.streams[id].life.recv == Closed))
      && (half == Closed ==> !r.streams[id].out.parked)
  }

  lemma ClosesSending(c: Conn, id: nat) returns (r: Conn)
    requires Lifecycle(c) && Sends(c) && id in c.streams
    ensures r == Shut(c, id, false, true, false) && SendHalf(c, r, id, Closed)
  {
    r := Shuts(c, id, false, true, false);
  }

  /** Response headers open the payload, or close the half with END_STREAM; they are sent
      once and only on a stream that has not failed. */
  lemma ResponseIsSent(c: Conn, id: nat, eof: bool, fits: bool)
    requires Wf(c) && ValidConfig(c.cfg) && Lifecycle(c) && Sends(c) && id in c.streams
    ensures var r := Step(c, ResponseSent(id, eof, fits));
            if c.streams[id].life.send == Idle && !c.streams[id].life.error && fits
            then SendHalf(c, r, id, if eof then Closed else Payload)
            else r == c
  {
    var r := ClosesSending(c, id);
  }

  /** Trailers close the half that was sending its payload. */
  lemma TrailersAreSent(c: Conn, id: nat, fits: bool)
    requires Invariant(c) && id in c.streams
    ensures var r := Step(c, TrailersSent(id, fits));
            if c.streams[id].life.send == Payload && fits then SendHalf(c, r, id, Closed) else r == c
    ensures var r := Step(c, EmptySent(id));
            if c.streams[id].life.send == Payload && !c.streams[id].life.error then SendHalf(c, r, id, Closed) else r == c
  {
    var r := ClosesSending(c, id);
  }

  /** What a task finds that asks for capacity: it must wait where neither an error nor a
      closed half nor open windows give it an answer. */
  ghost predicate NoAnswer(c: Conn, id: nat) {
    match c
    case c =>
      && id in c.streams && !c.streams[id].life.error && !c.shut.error && c.streams[id].life.send != Closed
      && (c.streams[id].out.window <= 0 || c.sending.window <= 0)
  }

  lemma CapacityIsPolled(c: Conn, id: nat)
    requires Wf(c) && ValidConfig(c.cfg) && id in c.streams
    ensures var r := Step(c, CapacityPolled(id));
            && OnlySender(c, r, id) && r.sending == c.sending
            && r.streams[id].out.window == c.streams[id].out.window && SameLedger(c.streams[id].out, r.streams[id].out)
            && (r.streams[id].out.parked <==> NoAnswer(c, id)) && (r.streams[id].out.waits <==> NoAnswer(c, id))
            && (r.streams[id].out.timer <==> NoAnswer(c, id) && (c.cfg.timed || c.streams[id].out.timer))
            && (NoAnswer(c, id) ==> r.streams[id].out.waker)
  {
  }

  lemma CapacityIsCancelled(c: Conn, id: nat)
    requires Invariant(c) && id in c.streams
    ensures var r := Step(c, CapacityCancelled(id));
            && OnlySender(c, r, id) && r.sending == c.sending
            && r.streams[id].out == c.streams[id].out.(waits := false, timer := false, parked := false)
  {
  }

  ghost predicate StillWaits(c: Conn, id: nat) {
    match c
    case c =>
      && id in c.mapped && id in c.streams && c.streams[id].out.waits && c.streams[id].life.send != Closed
      && (c.streams[id].out.window <= 0 || c.sending.window <= 0)
  }

  /** A stream that is still waiting for capacity fails, any other loses its timer. */
  ghost predicate TimedOut(c: Conn, r: Conn, id: nat) {
    match (c, r)
    case (c, r) =>
      if StillWaits(c, id) then BreaksStream(c, r, id)
      else
        && id in c.streams && OnlySender(c, r, id) && r.sending == c.sending
        && r.streams[id].out == c.streams[id].out.(timer := false)
  }

  lemma Untimed(c: Conn, id: nat) returns (r: Conn)
    requires Lifecycle(c) && id in c.streams
    ensures r == SetStream(c, id, c.streams[id].(out := c.streams[id].out.(timer := false))) && Lifecycle(r)
    ensures OnlySender(c, r, id) && r.sending == c.sending && r.streams[id].out == c.streams[id].out.(timer := false)
    ensures r.remoteSettings == c.remoteSettings
  {
    var s' := c.streams[id].(out := c.streams[id].out.(timer := false));
    r := SetStream(c, id, s');
    SettingSameLife(c, id, s');
    SameLifeKeeps(c, r);
  }

  lemma BreaksAfter(c: Conn, c': Conn, r: Conn, id: nat)
    requires id in c.streams && OnlySender(c, c', id) && c'.sending == c.sending && c'.remoteSettings == c.remoteSettings
    requires c'.streams[id].out == c.streams[id].out.(timer := false) && BreaksStream(c', r, id)
    ensures BreaksStream(c, r, id)
  {
  }

  lemma TimesOut(c: Conn, id: nat) returns (r: Conn)
    requires Lifecycle(c) && id in c.streams
    ensures r == CapacityTimeout(c, id) && TimedOut(c, r, id)
  {
    r := Untimed(c, id);
    if StillWaits(c, id) {
      var c' := r;
      r := StreamBroken(c', id);
      BreaksAfter(c, c', r, id);
    }
  }

  lemma CapacityTimesOut(c: Conn, id: nat)
    requires Wf(c) && ValidConfig(c.cfg) && Lifecycle(c) && id in c.streams
    ensures TimedOut(c, Step(c, CapacityTimedOut(id)), id)
  {
    var r := TimesOut(c, id);
  }

  lemma StreamIsReset(c: Conn, id: nat)
    requires Wf(c) && ValidConfig(c.cfg) && Lifecycle(c) && id in c.streams
    ensures var r := Step(c, StreamReset(id));
            if id in c.mapped then BreaksStream(c, r, id) else r == c
  {
    if id in c.mapped {
      var r := StreamBroken(c, id);
    }
  }

  // ----- DATA frames sent ------------------------------------------------------------------------

  /** size octets have left: both windows and both ledgers pay. */
  ghost predicate Paid(c: Conn, r: Conn, id: nat, size: nat) {
    match (c, r)
    case (c, r) =>
      && id in c.streams && Elsewhere(c, r, id) && r.receiving == c.receiving && r.streams[id].into == c.streams[id].into
      && r.sending == c.sending.(window := c.sending.window - size, sent := c.sending.sent + size)
      && r.streams[id].out.window == c.streams[id].out.window - size
      && r.streams[id].out.sent == c.streams[id].out.sent + size && r.streams[id].out.credit == c.streams[id].out.credit
      && r.streams[id].life.recv == c.streams[id].life.recv && r.streams[id].life.error == c.streams[id].life.error
  }

  /** Payload can leave: the half is open for it, there is some, and so are both windows. */
  predicate CanSend(c: Conn, id: nat, len: nat)
    requires id in c.streams
  {
    && c.streams[id].life.send == Payload && !c.streams[id].life.error && len > 0
    && c.streams[id].out.window > 0 && c.sending.window > 0
  }

  lemma Paying(c: Conn, id: nat, size: nat) returns (r: Conn)
    requires Wf(c) && id in c.streams && size <= c.streams[id].out.window && size <= c.sending.window
    ensures r == Charge(c, id, size) && Paid(c, r, id, size) && r.mapped == c.mapped && r.streams[id].life == c.streams[id].life
  {
    r := Charge(c, id, size);
  }

  /** The frame is as long as the windows, the data and the frame size allow, and the half
      closes with the last octet if END_STREAM goes with it. */
  ghost predicate ChunkLeft(c: Conn, r: Conn, id: nat, len: nat, frame: nat, eof: bool, size: nat) {
    match (c, r)
    case (c, r) =>
      && Paid(c, r, id, size)
      && 0 < size <= len && size <= frame && size <= c.streams[id].out.window && size <= c.sending.window
      && (size == len || size == frame || size == c.streams[id].out.window || size == c.sending.window)
      && r.streams[id].life.send == (if eof && size == len then Closed else Payload)
      && (id in r.mapped <==> id in c.mapped && !(eof && size == len && c.streams[id].life.recv == Closed))
  }

  lemma ChunkLeaves(c: Conn, id: nat, len: nat, frame: nat, eof: bool) returns (r: Conn, size: nat)
    requires Wf(c) && id in c.streams && frame > 0 && CanSend(c, id, len)
    ensures r == SendChunk(c, id, len, frame, eof) && ChunkLeft(c, r, id, len, frame, eof, size)
  {
    size := Min3(Available(c, id), len, frame);
    if eof && size == len {
      var c' := Shuts(c, id, false, true, false);
      r := Paying(c', id, size);
    } else {
      r := Paying(c, id, size);
    }
  }

  /** One turn of the sender; size is what it wrote. */
  lemma ChunkIsSent(c: Conn, id: nat, len: nat, frame: nat, eof: bool) returns (size: nat)
    requires Invariant(c) && Enabled(c, ChunkSent(id, len, frame, eof))
    ensures var r := Step(c, ChunkSent(id, len, frame, eof));
            if CanSend(c, id, len) then ChunkLeft(c, r, id, len, frame, eof, size) else r == c && size == 0
  {
    size := 0;
    if CanSend(c, id, len) {
      var r;
      r, size := ChunkLeaves(c, id, len, frame, eof);
    }
  }

  // ----- capacity that is held ---------------------------------------------------------------------

  /** n octets of token t are consumed: the token shrinks, and its stream and the connection
      may announce what that makes room for; no other stream and nothing else changes. */
  ghost predicate GivenBack(c: Conn, r: Conn, t: nat, n: nat) {
    match (c, r)
    case (c, r) =>
      && t < |c.receiving.tokens| && n <= c.receiving.tokens[t].size && c.cfg.threshold >= 0 && c.cfg.conThreshold >= 0
      && var id, size := c.receiving.tokens[t].stream, c.receiving.size - n;
         && id in c.streams && Elsewhere(c, r, id) && r.mapped == c.mapped && r.sending == c.sending
         && r.slots == c.slots && r.shut == c.shut
         && r.streams[id].life == c.streams[id].life && r.streams[id].out == c.streams[id].out
         && r.streams[id].into == c.streams[id].into.(size := r.streams[id].into.size, window := r.streams[id].into.window)
         && r.streams[id].into.size == c.streams[id].into.size - n
         && r.streams[id].into.window ==
              (if c.streams[id].life.recv == Closed then c.streams[id].into.window
               else Window.Update(c.streams[id].into.window, c.streams[id].into.size - n, c.cfg.window, c.cfg.threshold).0)
         && r.receiving.tokens == c.receiving.tokens[t := Token(id, c.receiving.tokens[t].size - n)]
         && r.receiving.size == size && r.receiving.accepted == c.receiving.accepted && r.receiving.acked == c.receiving.acked
         && r.receiving.window == Window.Update(c.receiving.window, size, c.cfg.conWindow, c.cfg.conThreshold).0
         && r.receiving.granted - c.receiving.granted == r.receiving.window - c.receiving.window
  }

  lemma GivesBack(c: Conn, t: nat, n: nat) returns (r: Conn)
    requires Wf(c) && ValidConfig(c.cfg) && t < |c.receiving.tokens| && n <= c.receiving.tokens[t].size
    ensures r == ConsumeToken(c, t, n) && GivenBack(c, r, t, n)
  {
    r := ConsumeToken(c, t, n);
  }

  lemma CapacityIsConsumed(c: Conn, t: nat, n: nat)
    requires Invariant(c) && Enabled(c, CapacityConsumed(t, n))
    ensures GivenBack(c, Step(c, CapacityConsumed(t, n)), t, n)
  {
    var r := GivesBack(c, t, n);
  }

  /** Whoever drops what is held consumes all of it. */
  lemma CapacityIsDropped(c: Conn, t: nat)
    requires Invariant(c) && Enabled(c, CapacityDropped(t))
    ensures var r := Step(c, CapacityDropped(t));
            if c.receiving.tokens[t].size > 0 then GivenBack(c, r, t, c.receiving.tokens[t].size) else r == c
  {
    var r := GivesBack(c, t, c.receiving.tokens[t].size);
  }

  /** Of two tokens of one stream the first takes over what the second holds. */
  lemma CapacityIsMerged(c: Conn, a: nat, b: nat)
    requires Invariant(c) && Enabled(c, CapacityMerged(a, b))
    ensures var r, ts := Step(c, CapacityMerged(a, b)), c.receiving.tokens;
            && r == c.(receiving := c.receiving.(tokens := r.receiving.tokens)) && |r.receiving.tokens| == |ts|
            && r.receiving.tokens[a] == Token(ts[a].stream, ts[a].size + ts[b].size)
            && r.receiving.tokens[b] == Token(ts[a].stream, 0)
            && forall k :: 0 <= k < |ts| && k != a && k != b ==> r.receiving.tokens[k] == ts[k]
  {
  }

  // ----- the acknowledgment ------------------------------------------------------------------------

  /** The window of s moves by delta, and may be topped up. */
  predicate Moved(s: Stream, s': Stream, delta: int, cfg: Config)
    requires cfg.threshold >= 0
  {
    s' == s.(into := s.into.(window := Window.Update(s.into.window + delta, s.into.size, cfg.window, cfg.threshold).0))
  }

  /** The configured window is in force for every stream whose receiving half is open; where
      the difference takes a window out of 32 bits, the stream fails. */
  ghost predicate InForce(c: Conn, r: Conn) {
    match (c, r)
    case (c, r) =>
      && r.receiving == c.receiving.(acked := true) && r.sending == c.sending && r.ids == c.ids
      && r.streams.Keys == c.streams.Keys && c.cfg.threshold >= 0 && c.mapped <= c.streams.Keys
      && var delta := c.cfg.window - Window.DEFAULT;
         && (forall id :: id in c.streams && (id !in c.mapped || c.streams[id].life.recv == Closed || delta == 0) ==>
               r.streams[id] == c.streams[id] && (id in r.mapped <==> id in c.mapped))
         && (forall id :: id in c.streams && id in c.mapped && c.streams[id].life.recv != Closed && delta != 0 ==>
               if Window.Fits(c.streams[id].into.window + delta)
               then Moved(c.streams[id], r.streams[id], delta, c.cfg) && id in r.mapped
               else HasFailed(c.streams[id], r.streams[id]) && id !in r.mapped)
  }

  lemma Acknowledges(c: Conn, order: seq<nat>) returns (r: Conn)
    requires Wf(c) && c.cfg.threshold >= 0 && !c.receiving.acked && Lists(order, AckFailures(c))
    requires forall i :: 0 <= i < |order| ==> order[i] in c.streams
    ensures r == RecvAck(c, order) && InForce(c, r)
  {
    r := FailsEach(AckAll(c), order);
    assert Among(order) == AckFailures(c);
    AckFailuresAre(c);
    var c' := AcksAll(c);
    InForceAfter(c, c', r, AckFailures(c));
  }

  predicate Overflows(s: Stream, cfg: Config) {
    s.life.recv != Closed && cfg.window != Window.DEFAULT && !Window.Fits(s.into.window + cfg.window - Window.DEFAULT)
  }

  lemma AcksAll(c: Conn) returns (r: Conn)
    requires Wf(c) && !c.receiving.acked && c.cfg.threshold >= 0
    ensures r == AckAll(c) && SameButStreams(c.(receiving := r.receiving), r) && r.receiving == c.receiving.(acked := true)
    ensures forall id :: id in c.streams ==>
              if id !in c.mapped || c.streams[id].life.recv == Closed || c.cfg.window == Window.DEFAULT || Overflows(c.streams[id], c.cfg)
              then r.streams[id] == c.streams[id]
              else Moved(c.streams[id], r.streams[id], c.cfg.window - Window.DEFAULT, c.cfg)
  {
    r := AckAll(c);
  }

  lemma InForceAfter(c: Conn, c': Conn, r: Conn, ids: set<nat>)
    requires Wf(c) && c.cfg.threshold >= 0 && SameButStreams(c.(receiving := c'.receiving), c')
    requires c'.receiving == c.receiving.(acked := true)
    requires forall id :: id in c.streams ==>
               if id !in c.mapped || c.streams[id].life.recv == Closed || c.cfg.window == Window.DEFAULT || Overflows(c.streams[id], c.cfg)
               then c'.streams[id] == c.streams[id]
               else Moved(c.streams[id], c'.streams[id], c.cfg.window - Window.DEFAULT, c.cfg)
    requires Fails(c', r, ids) && forall id :: id in ids <==> id in c.mapped && Overflows(c.streams[id], c.cfg)
    ensures InForce(c, r)
  {
  }

  lemma AckFailuresAre(c: Conn)
    requires Wf(c) && c.cfg.threshold >= 0
    ensures forall id :: id in AckFailures(c) <==> id in c.mapped && Overflows(c.streams[id], c.cfg)
  {
  }

  /** The first acknowledgment puts the settings in force, a second one ends the connection. */
  lemma AckIsReceived(c: Conn, order: seq<nat>)
    requires Wf(c) && ValidConfig(c.cfg) && Enabled(c, AckReceived(order))
    ensures var r := Step(c, AckReceived(order));
            if c.receiving.acked then Breaks(c, r) else InForce(c, r)
  {
    if c.receiving.acked {
      var r := Broken(c);
    } else {
      var r := Acknowledges(c, order);
    }
  }
}
