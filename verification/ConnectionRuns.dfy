/** Whole connections: what holds after every sequence of calls, frames and failures. */
module ConnectionRuns {
  import opened Prelude
  import Window
  import opened Messages
  import opened Connection
  import opened ConnectionLife
  import opened ConnectionSend
  import opened ConnectionReceive

  /** What can happen to a connection.  fits says whether a header list is within the peer's
      limit, pending whether a stream id is among the recently reset ones. */
  datatype Event =
    | RequestSent(eof: bool, fits: bool, head: bool)
    | WaiterRuns(waiter: nat, eof: bool, fits: bool, head: bool)
    | WaiterDropped(waiter: nat)
    | StreamReserved
    | ReservationReleased
    | ReservedSent(eof: bool, fits: bool, head: bool)
    | ResponseSent(id: nat, eof: bool, fits: bool)
    | TrailersSent(id: nat, fits: bool)
    | EmptySent(id: nat)
    | ChunkSent(id: nat, len: nat, frame: nat, eof: bool)
    | CapacityPolled(id: nat)
    | CapacityCancelled(id: nat)
    | CapacityTimedOut(id: nat)
    | StreamReset(id: nat)
    | CapacityConsumed(token: nat, size: nat)
    | CapacityDropped(token: nat)
    | CapacityMerged(token: nat, other: nat)
    | ShutdownStarted
    | HeadersReceived(id: nat, headers: Headers, pending: bool)
    | DataReceived(id: nat, flow: nat, len: nat, eof: bool, pending: bool)
    | AckReceived(order: seq<nat>)
    | SettingsReceived(maxStreams: Option<nat>, initial: Option<nat>, order: seq<nat>)
    | UpdateReceived(id: nat, size: nat, pending: bool)
    | ResetReceived(id: nat)
    | InvalidReceived(id: nat, isHeaders: bool)
    | GoAwayReceived(last: nat, order: seq<nat>)
    | ProtocolError
    | Aborted(close: bool)
    | CloseForced

  /** Events name streams and tokens that exist; only clients open streams; a woken waiter
      runs once; a reservation is used or released once; the sender's frame size is not
      zero; values of settings are in range; a failed set is listed in some order. */
  ghost predicate Enabled(c: Conn, e: Event)
    requires Wf(c)
  {
    match e
    case RequestSent(_, _, _) => !c.cfg.server
    case WaiterRuns(w, _, _, _) => !c.cfg.server && w in c.slots.notified
    case WaiterDropped(_) => true
    case StreamReserved => !c.cfg.server
    case ReservationReleased => !c.cfg.server && c.slots.reserved > 0
    case ReservedSent(_, _, _) => !c.cfg.server && c.slots.reserved > 0
    case ResponseSent(id, _, _) => id in c.streams
    case TrailersSent(id, _) => id in c.streams
    case EmptySent(id) => id in c.streams
    case ChunkSent(id, _, frame, _) => id in c.streams && frame > 0
    case CapacityPolled(id) => id in c.streams
    case CapacityCancelled(id) => id in c.streams
    case CapacityTimedOut(id) => id in c.streams
    case StreamReset(id) => id in c.streams
    case CapacityConsumed(t, n) => t < |c.receiving.tokens| && n <= c.receiving.tokens[t].size
    case CapacityDropped(t) => t < |c.receiving.tokens|
    case CapacityMerged(a, b) =>
      && a < |c.receiving.tokens| && b < |c.receiving.tokens| && a != b
      && c.receiving.tokens[a].stream == c.receiving.tokens[b].stream
    case DataReceived(_, flow, len, _, _) => len <= flow
    case AckReceived(order) => c.cfg.threshold >= 0 && Lists(order, AckFailures(c))
    case SettingsReceived(_, initial, order) => Lists(order, c.mapped) && (initial.Some? ==> initial.value <= Window.MAX)
    case GoAwayReceived(last, order) => Lists(order, Unprocessed(c, last))
    case _ => true
  }

  /** Enabled but for the order, which is known when the step has been taken. */
  ghost predicate CanHappen(c: Conn, e: Event)
    requires Wf(c)
  {
    match e
    case AckReceived(_) => true
    case SettingsReceived(_, initial, _) => initial.Some? ==> initial.value <= Window.MAX
    case GoAwayReceived(_, _) => true
    case _ => Enabled(c, e)
  }

  function WithOrder(e: Event, order: seq<nat>): (r: Event) {
    match e
    case AckReceived(_) => AckReceived(order)
    case SettingsReceived(max, initial, _) => SettingsReceived(max, initial, order)
    case GoAwayReceived(last, _) => GoAwayReceived(last, order)
    case _ => e
  }

  // ----- kinds of events -----------------------------------------------------------------

  /** Calls on a stream. */
  predicate OnStream(e: Event) {
    || e.ResponseSent? || e.TrailersSent? || e.EmptySent? || e.ChunkSent?
    || e.CapacityPolled? || e.CapacityCancelled? || e.CapacityTimedOut? || e.StreamReset?
  }

  /** Calls on the connection. */
  predicate OnConnection(e: Event) {
    || e.RequestSent? || e.WaiterRuns? || e.WaiterDropped? || e.StreamReserved? || e.ReservationReleased? || e.ReservedSent?
    || e.ShutdownStarted?
  }

  predicate OnCapacity(e: Event) {
    e.CapacityConsumed? || e.CapacityDropped? || e.CapacityMerged?
  }

  predicate IsFrame(e: Event) {
    || e.HeadersReceived? || e.DataReceived? || e.AckReceived? || e.SettingsReceived? || e.UpdateReceived?
    || e.ResetReceived? || e.InvalidReceived? || e.GoAwayReceived?
  }

  ghost function StepConnection(c: Conn, e: Event): (r: Conn)
    requires Wf(c) && ValidConfig(c.cfg) && Enabled(c, e) && OnConnection(e)
    ensures Extends(c, r)
  {
    match e
    case RequestSent(eof, fits, head) => SendRequest(c, eof, fits, head)
    case WaiterRuns(w, eof, fits, head) => RunWaiter(c, w, eof, fits, head)
    case WaiterDropped(w) => c.(slots := DropWaiter(c.slots, w))
    case StreamReserved => Reserve(c)
    case ReservationReleased => ReleaseReserved(c)
    case ReservedSent(eof, fits, head) => SendReserved(c, eof, fits, head)
    case ShutdownStarted => DisconnectWhenReady(c)
  }

  ghost function StepStream(c: Conn, e: Event): (r: Conn)
    requires Wf(c) && ValidConfig(c.cfg) && Enabled(c, e) && OnStream(e)
    ensures Extends(c, r)
  {
    match e
    case ResponseSent(id, eof, fits) => SendResponse(c, id, eof, fits)
    case TrailersSent(id, fits) => SendTrailers(c, id, fits)
    case EmptySent(id) => SendEmpty(c, id)
    case ChunkSent(id, len, frame, eof) => SendChunk(c, id, len, frame, eof)
    case CapacityPolled(id) => PollCapacity(c, id)
    case CapacityCancelled(id) => CancelCapacity(c, id)
    case CapacityTimedOut(id) => CapacityTimeout(c, id)
    case StreamReset(id) => ResetSilent(c, id)
  }

  ghost function StepCapacity(c: Conn, e: Event): (r: Conn)
    requires Wf(c) && ValidConfig(c.cfg) && Enabled(c, e) && OnCapacity(e)
    ensures Extends(c, r)
  {
    match e
    case CapacityConsumed(t, n) => ConsumeToken(c, t, n)
    case CapacityDropped(t) => DropToken(c, t)
    case CapacityMerged(a, b) => MergeTokens(c, a, b)
  }

  ghost function StepFrame(c: Conn, e: Event): (r: Conn)
    requires Wf(c) && ValidConfig(c.cfg) && Enabled(c, e) && IsFrame(e)
    ensures Extends(c, r)
  {
    match e
    case HeadersReceived(id, h, pending) => RecvHeaders(c, id, h, pending)
    case DataReceived(id, flow, len, eof, pending) => RecvData(c, id, flow, len, eof, pending)
    case AckReceived(order) => RecvAck(c, order)
    case SettingsReceived(max, initial, order) => RecvSettings(c, max, initial, order)
    case UpdateReceived(id, size, pending) => RecvUpdate(c, id, size, pending)
    case ResetReceived(id) => RecvReset(c, id)
    case InvalidReceived(id, headers) => RecvInvalid(c, id, headers)
    case GoAwayReceived(last, order) => RecvGoAway(c, last, order)
  }

  ghost function StepFailure(c: Conn, e: Event): (r: Conn)
    requires Wf(c) && (e.ProtocolError? || e.Aborted? || e.CloseForced?)
    ensures Extends(c, r)
  {
    match e
    case ProtocolError => FailAll(c)
    case Aborted(close) => Abort(c, close)
    case CloseForced => ForceClose(c)
  }

  ghost function Step(c: Conn, e: Event): (r: Conn)
    requires Wf(c) && ValidConfig(c.cfg) && Enabled(c, e)
    ensures Extends(c, r)
  {
    if OnConnection(e) then StepConnection(c, e)
    else if OnStream(e) then StepStream(c, e)
    else if OnCapacity(e) then StepCapacity(c, e)
    else if IsFrame(e) then StepFrame(c, e)
    else StepFailure(c, e)
  }

  ghost predicate Invariant(c: Conn) {
    match c
    case c => ValidConfig(c.cfg) && Lifecycle(c) && Sends(c) && Receives(c)
  }

  // ----- every step keeps the lifecycle --------------------------------------------------------

  lemma StreamLives(c: Conn, e: Event)
    requires Lifecycle(c) && ValidConfig(c.cfg) && Enabled(c, e)
    requires OnStream(e)
    ensures Lifecycle(StepStream(c, e))
  {
    match e
    case ResponseSent(id, eof, fits) =>
      if c.streams[id].life.send == Idle { ConnectionLife.SendingHeaders(c, id, eof); }
    case TrailersSent(id, _) => ConnectionLife.Shutting(c, id, false, true, false, c.shut.goAway);
    case EmptySent(id) => ConnectionLife.Shutting(c, id, false, true, false, c.shut.goAway);
    case ChunkSent(id, len, frame, eof) => ChunkLives(c, id, len, frame, eof);
    case CapacityPolled(id) => PollLives(c, id);
    case CapacityCancelled(id) => CancelLives(c, id);
    case CapacityTimedOut(id) => TimeoutLives(c, id);
    case StreamReset(id) => ConnectionLife.Resetting(c, id);
  }

  lemma PollLives(c: Conn, id: nat)
    requires Lifecycle(c) && id in c.streams
    ensures Lifecycle(PollCapacity(c, id))
  {
    var s := c.streams[id];
    SettingSameLife(c, id, s.(out := s.out.(waits := true, timer := s.out.timer || c.cfg.timed, waker := true, parked := true)));
    CancelLives(c, id);
    SameLifeKeeps(c, PollCapacity(c, id));
  }

  lemma CancelLives(c: Conn, id: nat)
    requires Lifecycle(c) && id in c.streams
    ensures SameLife(c, CancelCapacity(c, id)) && Lifecycle(CancelCapacity(c, id))
  {
    var s := c.streams[id];
    SettingSameLife(c, id, s.(out := s.out.(waits := false, timer := false, parked := false)));
    SameLifeKeeps(c, CancelCapacity(c, id));
  }

  lemma TimeoutLives(c: Conn, id: nat)
    requires Lifecycle(c) && id in c.streams
    ensures Lifecycle(CapacityTimeout(c, id))
  {
    var s := c.streams[id];
    var s' := s.(out := s.out.(timer := false));
    SettingSameLife(c, id, s');
    SameLifeKeeps(c, SetStream(c, id, s'));
    ConnectionLife.Resetting(SetStream(c, id, s'), id);
  }

  lemma ChargingSameLife(c: Conn, id: nat, size: nat)
    requires Wf(c) && id in c.streams && size <= c.streams[id].out.window && size <= c.sending.window
    ensures SameLife(c, Charge(c, id, size))
  {
  }

  lemma ChunkLives(c: Conn, id: nat, len: nat, frame: nat, eof: bool)
    requires Lifecycle(c) && id in c.streams
    ensures Lifecycle(SendChunk(c, id, len, frame, eof))
  {
    var win := Available(c, id);
    if SendsPayload(c.streams[id]) && win > 0 && len > 0 {
      var size := Min3(win, len, frame);
      ConnectionLife.Shutting(c, id, false, true, false, c.shut.goAway);
      var c' := if eof && size == len then Shut(c, id, false, true, false) else c;
      ChargingSameLife(c', id, size);
      SameLifeKeeps(c', Charge(c', id, size));
    }
  }

  lemma FrameLives(c: Conn, e: Event)
    requires Lifecycle(c) && ValidConfig(c.cfg) && Enabled(c, e)
    requires IsFrame(e)
    ensures Lifecycle(StepFrame(c, e))
  {
    match e
    case HeadersReceived(id, h, pending) => ConnectionLife.ReceivingHeaders(c, id, h, pending);
    case DataReceived(id, flow, len, eof, pending) => ConnectionLife.ReceivingData(c, id, flow, len, eof, pending);
    case AckReceived(order) => ConnectionLife.ReceivingAck(c, order);
    case SettingsReceived(max, initial, order) => ConnectionLife.ReceivingSettings(c, max, initial, order);
    case UpdateReceived(id, size, pending) => ConnectionLife.ReceivingUpdate(c, id, size, pending);
    case ResetReceived(id) => ResetLives(c, id);
    case InvalidReceived(id, headers) => InvalidLives(c, id, headers);
    case GoAwayReceived(last, order) => ConnectionLife.ReceivingGoAway(c, last, order);
  }

  lemma ResetLives(c: Conn, id: nat)
    requires Lifecycle(c)
    ensures Lifecycle(RecvReset(c, id))
  {
    ConnectionLife.FailingAll(c);
    if id in c.mapped {
      ConnectionLife.Shutting(c, id, true, true, true, c.shut.goAway);
    }
  }

  lemma InvalidLives(c: Conn, id: nat, headers: bool)
    requires Lifecycle(c)
    ensures Lifecycle(RecvInvalid(c, id, headers))
  {
    ConnectionLife.FailingAll(c);
    if id in c.mapped {
      ConnectionLife.Resetting(c, id);
    } else if c.cfg.server && id % 2 == 1 && id > c.ids.last {
      Numbering(c, id);
    }
  }

  lemma HandleLives(c: Conn, e: Event)
    requires Lifecycle(c) && ValidConfig(c.cfg) && Enabled(c, e)
    requires OnConnection(e)
    ensures Lifecycle(StepConnection(c, e))
  {
    match e
    case RequestSent(eof, fits, head) => var r := ConnectionLife.Requesting(c, eof, fits, head);
    case WaiterRuns(w, eof, fits, head) => ConnectionLife.RunningWaiter(c, w, eof, fits, head);
    case WaiterDropped(w) => WaiterLives(c, w);
    case StreamReserved => Reserving(c);
    case ReservationReleased => ConnectionLife.ReleasingReserved(c);
    case ReservedSent(eof, fits, head) => ConnectionLife.SendingReserved(c, eof, fits, head);
    case ShutdownStarted => Disconnecting(c);
  }

  lemma WaiterLives(c: Conn, w: nat)
    requires Lifecycle(c)
    ensures Lifecycle(c.(slots := DropWaiter(c.slots, w)))
  {
    DroppingWaiter(c.slots, w);
  }

  lemma TokenLives(c: Conn, e: Event)
    requires Lifecycle(c) && ValidConfig(c.cfg) && Enabled(c, e)
    requires OnCapacity(e)
    ensures Lifecycle(StepCapacity(c, e))
  {
    match e
    case CapacityConsumed(t, n) =>
      ConsumingSameLife(c, t, n);
      SameLifeKeeps(c, ConsumeToken(c, t, n));
    case CapacityDropped(t) => ConnectionLife.DroppingToken(c, t);
    case CapacityMerged(a, b) => SameLifeKeeps(c, MergeTokens(c, a, b));
  }

  lemma FailureLives(c: Conn, close: bool)
    requires Lifecycle(c)
    ensures Lifecycle(FailAll(c)) && Lifecycle(Abort(c, close)) && Lifecycle(ForceClose(c))
  {
    ConnectionLife.FailingAll(c);
    Forcing(FailAll(c), close);
    Forcing(c, true);
  }

  lemma Forcing(c: Conn, close: bool)
    requires Lifecycle(c)
    ensures Lifecycle(c.(shut := c.shut.(forced := true, closed := c.shut.closed || close)))
  {
  }

  lemma StepLives(c: Conn, e: Event)
    requires Lifecycle(c) && ValidConfig(c.cfg) && Enabled(c, e)
    ensures Lifecycle(Step(c, e))
  {
    if OnConnection(e) {
      HandleLives(c, e);
    } else if OnStream(e) {
      StreamLives(c, e);
    } else if OnCapacity(e) {
      TokenLives(c, e);
    } else if IsFrame(e) {
      FrameLives(c, e);
    } else {
      FailureLives(c, e.Aborted? && e.close);
    }
  }

  // ----- every step keeps the sending side ------------------------------------------------------

  lemma StreamSends(c: Conn, e: Event)
    requires Lifecycle(c) && Sends(c) && ValidConfig(c.cfg) && Enabled(c, e) && OnStream(e)
    ensures Sends(StepStream(c, e))
  {
    match e
    case ResponseSent(id, eof, fits) => ConnectionSend.SendingHeaders(c, id, eof);
    case TrailersSent(id, _) => ConnectionSend.Shutting(c, id, false, true, false);
    case EmptySent(id) => ConnectionSend.Shutting(c, id, false, true, false);
    case ChunkSent(id, len, frame, eof) => ConnectionSend.SendingChunk(c, id, len, frame, eof);
    case CapacityPolled(id) => Polling(c, id);
    case CapacityCancelled(id) => Polling(c, id);
    case CapacityTimedOut(id) => ConnectionSend.TimingOut(c, id);
    case StreamReset(id) => ConnectionSend.Resetting(c, id);
  }

  lemma HandleSends(c: Conn, e: Event)
    requires Sends(c) && ValidConfig(c.cfg) && Enabled(c, e) && OnConnection(e)
    ensures Sends(StepConnection(c, e))
  {
    match e
    case RequestSent(eof, fits, head) => var r := ConnectionSend.Requesting(c, eof, fits, head);
    case WaiterRuns(w, eof, fits, head) => ConnectionSend.RunningWaiter(c, w, eof, fits, head);
    case WaiterDropped(w) => ConnectionSend.NewSlots(c, DropWaiter(c.slots, w));
    case StreamReserved => ConnectionSend.ReleasingReserved(c);
    case ReservationReleased => ConnectionSend.ReleasingReserved(c);
    case ReservedSent(eof, fits, head) => ConnectionSend.SendingReserved(c, eof, fits, head);
    case ShutdownStarted => ConnectionSend.ReleasingReserved(c);
  }

  lemma TokenSends(c: Conn, e: Event)
    requires Sends(c) && ValidConfig(c.cfg) && Enabled(c, e) && OnCapacity(e)
    ensures Sends(StepCapacity(c, e))
  {
    match e
    case CapacityConsumed(t, n) => ConnectionSend.Consuming(c, t, n);
    case CapacityDropped(t) => ConnectionSend.DroppingToken(c, t);
    case CapacityMerged(a, b) => SameSendKeeps(c, MergeTokens(c, a, b));
  }

  lemma FrameSends(c: Conn, e: Event)
    requires Lifecycle(c) && Sends(c) && ValidConfig(c.cfg) && Enabled(c, e) && IsFrame(e)
    ensures Sends(StepFrame(c, e))
  {
    match e
    case HeadersReceived(id, h, pending) => ConnectionSend.ReceivingHeaders(c, id, h, pending);
    case DataReceived(id, flow, len, eof, pending) => ConnectionSend.ReceivingData(c, id, flow, len, eof, pending);
    case AckReceived(order) => ConnectionSend.ReceivingAck(c, order);
    case SettingsReceived(max, initial, order) => ConnectionSend.ReceivingSettings(c, max, initial, order);
    case UpdateReceived(id, size, pending) => ConnectionSend.ReceivingUpdate(c, id, size, pending);
    case ResetReceived(id) => ResetSends(c, id);
    case InvalidReceived(id, headers) => InvalidSends(c, id, headers);
    case GoAwayReceived(last, order) => ConnectionSend.ReceivingGoAway(c, last, order);
  }

  lemma ResetSends(c: Conn, id: nat)
    requires Lifecycle(c) && Sends(c)
    ensures Sends(RecvReset(c, id))
  {
    ConnectionSend.FailingAll(c);
    if id in c.mapped {
      ConnectionSend.Shutting(c, id, true, true, true);
    }
  }

  lemma InvalidSends(c: Conn, id: nat, headers: bool)
    requires Lifecycle(c) && Sends(c)
    ensures Sends(RecvInvalid(c, id, headers))
  {
    ConnectionSend.FailingAll(c);
    if id in c.mapped {
      ConnectionSend.Resetting(c, id);
    } else if c.cfg.server && id > c.ids.last {
      SameSendKeeps(c, c.(ids := c.ids.(last := id)));
    }
  }

  lemma FailureSends(c: Conn, close: bool)
    requires Lifecycle(c) && Sends(c)
    ensures Sends(FailAll(c)) && Sends(Abort(c, close)) && Sends(ForceClose(c))
  {
    ConnectionSend.FailingAll(c);
    SameSendKeeps(FailAll(c), Abort(c, close));
    SameSendKeeps(c, ForceClose(c));
  }

  lemma StepSends(c: Conn, e: Event)
    requires Lifecycle(c) && Sends(c) && ValidConfig(c.cfg) && Enabled(c, e)
    ensures Sends(Step(c, e))
  {
    if OnConnection(e) {
      HandleSends(c, e);
    } else if OnStream(e) {
      StreamSends(c, e);
    } else if OnCapacity(e) {
      TokenSends(c, e);
    } else if IsFrame(e) {
      FrameSends(c, e);
    } else {
      FailureSends(c, e.Aborted? && e.close);
    }
  }

  // ----- every step keeps the receiving side ----------------------------------------------------

  lemma StreamReceives(c: Conn, e: Event)
    requires Receives(c) && ValidConfig(c.cfg) && Enabled(c, e) && OnStream(e)
    ensures Receives(StepStream(c, e))
  {
    match e
    case ResponseSent(id, eof, fits) => ConnectionReceive.SendingHeaders(c, id, eof);
    case TrailersSent(id, _) => ConnectionReceive.SendingHeaders(c, id, true);
    case EmptySent(id) => ConnectionReceive.SendingHeaders(c, id, true);
    case ChunkSent(id, len, frame, eof) => ConnectionReceive.SendingChunk(c, id, len, frame, eof);
    case CapacityPolled(id) => ConnectionReceive.TimingOut(c, id);
    case CapacityCancelled(id) => ConnectionReceive.TimingOut(c, id);
    case CapacityTimedOut(id) => ConnectionReceive.TimingOut(c, id);
    case StreamReset(id) => ConnectionReceive.Resetting(c, id);
  }

  lemma HandleReceives(c: Conn, e: Event)
    requires Lifecycle(c) && Receives(c) && ValidConfig(c.cfg) && Enabled(c, e) && OnConnection(e)
    ensures Receives(StepConnection(c, e))
  {
    if !c.cfg.server {
      var c' := NextNumber(c, 0, c.shut.goAway);
    }
    match e
    case RequestSent(eof, fits, head) => var r := ConnectionReceive.Requesting(c, eof, fits, head);
    case WaiterRuns(w, eof, fits, head) => ConnectionReceive.RunningWaiter(c, w, eof, fits, head);
    case WaiterDropped(w) => ConnectionReceive.NewSlots(c, DropWaiter(c.slots, w), c.shut);
    case StreamReserved => ConnectionReceive.NewSlots(c, Reserve(c).slots, c.shut);
    case ReservationReleased => ReleaseReceives(c);
    case ReservedSent(eof, fits, head) => ConnectionReceive.SendingReserved(c, eof, fits, head);
    case ShutdownStarted => ConnectionReceive.NewSlots(c, ClearWaiters(c.slots), c.shut.(disconnecting := true));
  }

  lemma ReleaseReceives(c: Conn)
    requires Receives(c)
    ensures Receives(ReleaseReserved(c))
  {
    var s := c.slots.(reserved := if c.slots.reserved > 0 then c.slots.reserved - 1 else 0);
    ConnectionReceive.NewSlots(c, ReleaseLocal(s), c.shut);
  }

  lemma TokenReceives(c: Conn, e: Event)
    requires Receives(c) && ValidConfig(c.cfg) && Enabled(c, e) && OnCapacity(e)
    ensures Receives(StepCapacity(c, e))
  {
    match e
    case CapacityConsumed(t, n) => var r := ConnectionReceive.Consuming(c, t, n);
    case CapacityDropped(t) => ConnectionReceive.DroppingToken(c, t);
    case CapacityMerged(a, b) => Merging(c, a, b);
  }

  lemma FrameReceives(c: Conn, e: Event)
    requires Lifecycle(c) && Receives(c) && ValidConfig(c.cfg) && Enabled(c, e) && IsFrame(e)
    ensures Receives(StepFrame(c, e))
  {
    match e
    case HeadersReceived(id, h, pending) => ConnectionReceive.ReceivingHeaders(c, id, h, pending);
    case DataReceived(id, flow, len, eof, pending) => ConnectionReceive.ReceivingData(c, id, flow, len, eof, pending);
    case AckReceived(order) => ConnectionReceive.ReceivingAck(c, order);
    case SettingsReceived(max, initial, order) => ConnectionReceive.ReceivingSettings(c, max, initial, order);
    case UpdateReceived(id, size, pending) => ConnectionReceive.ReceivingUpdate(c, id, size, pending);
    case ResetReceived(id) => ResetReceives(c, id);
    case InvalidReceived(id, headers) => InvalidReceives(c, id, headers);
    case GoAwayReceived(last, order) => ConnectionReceive.ReceivingGoAway(c, last, order);
  }

  lemma ResetReceives(c: Conn, id: nat)
    requires Receives(c)
    ensures Receives(RecvReset(c, id))
  {
    ConnectionReceive.FailingAll(c);
    if id in c.mapped {
      ConnectionReceive.Shutting(c, id, true, true, true);
      SameReceiveKeeps(c, Shut(c, id, true, true, true));
    }
  }

  lemma InvalidReceives(c: Conn, id: nat, headers: bool)
    requires Receives(c)
    ensures Receives(RecvInvalid(c, id, headers))
  {
    ConnectionReceive.FailingAll(c);
    if id in c.mapped {
      ConnectionReceive.Resetting(c, id);
    } else if c.cfg.server && id > c.ids.last {
      SameReceiveKeeps(c, c.(ids := c.ids.(last := id)));
    }
  }

  lemma FailureReceives(c: Conn, close: bool)
    requires Receives(c)
    ensures Receives(FailAll(c)) && Receives(Abort(c, close)) && Receives(ForceClose(c))
  {
    ConnectionReceive.FailingAll(c);
    SameReceiveKeeps(FailAll(c), Abort(c, close));
    SameReceiveKeeps(c, ForceClose(c));
  }

  lemma StepReceives(c: Conn, e: Event)
    requires Lifecycle(c) && Receives(c) && ValidConfig(c.cfg) && Enabled(c, e)
    ensures Receives(Step(c, e))
  {
    if OnConnection(e) {
      HandleReceives(c, e);
    } else if OnStream(e) {
      StreamReceives(c, e);
    } else if OnCapacity(e) {
      TokenReceives(c, e);
    } else if IsFrame(e) {
      FrameReceives(c, e);
    } else {
      FailureReceives(c, e.Aborted? && e.close);
    }
  }

  // ----- runs --------------------------------------------------------------------------------

  lemma InitiallyFine(cfg: Config)
    requires ValidConfig(cfg)
    ensures Invariant(Init(cfg))
  {
    Window.UpdateBounds(Window.DEFAULT, 0, cfg.conWindow, cfg.conThreshold);
    var c := Init(cfg);
    assert SlotsServed(c.slots);
    assert Lifecycle(c);
  }

  /** Each event is possible where it happens. */
  ghost predicate Possible(c: Conn, es: seq<Event>)
    requires Wf(c) && ValidConfig(c.cfg)
    decreases |es|
  {
    |es| == 0 || (Enabled(c, es[0]) && Possible(Step(c, es[0]), es[1..]))
  }

  ghost function Run(c: Conn, es: seq<Event>): (r: Conn)
    requires Wf(c) && ValidConfig(c.cfg) && Possible(c, es)
    ensures Wf(r) && r.cfg == c.cfg
    decreases |es|
  {
    if |es| == 0 then c else Run(Step(c, es[0]), es[1..])
  }

  lemma StepKeepsInvariant(c: Conn, e: Event)
    requires Invariant(c) && Enabled(c, e)
    ensures Invariant(Step(c, e))
  {
    StepLives(c, e);
    StepSends(c, e);
    StepReceives(c, e);
  }

  lemma {:induction false} RunKeepsInvariant(c: Conn, es: seq<Event>)
    requires Invariant(c) && Possible(c, es)
    ensures Invariant(Run(c, es))
    decreases |es|
  {
    if |es| > 0 {
      StepKeepsInvariant(c, es[0]);
      RunKeepsInvariant(Step(c, es[0]), es[1..]);
    }
  }

  ghost predicate Reachable(c: Conn) {
    exists cfg, es :: ValidConfig(cfg) && Possible(Init(cfg), es) && c == Run(Init(cfg), es)
  }

  lemma ReachableIsFine(c: Conn)
    requires Reachable(c)
    ensures Invariant(c)
  {
    var cfg, es :| ValidConfig(cfg) && Possible(Init(cfg), es) && c == Run(Init(cfg), es);
    InitiallyFine(cfg);
    RunKeepsInvariant(Init(cfg), es);
  }

  lemma InitIsReachable(cfg: Config)
    requires ValidConfig(cfg)
    ensures Reachable(Init(cfg))
  {
    assert Possible(Init(cfg), []) && Init(cfg) == Run(Init(cfg), []);
  }

  lemma {:induction false} RunAppend(c: Conn, es: seq<Event>, e: Event)
    requires Wf(c) && ValidConfig(c.cfg) && Possible(c, es) && Enabled(Run(c, es), e)
    ensures Possible(c, es + [e]) && Run(c, es + [e]) == Step(Run(c, es), e)
    decreases |es|
  {
    if |es| == 0 {
      assert es + [e] == [e];
      assert Possible(Step(c, e), [e][1..]);
    } else {
      assert (es + [e])[1..] == es[1..] + [e];
      RunAppend(Step(c, es[0]), es[1..], e);
    }
  }

  lemma ReachableStep(c: Conn, e: Event)
    requires Reachable(c) && Wf(c) && ValidConfig(c.cfg) && Enabled(c, e)
    ensures Reachable(Step(c, e))
  {
    var cfg, es :| ValidConfig(cfg) && Possible(Init(cfg), es) && c == Run(Init(cfg), es);
    RunAppend(Init(cfg), es, e);
  }
}
