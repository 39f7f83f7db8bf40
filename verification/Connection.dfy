/** A connection and its streams: everything src/connection.rs and src/stream.rs keep, and
    one function for every step that changes it.  The invariants are in the modules that
    follow, the running class in ConnectionState. */
module Connection {
  import opened Prelude
  import Window
  import opened Messages

  const MAX_ID: nat := 0x7FFF_FFFF

  // ----- state -------------------------------------------------------------------------

  datatype Config = Config(
    server: bool,
    strict: bool,             // UNKNOWN_STREAMS
    maxRemote: Option<nat>,
    timed: bool,              // capacity_timeout is set
    window: int,
    threshold: int,
    conWindow: int,
    conThreshold: int)

  ghost predicate ValidConfig(cfg: Config) {
    && 0 <= cfg.window <= Window.MAX && 1 <= cfg.threshold <= Window.MAX
    && 0 <= cfg.conWindow <= Window.MAX && 1 <= cfg.conThreshold <= Window.MAX
  }

  /** The two halves of a stream and its error cell. */
  datatype Life = Life(recv: Half, send: Half, error: bool)

  /** Sending: the window, the flags WAIT_FOR_CAPACITY and CAPACITY_TIMER, whether a waker
      is stored, whether its task sleeps on it; credit and sent are the ledger. */
  datatype Out = Out(window: int, waits: bool, timer: bool, waker: bool, parked: bool, credit: nat, sent: nat)

  /** Receiving: the window, what is not consumed yet, the content-length; early says that
      the stream was opened before the settings were acknowledged. */
  datatype In = In(window: int, size: int, content: ContentLength, early: bool)

  datatype Stream = Stream(life: Life, out: Out, into: In)

  /** Stream counters, the limit, and the tasks waiting for a slot: the queue of senders,
      the waiters that sleep and those that are woken but have not run. */
  datatype Slots = Slots(remote: int, local: nat, reserved: nat, max: Option<nat>,
                         queue: seq<nat>, parked: set<nat>, notified: set<nat>, next: nat)

  datatype Shutdown = Shutdown(error: bool, goAway: Option<nat>, disconnecting: bool, closed: bool, forced: bool)

  datatype Sending = Sending(window: int, initial: int, credit: nat, sent: nat)

  /** Received data that somebody holds; a token of size zero is gone. */
  datatype Token = Token(stream: nat, size: nat)

  datatype Receiving = Receiving(window: int, size: int, tokens: seq<Token>, granted: int, accepted: nat, acked: bool)

  datatype Ids = Ids(next: nat, last: nat)

  /** streams holds every stream ever opened, mapped the ids in the connection's map. */
  datatype Conn = Conn(
    cfg: Config,
    streams: map<nat, Stream>,
    mapped: set<nat>,
    ids: Ids,
    slots: Slots,
    shut: Shutdown,
    sending: Sending,
    receiving: Receiving,
    remoteSettings: bool)

  /** Ids up to here have been used. */
  predicate Issued(c: Conn, id: nat) {
    if c.cfg.server then id <= c.ids.last else id < c.ids.next
  }

  ghost predicate Wf(c: Conn) {
    && c.mapped <= c.streams.Keys
    && (forall t :: 0 <= t < |c.receiving.tokens| ==> c.receiving.tokens[t].stream in c.streams)
    && (forall id :: id in c.streams ==> Issued(c, id))
  }

  /** A receiving half does not open again, and while it is open what the peer may have
      outstanding on it does not grow beyond the configured window. */
  ghost predicate Capped(cfg: Config, s: Stream, s': Stream) {
    s'.life.recv != Closed ==>
      && s.life.recv != Closed
      && (s'.into.window + s'.into.size <= s.into.window + s.into.size || s'.into.window + s'.into.size <= cfg.window)
  }

  /** c' keeps every stream of c, and its configuration; a client that has been told GOAWAY
      opens no more; once the settings are acknowledged streams are capped. */
  ghost predicate Extends(c: Conn, c': Conn) {
    && Wf(c') && c.streams.Keys <= c'.streams.Keys && c'.cfg == c.cfg
    && (c.shut.goAway.Some? && !c.cfg.server ==> c'.shut.goAway.Some? && c'.streams.Keys == c.streams.Keys)
    && (c.receiving.acked ==>
          c'.receiving.acked && forall id :: id in c.streams ==> Capped(c.cfg, c.streams[id], c'.streams[id]))
  }

  /** DEFAULT_REMOTE_MAX_CONCURRENT_STREAMS */
  const REMOTE_MAX: nat := 100

  /** src/connection.rs:88-185 */
  function Init(cfg: Config): (c: Conn)
    requires cfg.conThreshold >= 0
    ensures Wf(c) && c.cfg == cfg
  {
    var (window, granted) := Window.Update(Window.DEFAULT, 0, cfg.conWindow, cfg.conThreshold);
    Conn(cfg, map[], {}, Ids(1, 0),
         Slots(0, 0, 0, Some(REMOTE_MAX), [], {}, {}, 0),
         Shutdown(false, None, false, false, false),
         Sending(Window.DEFAULT, Window.DEFAULT, 0, 0),
         Receiving(window, 0, [], if granted.Some? then granted.value else 0, 0, false),
         false)
  }

  // ----- slots -----------------------------------------------------------------------------

  /** src/connection.rs:651-660: a sender whose waiter is gone wakes nobody. */
  function WakeWaiters(s: Slots, count: nat): (r: Slots)
    decreases |s.queue|
  {
    if count == 0 || |s.queue| == 0 then s
    else
      var w, s' := s.queue[0], s.(queue := s.queue[1..]);
      if w in s.parked then WakeWaiters(s'.(parked := s.parked - {w}, notified := s.notified + {w}), count - 1)
      else WakeWaiters(s', count)
  }

  function Free(s: Slots): (n: nat) {
    if s.max.Some? && s.max.value > s.local then s.max.value - s.local else 0
  }

  /** src/connection.rs:641-649 */
  function ReleaseLocal(s: Slots): (r: Slots) {
    var s' := s.(local := if s.local > 0 then s.local - 1 else 0);
    if s'.max.Some? then WakeWaiters(s', Free(s')) else s'
  }

  function CanCreate(s: Slots): (b: bool) {
    s.max.Some? ==> s.local < s.max.value
  }

  function Park(s: Slots): (r: Slots) {
    s.(queue := s.queue + [s.next], parked := s.parked + {s.next}, next := s.next + 1)
  }

  /** The queue is dropped, its waiters fail. */
  function ClearWaiters(s: Slots): (r: Slots) {
    s.(queue := [], parked := {})
  }

  function WakeAllWaiters(s: Slots): (r: Slots) {
    s.(queue := [], parked := {}, notified := s.notified + s.parked)
  }

  // ----- streams ---------------------------------------------------------------------------

  predicate BothClosed(life: Life) {
    life.recv == Closed && life.send == Closed
  }

  function SetStream(c: Conn, id: nat, s: Stream): (r: Conn)
    requires Wf(c) && id in c.streams
    ensures Wf(r) && r.streams.Keys == c.streams.Keys && (Capped(c.cfg, c.streams[id], s) ==> Extends(c, r))
  {
    c.(streams := c.streams[id := s])
  }

  /** A stored waker is taken and its task runs again. */
  function Wake(o: Out): (r: Out) {
    if o.waker then o.(waker := false, parked := false) else o
  }

  function CloseIfDone(c: Conn): (r: Conn)
    requires Wf(c)
    ensures Extends(c, r)
  {
    if c.mapped == {} && c.slots.reserved == 0 && c.shut.disconnecting then c.(shut := c.shut.(closed := true)) else c
  }

  function Remove(c: Conn, id: nat): (r: Conn)
    requires Wf(c) && id in c.streams
    ensures Extends(c, r) && r.sending == c.sending && r.streams[id].out.window == c.streams[id].out.window
  {
    var s := c.streams[id];
    c.(mapped := c.mapped - {id},
       streams := c.streams[id := s.(out := s.out.(timer := false))],
       slots := if c.cfg.server then c.slots.(remote := c.slots.remote - 1) else ReleaseLocal(c.slots))
  }

  /** src/connection.rs:662-707 */
  function DropStream(c: Conn, id: nat): (r: Conn)
    requires Wf(c) && id in c.streams
    ensures Extends(c, r) && r.sending == c.sending && r.streams[id].out.window == c.streams[id].out.window
  {
    if id !in c.mapped then c else CloseIfDone(Remove(c, id))
  }

  /** Closes halves of a stream, sets its error, and reviews it: a closed sending half wakes
      the sender, a stream closed on both halves leaves the connection
      (src/stream.rs:197-301). */
  function Shut(c: Conn, id: nat, recv: bool, send: bool, error: bool): (r: Conn)
    requires Wf(c) && id in c.streams
    ensures Extends(c, r) && r.sending == c.sending && r.streams[id].out.window == c.streams[id].out.window
  {
    var s := c.streams[id];
    var life := Life(if recv then Closed else s.life.recv, if send then Closed else s.life.send, s.life.error || error);
    var out := if send || BothClosed(life) then Wake(s.out) else s.out;
    var c' := SetStream(c, id, s.(life := life, out := out));
    if BothClosed(life) then DropStream(c', id) else c'
  }

  /** src/stream.rs:482-490 */
  function ResetSilent(c: Conn, id: nat): (r: Conn)
    requires Wf(c) && id in c.streams
    ensures Extends(c, r)
  {
    if BothClosed(c.streams[id].life) then c else Shut(c, id, true, true, true)
  }

  function FailEach(c: Conn, ids: seq<nat>): (r: Conn)
    requires Wf(c) && forall i :: 0 <= i < |ids| ==> ids[i] in c.streams
    ensures Extends(c, r)
    decreases |ids|
  {
    if |ids| == 0 then c else FailEach(Shut(c, ids[0], true, true, true), ids[1..])
  }

  function Failed(s: Stream): (r: Stream) {
    s.(life := Life(Closed, Closed, true), out := Wake(s.out).(timer := false))
  }

  /** A connection error: waiters and streams fail, reservations stay counted
      (src/connection.rs:1260-1297). */
  function FailAll(c: Conn): (r: Conn)
    requires Wf(c)
    ensures Extends(c, r)
  {
    c.(streams := map id | id in c.streams :: if id in c.mapped then Failed(c.streams[id]) else c.streams[id],
       mapped := {},
       slots := ClearWaiters(c.slots).(remote := 0, local := c.slots.reserved),
       shut := c.shut.(error := true))
  }

  function NewStream(c: Conn, head: bool): (s: Stream) {
    Stream(Life(Idle, Idle, false),
           Out(c.sending.initial, false, false, false, false, 0, 0),
           In(if c.receiving.acked then c.cfg.window else Window.DEFAULT, 0, if head then Head else Omitted, !c.receiving.acked))
  }

  /** src/stream.rs:362-390 and its insertion into the map. */
  function Insert(c: Conn, id: nat, head: bool): (r: Conn)
    requires Wf(c) && id !in c.streams && Issued(c, id) && (c.shut.goAway.Some? ==> c.cfg.server)
    ensures Extends(c, r) && id in r.streams
  {
    c.(streams := c.streams[id := NewStream(c, head)],
       mapped := c.mapped + {id},
       slots := if c.cfg.server then c.slots.(remote := c.slots.remote + 1) else c.slots)
  }

  /** src/stream.rs:506-525 */
  function SendHeaders(c: Conn, id: nat, eof: bool): (r: Conn)
    requires Wf(c) && id in c.streams
    ensures Extends(c, r)
  {
    if eof then Shut(c, id, false, true, false)
    else
      var s := c.streams[id];
      SetStream(c, id, s.(life := s.life.(send := Payload)))
  }

  // ----- opening streams -------------------------------------------------------------------

  function Refuses(c: Conn): (b: bool) {
    c.shut.error || c.shut.goAway.Some? || c.shut.disconnecting
  }

  /** src/connection.rs:515-552; the stream is counted already. */
  function OpenStream(c: Conn, eof: bool, fits: bool, head: bool): (r: Option<Conn>)
    requires Wf(c) && !c.cfg.server && c.shut.goAway.None?
    ensures r.Some? ==> Extends(c, r.value)
  {
    if !fits || c.ids.next + 2 > MAX_ID then None else Some(OpenNext(c, eof, head))
  }

  function OpenNext(c: Conn, eof: bool, head: bool): (r: Conn)
    requires Wf(c) && !c.cfg.server && c.shut.goAway.None?
    ensures Extends(c, r)
  {
    SendHeaders(Insert(c.(ids := c.ids.(next := c.ids.next + 2)), c.ids.next, head), c.ids.next, eof)
  }

  /** src/connection.rs:431-457 together with 379-402, up to the point where it waits. */
  function SendRequest(c: Conn, eof: bool, fits: bool, head: bool): (r: Conn)
    requires Wf(c) && !c.cfg.server
    ensures Extends(c, r)
  {
    if Refuses(c) then c
    else if CanCreate(c.slots) then OpenCounted(CountOne(c), eof, fits, head)
    else c.(slots := Park(c.slots))
  }

  function CountOne(c: Conn): (r: Conn)
    requires Wf(c)
    ensures Extends(c, r)
  {
    c.(slots := c.slots.(local := c.slots.local + 1))
  }

  /** A stream that was counted and could not be opened is released. */
  function OpenCounted(c: Conn, eof: bool, fits: bool, head: bool): (r: Conn)
    requires Wf(c) && !c.cfg.server && c.shut.goAway.None?
    ensures Extends(c, r)
  {
    match OpenStream(c, eof, fits, head)
    case Some(c') => c'
    case None => c.(slots := ReleaseLocal(c.slots))
  }

  /** A woken waiter looks again. */
  function RunWaiter(c: Conn, w: nat, eof: bool, fits: bool, head: bool): (r: Conn)
    requires Wf(c) && !c.cfg.server
    ensures Extends(c, r)
  {
    SendRequest(c.(slots := c.slots.(notified := c.slots.notified - {w})), eof, fits, head)
  }

  /** src/connection.rs:1407-1420: a woken waiter that is dropped passes the wake-up on. */
  function DropWaiter(s: Slots, w: nat): (r: Slots) {
    if w in s.parked then s.(parked := s.parked - {w})
    else if w in s.notified then WakeWaiters(s.(notified := s.notified - {w}), 1)
    else s
  }

  /** src/connection.rs:460-470 */
  function Reserve(c: Conn): (r: Conn)
    requires Wf(c)
    ensures Extends(c, r)
  {
    if Refuses(c) || !CanCreate(c.slots) then c
    else c.(slots := c.slots.(local := c.slots.local + 1, reserved := c.slots.reserved + 1))
  }

  /** src/connection.rs:473-486 */
  function ReleaseReserved(c: Conn): (r: Conn)
    requires Wf(c)
    ensures Extends(c, r)
  {
    var reserved := if c.slots.reserved > 0 then c.slots.reserved - 1 else 0;
    CloseIfDone(c.(slots := ReleaseLocal(c.slots.(reserved := reserved))))
  }

  /** src/connection.rs:491-512 */
  function SendReserved(c: Conn, eof: bool, fits: bool, head: bool): (r: Conn)
    requires Wf(c) && !c.cfg.server
    ensures Extends(c, r)
  {
    if c.shut.error || c.shut.closed || c.shut.goAway.Some? then c
    else
      match OpenStream(c, eof, fits, head)
      case None => c
      case Some(c') => c'.(slots := c'.slots.(reserved := if c'.slots.reserved > 0 then c'.slots.reserved - 1 else 0))
  }

  /** src/connection.rs:404-429 */
  function DisconnectWhenReady(c: Conn): (r: Conn)
    requires Wf(c)
    ensures Extends(c, r)
  {
    CloseIfDone(c.(slots := ClearWaiters(c.slots), shut := c.shut.(disconnecting := true)))
  }

  // ----- sending ---------------------------------------------------------------------------

  /** src/stream.rs:1005-1010 */
  function Available(c: Conn, id: nat): (n: nat)
    requires id in c.streams
  {
    Capacity(c.streams[id].out, c.sending.window)
  }

  function Capacity(out: Out, conWindow: int): (n: nat) {
    var a, b := Window.Size(out.window), Window.Size(conWindow);
    if a <= b then a else b
  }

  /** src/stream.rs:715-722 */
  function Woken(s: Stream, conWindow: int): (r: Stream) {
    if s.out.waits && Capacity(s.out, conWindow) > 0 then s.(out := Wake(s.out).(timer := false)) else s
  }

  /** What makes a poll answer Pending: no error, an open half, and no capacity. */
  predicate MustWait(c: Conn, id: nat)
    requires id in c.streams
  {
    && !c.streams[id].life.error && !c.shut.error
    && c.streams[id].life.send != Closed
    && Available(c, id) == 0
  }

  /** src/stream.rs:1089-1114 */
  function PollCapacity(c: Conn, id: nat): (r: Conn)
    requires Wf(c) && id in c.streams
    ensures Extends(c, r)
  {
    var s := c.streams[id];
    if !MustWait(c, id) then CancelCapacity(c, id)
    else SetStream(c, id, s.(out := s.out.(waits := true, timer := s.out.timer || c.cfg.timed, waker := true, parked := true)))
  }

  function CancelCapacity(c: Conn, id: nat): (r: Conn)
    requires Wf(c) && id in c.streams
    ensures Extends(c, r)
  {
    var s := c.streams[id];
    SetStream(c, id, s.(out := s.out.(waits := false, timer := false, parked := false)))
  }

  /** src/stream.rs:1028-1050 */
  function CapacityTimeout(c: Conn, id: nat): (r: Conn)
    requires Wf(c) && id in c.streams
    ensures Extends(c, r)
  {
    var s := c.streams[id];
    var c' := SetStream(c, id, s.(out := s.out.(timer := false)));
    if !s.out.waits || s.life.send == Closed || Available(c, id) > 0 then c' else ResetSilent(c', id)
  }

  function SendsPayload(s: Stream): (b: bool) {
    s.life.send == Payload && !s.life.error
  }

  /** One DATA frame of src/stream.rs:932-963. */
  function SendChunk(c: Conn, id: nat, len: nat, frame: nat, eof: bool): (r: Conn)
    requires Wf(c) && id in c.streams
    ensures Extends(c, r)
  {
    var win := Available(c, id);
    if !SendsPayload(c.streams[id]) || win == 0 || len == 0 then c
    else
      var size := Min3(win, len, frame);
      Charge(if eof && size == len then Shut(c, id, false, true, false) else c, id, size)
  }

  /** src/stream.rs:955-959 */
  function Charge(c: Conn, id: nat, size: nat): (r: Conn)
    requires Wf(c) && id in c.streams && size <= c.streams[id].out.window && size <= c.sending.window
    ensures Extends(c, r)
  {
    var s := c.streams[id];
    SetStream(c, id, s.(out := s.out.(window := s.out.window - size, sent := s.out.sent + size)))
      .(sending := c.sending.(window := c.sending.window - size, sent := c.sending.sent + size))
  }

  /** src/stream.rs:840-868 */
  function SendResponse(c: Conn, id: nat, eof: bool, fits: bool): (r: Conn)
    requires Wf(c) && id in c.streams
    ensures Extends(c, r)
  {
    var life := c.streams[id].life;
    if life.error || life.send != Idle || !fits then c else SendHeaders(c, id, eof)
  }

  /** src/stream.rs:990-1002 */
  function SendTrailers(c: Conn, id: nat, fits: bool): (r: Conn)
    requires Wf(c) && id in c.streams
    ensures Extends(c, r)
  {
    if c.streams[id].life.send == Payload && fits then Shut(c, id, false, true, false) else c
  }

  /** src/stream.rs:919-930 */
  function SendEmpty(c: Conn, id: nat): (r: Conn)
    requires Wf(c) && id in c.streams
    ensures Extends(c, r)
  {
    if SendsPayload(c.streams[id]) then Shut(c, id, false, true, false) else c
  }

  // ----- windows the peer changes ----------------------------------------------------------

  /** src/connection.rs:1110-1153 */
  function RecvUpdate(c: Conn, id: nat, inc: nat, pending: bool): (r: Conn)
    requires Wf(c)
    ensures Extends(c, r)
  {
    if id == 0 then OrFail(c, ConnectionUpdate(c, inc))
    else if id in c.mapped then StreamUpdate(c, id, inc)
    else if pending || UsedId(c, id) || !c.cfg.strict then c
    else FailAll(c)
  }

  /** A connection error where there is no result. */
  function OrFail(c: Conn, r: Option<Conn>): (c': Conn)
    requires Wf(c) && (r.Some? ==> Extends(c, r.value))
    ensures Extends(c, c')
  {
    match r
    case Some(c') => c'
    case None => FailAll(c)
  }

  /** Only capacity that was not there before is announced to the streams. */
  function ConnectionUpdate(c: Conn, inc: nat): (r: Option<Conn>)
    requires Wf(c)
    ensures r.Some? ==> Extends(c, r.value)
  {
    if inc == 0 || c.sending.window + inc > Window.MAX then None
    else if Window.Size(c.sending.window) == 0 then Some(Broadcast(CreditConnection(c, inc)))
    else Some(CreditConnection(c, inc))
  }

  function CreditConnection(c: Conn, inc: nat): (r: Conn)
    requires Wf(c)
    ensures Extends(c, r)
  {
    c.(sending := c.sending.(window := c.sending.window + inc, credit := c.sending.credit + inc))
  }

  function Credited(o: Out, inc: nat): (r: Out) {
    o.(window := o.window + inc, credit := o.credit + inc)
  }

  /** src/stream.rs:724-736, and the reset that answers an error. */
  function StreamUpdate(c: Conn, id: nat, inc: nat): (r: Conn)
    requires Wf(c) && id in c.streams
    ensures Extends(c, r)
  {
    var s := c.streams[id];
    if inc == 0 || s.out.window + inc > Window.MAX then ResetSilent(c, id)
    else SetStream(c, id, Woken(s.(out := Credited(s.out, inc)), c.sending.window))
  }

  /** src/connection.rs:1126-1131: all streams in the map hear of the new capacity. */
  function Broadcast(c: Conn): (r: Conn)
    requires Wf(c)
    ensures Extends(c, r)
  {
    c.(streams := map id | id in c.streams :: if id in c.mapped then Woken(c.streams[id], c.sending.window) else c.streams[id])
  }

  /** src/connection.rs:626-632 */
  function UsedId(c: Conn, id: nat): (b: bool) {
    if (id % 2 == 1) == c.cfg.server then id <= c.ids.last else id < c.ids.next
  }

  /** src/stream.rs:738-759 */
  function Adjust(c: Conn, id: nat, upd: int): (r: Conn)
    requires Wf(c) && id in c.streams
    ensures Extends(c, r)
  {
    var s := c.streams[id];
    SetStream(c, id, Woken(s.(out := s.out.(window := s.out.window + upd)), c.sending.window))
  }

  /** src/connection.rs:1083-1102, for the streams of the map in some order; false if a
      window left 32 bits. */
  function AdjustAll(c: Conn, order: seq<nat>, upd: int): (r: (Conn, bool))
    requires Wf(c) && forall i :: 0 <= i < |order| ==> order[i] in c.streams
    ensures Extends(c, r.0)
    decreases |order|
  {
    if |order| == 0 then (c, true)
    else
      if !Window.Fits(c.streams[order[0]].out.window + upd) then (c, false)
      else AdjustAll(Adjust(c, order[0], upd), order[1..], upd)
  }

  /** src/connection.rs:1035-1107; maxStreams and initial are the settings the frame has. */
  function RecvSettings(c: Conn, maxStreams: Option<nat>, initial: Option<nat>, order: seq<nat>): (r: Conn)
    requires Wf(c) && forall i :: 0 <= i < |order| ==> order[i] in c.streams
    ensures Extends(c, r)
  {
    match initial
    case None => LimitStreams(c, maxStreams)
    case Some(val) =>
      var (c', fine) := ChangeInitial(LimitStreams(c, maxStreams), val, order);
      if fine then c' else FailAll(c')
  }

  /** Without the setting the first frame removes the limit. */
  function LimitStreams(c: Conn, max: Option<nat>): (r: Conn)
    requires Wf(c)
    ensures Extends(c, r)
  {
    c.(remoteSettings := true,
       slots := if max.Some? || !c.remoteSettings then WakeAllWaiters(c.slots).(max := max) else c.slots)
  }

  function ChangeInitial(c: Conn, val: nat, order: seq<nat>): (r: (Conn, bool))
    requires Wf(c) && forall i :: 0 <= i < |order| ==> order[i] in c.streams
    ensures Extends(c, r.0)
  {
    if val == c.sending.initial then (SetInitial(c, val), true)
    else AdjustAll(SetInitial(c, val), order, val - c.sending.initial)
  }

  function SetInitial(c: Conn, val: nat): (r: Conn)
    requires Wf(c)
    ensures Extends(c, r)
  {
    c.(sending := c.sending.(initial := val))
  }

  // ----- receiving -------------------------------------------------------------------------

  function Received(c: Conn, n: nat): (r: Conn)
    requires Wf(c)
    ensures Extends(c, r)
  {
    c.(receiving := c.receiving.(window := c.receiving.window - n, size := c.receiving.size + n, accepted := c.receiving.accepted + n))
  }

  /** src/connection.rs:580-595 */
  function Consumed(c: Conn, n: nat): (r: Conn)
    requires Wf(c) && c.cfg.conThreshold >= 0
    ensures Extends(c, r)
  {
    var size := c.receiving.size - n;
    var (window, inc) := Window.Update(c.receiving.window, size, c.cfg.conWindow, c.cfg.conThreshold);
    c.(receiving := c.receiving.(window := window, size := size, granted := c.receiving.granted + if inc.Some? then inc.value else 0))
  }

  /** src/stream.rs:34-43 and 304-319 */
  function NewToken(c: Conn, id: nat, n: nat): (r: Conn)
    requires Wf(c) && id in c.streams
    ensures Extends(c, r) && r.receiving.tokens == c.receiving.tokens + [Token(id, n)]
  {
    var s := c.streams[id];
    var c' := Received(SetStream(c, id, s.(into := s.into.(window := s.into.window - n, size := s.into.size + n))), n);
    c'.(receiving := c'.receiving.(tokens := c.receiving.tokens + [Token(id, n)]))
  }

  /** src/stream.rs:336-343: the configured window counts, acknowledged or not. */
  function Release(s: Stream, n: nat, cfg: Config): (r: Stream)
    requires cfg.threshold >= 0
    ensures r.out == s.out && r.life == s.life
  {
    var size := s.into.size - n;
    s.(into := s.into.(
      size := size,
      window := if s.life.recv == Closed then s.into.window else Window.Update(s.into.window, size, cfg.window, cfg.threshold).0))
  }

  /** src/stream.rs:56-70 and 322-358 */
  function ConsumeToken(c: Conn, t: nat, n: nat): (r: Conn)
    requires Wf(c) && c.cfg.conThreshold >= 0 && c.cfg.threshold >= 0
    requires t < |c.receiving.tokens| && n <= c.receiving.tokens[t].size
    ensures Extends(c, r)
  {
    var token := c.receiving.tokens[t];
    var c' := SetStream(c, token.stream, Release(c.streams[token.stream], n, c.cfg));
    Consumed(c'.(receiving := c.receiving.(tokens := c.receiving.tokens[t := token.(size := token.size - n)])), n)
  }

  /** src/stream.rs:113-119 */
  function DropToken(c: Conn, t: nat): (r: Conn)
    requires Wf(c) && c.cfg.conThreshold >= 0 && c.cfg.threshold >= 0 && t < |c.receiving.tokens|
    ensures Extends(c, r)
  {
    var size := c.receiving.tokens[t].size;
    if size > 0 then ConsumeToken(c, t, size) else c
  }

  /** src/stream.rs:78-111 */
  function MergeTokens(c: Conn, a: nat, b: nat): (r: Conn)
    requires Wf(c) && a < |c.receiving.tokens| && b < |c.receiving.tokens| && a != b
    requires c.receiving.tokens[a].stream == c.receiving.tokens[b].stream
    ensures Extends(c, r)
  {
    var ts := c.receiving.tokens;
    c.(receiving := c.receiving.(tokens := ts[a := Token(ts[a].stream, ts[a].size + ts[b].size)][b := Token(ts[b].stream, 0)]))
  }

  /** src/connection.rs:948-983 */
  function RecvData(c: Conn, id: nat, flow: nat, len: nat, eof: bool, pending: bool): (r: Conn)
    requires Wf(c) && c.cfg.conThreshold >= 0 && c.cfg.threshold >= 0 && len <= flow
    ensures Extends(c, r)
  {
    if flow > c.receiving.window then FailAll(c)
    else if id in c.mapped then StreamData(c, id, flow, len, eof)
    else if pending || !c.cfg.strict || UsedId(c, id) then Consumed(Received(c, flow), flow)
    else FailAll(c)
  }

  /** src/stream.rs:638-702, and the reset that answers an error. */
  function StreamData(c: Conn, id: nat, flow: nat, len: nat, eof: bool): (r: Conn)
    requires Wf(c) && c.cfg.conThreshold >= 0 && c.cfg.threshold >= 0 && len <= flow && id in c.streams
    ensures Extends(c, r)
  {
    if flow > c.streams[id].into.window then ResetSilent(Consumed(Received(c, flow), flow), id)
    else Deliver(Accept(c, id, flow, len), id, |c.receiving.tokens|, len, eof)
  }

  /** Padding counts toward flow control, but is not delivered. */
  function Accept(c: Conn, id: nat, flow: nat, len: nat): (r: Conn)
    requires Wf(c) && c.cfg.conThreshold >= 0 && c.cfg.threshold >= 0 && len <= flow && id in c.streams
    ensures Extends(c, r) && |r.receiving.tokens| == |c.receiving.tokens| + 1
  {
    var c' := NewToken(c, id, flow);
    if flow > len then ConsumeToken(c', |c.receiving.tokens|, flow - len) else c'
  }

  function SetContent(c: Conn, id: nat, content: ContentLength): (r: Conn)
    requires Wf(c) && id in c.streams
    ensures Extends(c, r)
  {
    var s := c.streams[id];
    SetStream(c, id, s.(into := s.into.(content := content)))
  }

  function Deliver(c: Conn, id: nat, t: nat, len: nat, eof: bool): (r: Conn)
    requires Wf(c) && c.cfg.conThreshold >= 0 && c.cfg.threshold >= 0 && id in c.streams && t < |c.receiving.tokens|
    ensures Extends(c, r)
  {
    var s := c.streams[id];
    match TakePayload(s.life.recv, s.into.content, len, eof)
    case Took(content) =>
      var c' := SetContent(c, id, content);
      if eof then Shut(c', id, true, false, false) else c'
    case Refused(content) => ResetSilent(DropToken(SetContent(c, id, content), t), id)
  }

  /** src/stream.rs:761-786; true if the window left 32 bits. */
  function AckStream(s: Stream, upd: int, cfg: Config): (r: (Stream, bool))
    requires cfg.threshold >= 0
    ensures r.0.life == s.life && r.0.out == s.out
  {
    if s.life.recv == Closed || upd == 0 then (s, false)
    else if !Window.Fits(s.into.window + upd) then (s, true)
    else (s.(into := s.into.(window := Window.Update(s.into.window + upd, s.into.size, cfg.window, cfg.threshold).0)), false)
  }

  /** The streams whose window the acknowledgment overflows. */
  function AckFailures(c: Conn): (ids: set<nat>)
    requires Wf(c) && c.cfg.threshold >= 0
    ensures ids <= c.mapped
  {
    set id | id in c.mapped && AckStream(c.streams[id], c.cfg.window - Window.DEFAULT, c.cfg).1
  }

  function AckAll(c: Conn): (r: Conn)
    requires Wf(c) && !c.receiving.acked && c.cfg.threshold >= 0
    ensures Extends(c, r)
  {
    c.(receiving := c.receiving.(acked := true),
       streams := map id | id in c.streams ::
                    if id in c.mapped then AckStream(c.streams[id], c.cfg.window - Window.DEFAULT, c.cfg).0 else c.streams[id])
  }

  /** src/connection.rs:1003-1034; order lists the failed streams. */
  function RecvAck(c: Conn, order: seq<nat>): (r: Conn)
    requires Wf(c) && c.cfg.threshold >= 0 && forall i :: 0 <= i < |order| ==> order[i] in c.streams
    ensures Extends(c, r)
  {
    if c.receiving.acked then FailAll(c) else FailEach(AckAll(c), order)
  }

  /** src/connection.rs:745-880 */
  function RecvHeaders(c: Conn, id: nat, h: Headers, pending: bool): (r: Conn)
    requires Wf(c)
    ensures Extends(c, r)
  {
    if id % 2 == 0 then FailAll(c)
    else if id in c.mapped then StreamHeaders(c, id, h)
    else if !c.cfg.server then
      if id >= c.ids.next && c.cfg.strict then FailAll(c) else c
    else if id <= c.ids.last then
      if pending then c else FailAll(c)
    else
      var c' := c.(ids := c.ids.(last := id));
      if c.shut.disconnecting then c'
      else if c.cfg.maxRemote.Some? && c.slots.remote >= c.cfg.maxRemote.value then c'
      else if !GoodRequest(h.pseudo) then c'
      else StreamHeaders(Insert(c', id, false), id, h)
  }

  /** src/stream.rs:536-636, and the reset that answers an error. */
  function StreamHeaders(c: Conn, id: nat, h: Headers): (r: Conn)
    requires Wf(c) && id in c.streams
    ensures Extends(c, r)
  {
    var s := c.streams[id];
    match HearHeaders(c.cfg.server, s.life.recv, s.into.content, h)
    case Interim => c
    case Opened(content, eof) =>
      var c' := SetContent(c, id, content);
      if eof then Shut(c', id, true, false, false)
      else
        var s' := c'.streams[id];
        SetStream(c', id, s'.(life := s'.life.(recv := Payload)))
    case Ended => Shut(c, id, true, false, false)
    case Malformed => ResetSilent(c, id)
  }

  /** src/connection.rs:1159-1190 */
  function RecvReset(c: Conn, id: nat): (r: Conn)
    requires Wf(c)
    ensures Extends(c, r)
  {
    if id == 0 then FailAll(c)
    else if id in c.mapped then Shut(c, id, true, true, true)
    else c
  }

  /** src/connection.rs:884-946: a frame that is invalid for its stream only. */
  function RecvInvalid(c: Conn, id: nat, headers: bool): (r: Conn)
    requires Wf(c)
    ensures Extends(c, r)
  {
    if id in c.mapped then ResetSilent(c, id)
    else if headers && id % 2 == 0 then FailAll(c)
    else if headers && c.cfg.server then
      if id <= c.ids.last then FailAll(c) else c.(ids := c.ids.(last := id))
    else c
  }

  /** Streams this side opened beyond the last one the peer processed. */
  function Unprocessed(c: Conn, last: nat): (ids: set<nat>)
    ensures ids <= c.mapped
  {
    set id | id in c.mapped && !c.cfg.server && id > last
  }

  /** src/connection.rs:1206-1238; order lists the unprocessed streams. */
  function RecvGoAway(c: Conn, last: nat, order: seq<nat>): (r: Conn)
    requires Wf(c) && forall i :: 0 <= i < |order| ==> order[i] in c.streams
    ensures Extends(c, r)
  {
    DisconnectWhenReady(FailEach(c.(shut := c.shut.(goAway := Some(last))), order))
  }

  /** Timeouts and a failed transport (src/connection.rs:1240-1326). */
  function Abort(c: Conn, close: bool): (r: Conn)
    requires Wf(c)
    ensures Extends(c, r)
  {
    var c' := FailAll(c);
    c'.(shut := c'.shut.(forced := true, closed := c'.shut.closed || close))
  }

  function ForceClose(c: Conn): (r: Conn)
    requires Wf(c)
    ensures Extends(c, r)
  {
    c.(shut := c.shut.(forced := true, closed := true))
  }
}
