/** The capacity timer: streams in buckets by the second they expire in (src/timer.rs). */
module Timer {
  import opened Prelude

  type Id = nat

  /** streams maps a stream to its bucket, buckets a second to the streams in it. */
  datatype Wheel = Wheel(running: bool, current: nat, streams: map<Id, nat>, buckets: map<nat, set<Id>>)

  /** The two maps agree both ways, so that a stream is in exactly one bucket; no bucket is
      overdue; the task runs as long as there are buckets. */
  ghost predicate Valid(w: Wheel) {
    && (forall s :: s in w.streams ==> w.streams[s] in w.buckets && s in w.buckets[w.streams[s]])
    && (forall k, s :: k in w.buckets && s in w.buckets[k] ==> s in w.streams && w.streams[s] == k)
    && (forall k :: k in w.buckets ==> w.current <= k)
    && (w.running <==> w.buckets != map[])
  }

  const EMPTY := Wheel(false, 0, map[], map[])

  // ----- steps -----------------------------------------------------------------------------

  function Bucket(w: Wheel, key: nat): (b: set<Id>) {
    if key in w.buckets then w.buckets[key] else {}
  }

  /** src/timer.rs:55-88; elapsed is read from the clock if the task does not run. */
  function Register(w: Wheel, timeout: nat, elapsed: nat, id: Id): (r: Wheel) {
    var current := if w.running then w.current else elapsed;
    var key := current + timeout;
    var joined := w.buckets[key := Bucket(w, key) + {id}];
    var left := if id in w.streams && w.streams[id] != key && w.streams[id] in joined
                then joined[w.streams[id] := joined[w.streams[id]] - {id}] else joined;
    Wheel(true, current, w.streams[id := key], left)
  }

  /** src/timer.rs:39-46 */
  function Unregister(w: Wheel, id: Id): (r: Wheel) {
    if id !in w.streams then w
    else
      var key := w.streams[id];
      w.(streams := w.streams - {id},
         buckets := if key in w.buckets then w.buckets[key := w.buckets[key] - {id}] else w.buckets)
  }

  /** The streams of the buckets that are due. */
  function Due(w: Wheel): (ids: set<Id>) {
    set s | s in w.streams && w.streams[s] <= w.current
  }

  /** src/timer.rs:96-128 */
  function Tick(w: Wheel): (r: Wheel) {
    if !w.running then w
    else
      var buckets := map k | k in w.buckets && k > w.current :: w.buckets[k];
      Wheel(buckets != map[], w.current + 1, w.streams - Due(w), buckets)
  }

  lemma RegisterKeepsValid(w: Wheel, timeout: nat, elapsed: nat, id: Id)
    requires Valid(w)
    ensures Valid(Register(w, timeout, elapsed, id))
  {
  }

  lemma UnregisterKeepsValid(w: Wheel, id: Id)
    requires Valid(w)
    ensures Valid(Unregister(w, id))
  {
    assert id in w.streams ==> Unregister(w, id).buckets.Keys == w.buckets.Keys;
    assert w.buckets != map[] ==> exists k :: k in w.buckets;
  }

  lemma TickKeepsValid(w: Wheel)
    requires Valid(w)
    ensures Valid(Tick(w))
  {
  }

  // ----- runs --------------------------------------------------------------------------------

  datatype Event = Registered(id: Id, timeout: nat, elapsed: nat) | Unregistered(id: Id) | Ticked

  function Step(w: Wheel, e: Event): (r: Wheel) {
    match e
    case Registered(id, timeout, elapsed) => Register(w, timeout, elapsed, id)
    case Unregistered(id) => Unregister(w, id)
    case Ticked => Tick(w)
  }

  /** Whether id is among the streams an event expires. */
  predicate Expires(w: Wheel, e: Event, id: Id) {
    e == Ticked && w.running && id in Due(w)
  }

  /** The numbers, counted from one, of the ticks at which id expires. */
  function ExpiryTicks(w: Wheel, es: seq<Event>, id: Id, from: nat): (ticks: seq<nat>)
    decreases |es|
  {
    if |es| == 0 then []
    else
      var n := if es[0] == Ticked then from + 1 else from;
      (if Expires(w, es[0], id) then [n] else []) + ExpiryTicks(Step(w, es[0]), es[1..], id, n)
  }

  function Ticks(es: seq<Event>): (n: nat) {
    if |es| == 0 then 0 else (if es[0] == Ticked then 1 else 0) + Ticks(es[1..])
  }

  ghost predicate Untouched(es: seq<Event>, id: Id) {
    forall i :: 0 <= i < |es| ==> !(es[i].Registered? && es[i].id == id) && !(es[i].Unregistered? && es[i].id == id)
  }

  lemma StepKeepsValid(w: Wheel, e: Event)
    requires Valid(w)
    ensures Valid(Step(w, e))
  {
    match e
    case Registered(id, timeout, elapsed) => RegisterKeepsValid(w, timeout, elapsed, id);
    case Unregistered(id) => UnregisterKeepsValid(w, id);
    case Ticked => TickKeepsValid(w);
  }

  /** In every reachable state the two maps agree. */
  lemma {:induction false} ReachableIsValid(w: Wheel, es: seq<Event>)
    requires Valid(w)
    ensures Valid(RunAll(w, es))
    decreases |es|
  {
    if |es| > 0 {
      StepKeepsValid(w, es[0]);
      ReachableIsValid(Step(w, es[0]), es[1..]);
    }
  }

  function RunAll(w: Wheel, es: seq<Event>): (r: Wheel)
    decreases |es|
  {
    if |es| == 0 then w else RunAll(Step(w, es[0]), es[1..])
  }

  lemma StepAside(w: Wheel, e: Event, id: Id)
    requires Valid(w) && Untouched([e], id)
    ensures id in Step(w, e).streams <==> id in w.streams && !Expires(w, e, id)
    ensures id in Step(w, e).streams ==> Step(w, e).streams[id] == w.streams[id]
    ensures id in w.streams ==> w.running && Step(w, e).current == w.current + if e == Ticked then 1 else 0
  {
    assert [e][0] == e;
  }

  /** A stream that is not registered does not expire. */
  lemma {:induction false} UnregisteredNeverExpires(w: Wheel, es: seq<Event>, id: Id, from: nat)
    requires Valid(w) && id !in w.streams && Untouched(es, id)
    ensures ExpiryTicks(w, es, id, from) == []
    decreases |es|
  {
    if |es| > 0 {
      assert Untouched([es[0]], id) && Untouched(es[1..], id);
      StepAside(w, es[0], id);
      StepKeepsValid(w, es[0]);
      UnregisteredNeverExpires(Step(w, es[0]), es[1..], id, if es[0] == Ticked then from + 1 else from);
    }
  }

  lemma {:induction false} ExpiresWhenDue(w: Wheel, es: seq<Event>, id: Id, from: nat)
    requires Valid(w) && id in w.streams && Untouched(es, id)
    ensures var left := w.streams[id] - w.current;
            ExpiryTicks(w, es, id, from) == if Ticks(es) > left then [from + left + 1] else []
    decreases |es|
  {
    if |es| > 0 {
      assert Untouched([es[0]], id) && Untouched(es[1..], id);
      StepAside(w, es[0], id);
      StepKeepsValid(w, es[0]);
      var n := if es[0] == Ticked then from + 1 else from;
      if Expires(w, es[0], id) {
        UnregisteredNeverExpires(Step(w, es[0]), es[1..], id, n);
      } else {
        ExpiresWhenDue(Step(w, es[0]), es[1..], id, n);
      }
    }
  }

  /** A stream registered with a timeout expires at exactly the tick after that many
      ticks, once, whatever other streams do, if it is left alone. */
  lemma ExpiresExactly(w: Wheel, id: Id, timeout: nat, elapsed: nat, es: seq<Event>)
    requires Valid(w) && Untouched(es, id)
    ensures ExpiryTicks(Register(w, timeout, elapsed, id), es, id, 0) == if Ticks(es) > timeout then [timeout + 1] else []
  {
    RegisterKeepsValid(w, timeout, elapsed, id);
    ExpiresWhenDue(Register(w, timeout, elapsed, id), es, id, 0);
  }

  // ----- one tick, bucket by bucket --------------------------------------------------------------

  /** Some due buckets are drained: their streams are expired, the others are as they were. */
  ghost predicate Drained(w: Wheel, streams: map<Id, nat>, buckets: map<nat, set<Id>>, expired: set<Id>) {
    && (forall k :: k in buckets ==> k in w.buckets && buckets[k] == w.buckets[k])
    && (forall k :: k in w.buckets && k > w.current ==> k in buckets)
    && (forall s :: s in streams <==> s in w.streams && w.streams[s] in buckets)
    && (forall s :: s in streams ==> streams[s] == w.streams[s])
    && (forall s :: s in expired <==> s in w.streams && w.streams[s] !in buckets)
  }

  lemma OneBucketLess(w: Wheel, streams: map<Id, nat>, buckets: map<nat, set<Id>>, expired: set<Id>, key: nat)
    requires Valid(w) && Drained(w, streams, buckets, expired) && key in buckets && key <= w.current
    ensures var gone := set s | s in buckets[key] && s in streams && streams[s] == key;
            Drained(w, streams - gone, buckets - {key}, expired + gone)
  {
  }

  lemma AllDrained(w: Wheel, streams: map<Id, nat>, buckets: map<nat, set<Id>>, expired: set<Id>)
    requires Valid(w) && w.running && Drained(w, streams, buckets, expired) && forall k :: k in buckets ==> k > w.current
    ensures Tick(w) == Wheel(buckets != map[], w.current + 1, streams, buckets) && expired == Due(w)
  {
  }

  /** The first key of the ordered map. */
  lemma FirstOf(keys: set<nat>) returns (first: nat)
    requires keys != {}
    ensures first in keys && forall x :: x in keys ==> first <= x
  {
    var k :| k in keys;
    first := k;
    if keys != {k} {
      var m := FirstOf(keys - {k});
      first := if k <= m then k else m;
      forall x | x in keys
        ensures first <= x
      {
        assert x == k || x in keys - {k};
      }
    }
  }

  /** src/timer.rs:103-112; a stream that has moved on to another bucket stays. */
  method Drain(streams0: map<Id, nat>, key: nat, items: set<Id>) returns (streams: map<Id, nat>, gone: set<Id>)
    ensures gone == set s | s in items && s in streams0 && streams0[s] == key
    ensures streams == streams0 - gone
  {
    streams, gone := streams0, {};
    var todo := items;
    while todo != {}
      invariant todo <= items
      invariant gone == set s | s in items - todo && s in streams0 && streams0[s] == key
      invariant streams == streams0 - gone
      decreases |todo|
    {
      var io :| io in todo;
      todo := todo - {io};
      if io in streams {
        var hnd := streams[io];
        streams := streams - {io};
        if hnd == key {
          gone := gone + {io};
        } else {
          streams := streams[io := hnd];
        }
      }
    }
  }

  // ----- the running timer ---------------------------------------------------------------------

  class Driver {
    var running: bool
    var current: nat
    var streams: map<Id, nat>
    var buckets: map<nat, set<Id>>

    ghost function State(): (w: Wheel)
      reads this
    {
      Wheel(running, current, streams, buckets)
    }

    constructor ()
      ensures Valid(State()) && State() == EMPTY
    {
      running, current, streams, buckets := false, 0, map[], map[];
    }

    method Add(timeout: nat, elapsed: nat, id: Id)
      requires Valid(State())
      modifies this
      ensures Valid(State()) && State() == Register(old(State()), timeout, elapsed, id)
    {
      RegisterKeepsValid(State(), timeout, elapsed, id);
      if !running {
        current := elapsed;
      }
      var key := current + timeout;
      Join(key, id);
      if id in streams {
        Leave(streams[id], key, id);
      }
      streams := streams[id := key];
      if !running {
        running := true;
      }
    }

    method Join(key: nat, id: Id)
      modifies this`buckets
      ensures buckets == old(buckets)[key := Bucket(old(State()), key) + {id}]
    {
      if key in buckets {
        buckets := buckets[key := buckets[key] + {id}];
      } else {
        assert {} + {id} == {id};
        buckets := buckets[key := {id}];
      }
    }

    method Leave(was: nat, key: nat, id: Id)
      modifies this`buckets
      ensures buckets == if was != key && was in old(buckets) then old(buckets)[was := old(buckets)[was] - {id}] else old(buckets)
    {
      if was != key && was in buckets {
        buckets := buckets[was := buckets[was] - {id}];
      }
    }

    method Remove(id: Id)
      requires Valid(State())
      modifies this
      ensures Valid(State()) && State() == Unregister(old(State()), id)
    {
      UnregisterKeepsValid(State(), id);
      if id in streams {
        var key := streams[id];
        streams := streams - {id};
        if key in buckets {
          buckets := buckets[key := buckets[key] - {id}];
        }
      }
    }

    /** One second: the buckets up to the current second are drained. */
    method OnTick() returns (expired: set<Id>, stop: bool)
      requires Valid(State()) && running
      modifies this
      ensures Valid(State()) && State() == Tick(old(State())) && expired == Due(old(State())) && stop == !running
    {
      TickKeepsValid(State());
      var now := current;
      current := now + 1;
      streams, buckets, expired := DrainDue(streams, buckets, now, Wheel(running, now, streams, buckets));
      running := buckets != map[];
      stop := !running;
    }
  }

  /** src/timer.rs:100-119: bucket by bucket, first one first. */
  method DrainDue(streams0: map<Id, nat>, buckets0: map<nat, set<Id>>, now: nat, ghost w: Wheel)
    returns (streams: map<Id, nat>, buckets: map<nat, set<Id>>, expired: set<Id>)
    requires Valid(w) && w.running && w == Wheel(true, now, streams0, buckets0)
    ensures Tick(w) == Wheel(buckets != map[], now + 1, streams, buckets) && expired == Due(w)
  {
    streams, buckets, expired := streams0, buckets0, {};
    while buckets.Keys != {}
      invariant Drained(w, streams, buckets, expired)
      decreases |buckets|
    {
      ghost var first := FirstOf(buckets.Keys);
      var key :| key in buckets.Keys && forall x :: x in buckets.Keys ==> key <= x;
      if key > now {
        break;
      }
      OneBucketLess(w, streams, buckets, expired, key);
      var gone;
      streams, gone := Drain(streams, key, buckets[key]);
      buckets := buckets - {key};
      expired := expired + gone;
    }
    AllDrained(w, streams, buckets, expired);
  }
}
