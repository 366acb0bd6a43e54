/**
 The node's event hub: numbered events, a ring of recent ones, a bounded queue per
 subscriber.  Numbering and ring are updated under a lock; the fan-out to the
 queues is not, so publishers and subscribers interleave.
 */
module EventHub {
  import opened Text

  datatype Body = Body(uri: string, run: string, event: string)

  datatype Event = Event(id: nat, body: Body)

  /** `deque(maxlen=buffer).append`: the oldest event makes room. */
  function RingAppend(ring: seq<Event>, e: Event, buffer: nat): seq<Event> {
    var all := ring + [e];
    if |all| <= buffer then all else all[|all| - buffer..]
  }

  /** `put_nowait`: a full queue drops the event. */
  function Offer(queue: seq<Event>, e: Event, capacity: nat): seq<Event> {
    if |queue| < capacity then queue + [e] else queue
  }

  /** The buffered events after a cursor. */
  function ReplaySince(ring: seq<Event>, last: int): seq<Event> {
    if ring == [] then []
    else (if ring[0].id > last then [ring[0]] else []) + ReplaySince(ring[1..], last)
  }

  // ----------------------------------------------------- the hub, one thread

  const QUEUE_SIZE: nat := 2000

  class Queue {
    var items: seq<Event>

    constructor ()
      ensures items == []
    {
      items := [];
    }

    method PutNowait(e: Event)
      modifies this
      ensures items == Offer(old(items), e, QUEUE_SIZE)
    {
      if |items| < QUEUE_SIZE {
        items := items + [e];
      }
    }
  }

  class Hub {
    const buffer: nat
    var lastId: nat
    var ring: seq<Event>
    var subs: set<Queue>

    constructor (buffer: nat)
      ensures this.buffer == buffer && lastId == 0 && ring == [] && subs == {}
    {
      this.buffer := buffer;
      lastId, ring, subs := 0, [], {};
    }

    /** The locked part of `publish`: number, remember, snapshot the subscribers. */
    method Admit(body: Body) returns (e: Event, targets: set<Queue>)
      modifies this
      ensures e == Event(old(lastId) + 1, body) && lastId == e.id
      ensures ring == RingAppend(old(ring), e, buffer)
      ensures subs == old(subs) && targets == subs
    {
      lastId := lastId + 1;
      e := Event(lastId, body);
      var all := ring + [e];
      ring := if |all| <= buffer then all else all[|all| - buffer..];
      targets := subs;
    }

    method Publish(body: Body) returns (id: nat)
      modifies this, subs
      ensures id == old(lastId) + 1 == lastId && subs == old(subs)
      ensures ring == RingAppend(old(ring), Event(id, body), buffer)
      ensures forall q :: q in subs ==> q.items == Offer(old(q.items), Event(id, body), QUEUE_SIZE)
    {
      var e, targets := Admit(body);
      var left := targets;
      while left != {}
        invariant left <= targets == subs == old(subs)
        invariant lastId == e.id && ring == RingAppend(old(ring), e, buffer)
        invariant forall q :: q in targets - left ==> q.items == Offer(old(q.items), e, QUEUE_SIZE)
        invariant forall q :: q in left ==> q.items == old(q.items)
        decreases left
      {
        var q :| q in left;
        q.PutNowait(e);
        left := left - {q};
      }
      return e.id;
    }

    method Subscribe() returns (q: Queue)
      modifies this
      ensures fresh(q) && q.items == [] && subs == old(subs) + {q}
      ensures lastId == old(lastId) && ring == old(ring)
    {
      q := new Queue();
      subs := subs + {q};
    }

    method Unsubscribe(q: Queue)
      modifies this
      ensures subs == old(subs) - {q} && lastId == old(lastId) && ring == old(ring)
    {
      subs := subs - {q};
    }

    method Replay(last: int) returns (events: seq<Event>)
      ensures events == ReplaySince(ring, last)
    {
      events := [];
      assert ring[0..] == ring;
      for i := 0 to |ring|
        invariant events + ReplaySince(ring[i..], last) == ReplaySince(ring, last)
      {
        assert ring[i..][1..] == ring[i + 1..];
        if ring[i].id > last {
          events := events + [ring[i]];
        }
      }
    }
  }

  // -------------------------------------------------- the hub, many threads

  /** A published body and the thread that published it; event k + 1 is at index k. */
  datatype Published = Published(author: nat, body: Body)

  /** A publisher between the lock and the end of its fan-out. */
  datatype Fanout = Fanout(event: Event, pending: set<nat>)

  /** A subscriber: its queue, and for the proofs what it took and what was dropped. */
  datatype Subscriber = Subscriber(live: bool, since: nat, taken: seq<Event>, queue: seq<Event>, dropped: set<nat>)
  {
    function Got(): seq<Event> { taken + queue }
  }

  datatype World = World(
    buffer: nat,
    capacity: nat,
    lastId: nat,
    ring: seq<Event>,
    subs: map<nat, Subscriber>,
    pubs: map<nat, Fanout>,
    log: seq<Published>)

  datatype Step =
    | Admit(p: nat, body: Body)
    | OfferTo(p: nat, s: nat)
    | Finish(p: nat)
    | Subscribe(s: nat)
    | Unsubscribe(s: nat)
    | Take(s: nat)

  function Init(buffer: nat, capacity: nat): World {
    World(buffer, capacity, 0, [], map[], map[], [])
  }

  predicate Enabled(w: World, step: Step) {
    match step
    case Admit(p, _) => p !in w.pubs
    case OfferTo(p, s) => p in w.pubs && s in w.pubs[p].pending && s in w.subs
    case Finish(p) => p in w.pubs && w.pubs[p].pending == {}
    case Subscribe(s) => s !in w.subs
    case Unsubscribe(s) => s in w.subs
    case Take(s) => s in w.subs && w.subs[s].queue != []
  }

  function Live(w: World): set<nat> {
    set s | s in w.subs && w.subs[s].live
  }

  function Next(w: World, step: Step): World
    requires Enabled(w, step)
  {
    match step
    case Admit(p, body) =>
      var e := Event(w.lastId + 1, body);
      w.(lastId := w.lastId + 1, ring := RingAppend(w.ring, e, w.buffer),
         pubs := w.pubs[p := Fanout(e, Live(w))], log := w.log + [Published(p, body)])
    case OfferTo(p, s) =>
      var f, sub := w.pubs[p], w.subs[s];
      w.(pubs := w.pubs[p := f.(pending := f.pending - {s})],
         subs := w.subs[s := sub.(queue := Offer(sub.queue, f.event, w.capacity),
                                  dropped := sub.dropped + if |sub.queue| < w.capacity then {} else {f.event.id})])
    case Finish(p) => w.(pubs := w.pubs - {p})
    case Subscribe(s) => w.(subs := w.subs[s := Subscriber(true, w.lastId, [], [], {})])
    case Unsubscribe(s) => w.(subs := w.subs[s := w.subs[s].(live := false)])
    case Take(s) =>
      var sub := w.subs[s];
      w.(subs := w.subs[s := sub.(taken := sub.taken + [sub.queue[0]], queue := sub.queue[1..])])
  }

  function Run(w: World, steps: seq<Step>): Option<World>
    decreases |steps|
  {
    if steps == [] then Some(w)
    else if !Enabled(w, steps[0]) then None
    else Run(Next(w, steps[0]), steps[1..])
  }

  // --------------------------------------------------------------- the ring

  function Events(log: seq<Published>): seq<Event> {
    seq(|log|, i requires 0 <= i < |log| => Event(i + 1, log[i].body))
  }

  function Min(a: nat, b: nat): nat { if a < b then a else b }

  /** The last `n` of a sequence. */
  function LastOf<T>(s: seq<T>, n: nat): seq<T>
    requires n <= |s|
  {
    s[|s| - n..]
  }

  ghost predicate RingExact(w: World) {
    w.lastId == |w.log| && w.ring == LastOf(Events(w.log), Min(|w.log|, w.buffer))
  }

  lemma {:induction false} RingStep(w: World, step: Step)
    requires RingExact(w) && Enabled(w, step)
    ensures RingExact(Next(w, step))
  {
    if step.Admit? {
      var w1 := Next(w, step);
      assert Events(w1.log) == Events(w.log) + [Event(w.lastId + 1, step.body)];
    }
  }

  // ------------------------------------------------------------- the queues

  /** Event `id` is on its way to `s`. */
  ghost predicate InFlight(pubs: map<nat, Fanout>, s: nat, id: nat) {
    exists p :: p in pubs && s in pubs[p].pending && pubs[p].event.id == id
  }

  ghost predicate Delivered(sub: Subscriber, id: nat) {
    exists i :: 0 <= i < |sub.Got()| && sub.Got()[i].id == id
  }

  /** What each publisher in flight carries is its own latest event. */
  ghost predicate PubSound(log: seq<Published>, subs: set<nat>, p: nat, f: Fanout) {
    && 1 <= f.event.id <= |log|
    && log[f.event.id - 1] == Published(p, f.event.body)
    && f.pending <= subs
    && forall k :: f.event.id <= k < |log| ==> log[k].author != p
  }

  ghost predicate PubsSound(w: World) {
    forall p :: p in w.pubs ==> PubSound(w.log, w.subs.Keys, p, w.pubs[p])
  }

  /** Got events are real, later than the subscription, never twice, in order per publisher. */
  ghost predicate GotSound(w: World, s: nat)
    requires s in w.subs
  {
    var sub := w.subs[s];
    var got := sub.Got();
    && sub.since <= |w.log| && |sub.queue| <= w.capacity
    && (forall i :: 0 <= i < |got| ==>
          sub.since < got[i].id <= |w.log| && got[i].body == w.log[got[i].id - 1].body)
    && (forall i, j :: 0 <= i < j < |got| ==> got[i].id != got[j].id)
    && (forall i, j :: 0 <= i < j < |got| && w.log[got[i].id - 1].author == w.log[got[j].id - 1].author ==> got[i].id < got[j].id)
  }

  /** Nothing got or dropped is still in flight, nor both got and dropped. */
  ghost predicate Exclusive(w: World, s: nat)
    requires s in w.subs
  {
    var sub := w.subs[s];
    && (forall id :: id in sub.dropped ==> sub.since < id <= |w.log| && !Delivered(sub, id) && !InFlight(w.pubs, s, id))
    && (forall id :: Delivered(sub, id) ==> !InFlight(w.pubs, s, id))
    && (forall p :: p in w.pubs && s in w.pubs[p].pending ==> w.pubs[p].event.id > sub.since)
  }

  /** A live subscriber misses nothing: delivered, in flight, or dropped by its full queue. */
  ghost predicate Covered(w: World, s: nat)
    requires s in w.subs
  {
    var sub := w.subs[s];
    sub.live ==> forall id :: sub.since < id <= |w.log| ==>
      Delivered(sub, id) || id in sub.dropped || InFlight(w.pubs, s, id)
  }

  ghost predicate Sound(w: World) {
    && RingExact(w)
    && PubsSound(w)
    && forall s :: s in w.subs ==> GotSound(w, s) && Exclusive(w, s) && Covered(w, s)
  }

  lemma {:induction false} PubsStep(w: World, step: Step)
    requires PubsSound(w) && w.lastId == |w.log| && Enabled(w, step)
    ensures PubsSound(Next(w, step))
  {
    match step
    case Admit(p, body) => PubsAdmit(w, p, body);
    case OfferTo(p, s) => PubsOffer(w, p, s);
    case _ => PubsSame(w, step);
  }

  lemma {:induction false} PubsAdmit(w: World, p: nat, body: Body)
    requires PubsSound(w) && w.lastId == |w.log| && Enabled(w, Admit(p, body))
    ensures PubsSound(Next(w, Admit(p, body)))
  {
    hide RingAppend;
    var w1 := Next(w, Admit(p, body));
    assert w1.log == w.log + [Published(p, body)] && w1.subs == w.subs;
    assert w1.pubs[p].pending <= w.subs.Keys;
    forall q | q in w1.pubs ensures PubSound(w1.log, w1.subs.Keys, q, w1.pubs[q]) {
      if q != p {
        assert PubSound(w.log, w.subs.Keys, q, w.pubs[q]);
      }
    }
  }

  lemma {:induction false} PubsOffer(w: World, p: nat, s: nat)
    requires PubsSound(w) && Enabled(w, OfferTo(p, s))
    ensures PubsSound(Next(w, OfferTo(p, s)))
  {
    hide Offer;
    var w1 := Next(w, OfferTo(p, s));
    assert w1.log == w.log && w1.subs.Keys == w.subs.Keys;
    forall q | q in w1.pubs ensures PubSound(w1.log, w1.subs.Keys, q, w1.pubs[q]) {
      assert PubSound(w.log, w.subs.Keys, q, w.pubs[q]);
    }
  }

  lemma {:induction false} PubsSame(w: World, step: Step)
    requires PubsSound(w) && Enabled(w, step) && !step.Admit? && !step.OfferTo?
    ensures PubsSound(Next(w, step))
  {
    var w1 := Next(w, step);
    assert w1.log == w.log && w.subs.Keys <= w1.subs.Keys;
    forall q | q in w1.pubs ensures PubSound(w1.log, w1.subs.Keys, q, w1.pubs[q]) {
      assert q in w.pubs && w1.pubs[q] == w.pubs[q];
      assert PubSound(w.log, w.subs.Keys, q, w.pubs[q]);
    }
  }

  /** The queue that receives an event has not seen it before. */
  lemma {:induction false} OfferedIsNew(w: World, p: nat, s: nat)
    requires Enabled(w, OfferTo(p, s)) && PubsSound(w) && Exclusive(w, s)
    ensures forall i :: 0 <= i < |w.subs[s].Got()| ==> w.subs[s].Got()[i].id != w.pubs[p].event.id
    ensures PubSound(w.log, w.subs.Keys, p, w.pubs[p]) && w.pubs[p].event.id > w.subs[s].since
  {
    var got, e := w.subs[s].Got(), w.pubs[p].event;
    assert InFlight(w.pubs, s, e.id) && PubSound(w.log, w.subs.Keys, p, w.pubs[p]);
    forall i | 0 <= i < |got| ensures got[i].id != e.id {
      assert Delivered(w.subs[s], got[i].id);
    }
  }

  lemma {:induction false} OfferAppends(w: World, p: nat, s: nat)
    requires Enabled(w, OfferTo(p, s)) && |w.subs[s].queue| < w.capacity
    ensures var w1 := Next(w, OfferTo(p, s));
            && s in w1.subs && w1.subs[s].Got() == w.subs[s].Got() + [w.pubs[p].event]
            && w1.subs[s].since == w.subs[s].since && w1.log == w.log && w1.capacity == w.capacity
            && |w1.subs[s].queue| <= w.capacity
  {
  }

  lemma {:induction false} GotAppend(w: World, p: nat, s: nat)
    requires Enabled(w, OfferTo(p, s)) && PubsSound(w) && GotSound(w, s) && Exclusive(w, s)
    requires |w.subs[s].queue| < w.capacity
    ensures GotSound(Next(w, OfferTo(p, s)), s)
  {
    hide Next, Subscriber.Got, Exclusive, PubsSound;
    OfferedIsNew(w, p, s);
    OfferAppends(w, p, s);
  }

  lemma {:induction false} GotUntouched(w: World, step: Step, s: nat)
    requires Enabled(w, step) && s in w.subs && |w.subs[s].queue| <= w.capacity
    requires !(step.OfferTo? && step.s == s && |w.subs[s].queue| < w.capacity)
    ensures var w1 := Next(w, step);
            && s in w1.subs && w1.subs[s].Got() == w.subs[s].Got() && w1.subs[s].since == w.subs[s].since
            && w.log <= w1.log && w1.capacity == w.capacity && |w1.subs[s].queue| <= w.capacity
  {
    hide RingAppend;
  }

  lemma {:induction false} GotSame(w: World, step: Step, s: nat)
    requires Enabled(w, step) && s in w.subs && GotSound(w, s)
    requires !(step.OfferTo? && step.s == s && |w.subs[s].queue| < w.capacity)
    ensures s in Next(w, step).subs && GotSound(Next(w, step), s)
  {
    hide Next, Enabled, Subscriber.Got;
    GotUntouched(w, step, s);
  }

  lemma {:induction false} GotStep(w: World, step: Step, s: nat)
    requires Sound(w) && Enabled(w, step) && s in w.subs
    ensures s in Next(w, step).subs && GotSound(Next(w, step), s)
  {
    hide GotSound, Exclusive, Covered, RingExact;
    assert GotSound(w, s) && Exclusive(w, s);
    if step.OfferTo? && step.s == s && |w.subs[s].queue| < w.capacity {
      GotAppend(w, step.p, s);
    } else {
      GotSame(w, step, s);
    }
  }

  lemma {:induction false} SameGotSameDelivered(a: Subscriber, b: Subscriber, id: nat)
    requires a.Got() == b.Got()
    ensures Delivered(a, id) <==> Delivered(b, id)
  {
  }

  lemma {:induction false} OneMoreDelivered(a: Subscriber, b: Subscriber, e: Event, id: nat)
    requires b.Got() == a.Got() + [e]
    ensures Delivered(b, id) <==> Delivered(a, id) || id == e.id
  {
    if Delivered(a, id) {
      var i :| 0 <= i < |a.Got()| && a.Got()[i].id == id;
      assert b.Got()[i].id == id;
    }
    if id == e.id {
      assert b.Got()[|a.Got()|].id == id;
    }
  }

  /** What a step does to the flights towards `s`. */
  lemma {:induction false} FlightStep(w: World, step: Step, s: nat, id: nat)
    requires PubsSound(w) && w.lastId == |w.log| && Enabled(w, step)
    ensures InFlight(Next(w, step).pubs, s, id) <==>
            (match step
             case Admit(p, _) => InFlight(w.pubs, s, id) || (id == w.lastId + 1 && s in Live(w))
             case OfferTo(p, t) => InFlight(w.pubs, s, id) && !(t == s && id == w.pubs[p].event.id)
             case _ => InFlight(w.pubs, s, id))
  {
    match step
    case Admit(p, body) => FlightAdmit(w, p, body, s, id);
    case OfferTo(p, t) => FlightOffer(w, p, t, s, id);
    case Finish(p) => FlightFinish(w, p, s, id);
    case _ =>
  }

  lemma {:induction false} FlightAdmit(w: World, p: nat, body: Body, s: nat, id: nat)
    requires PubsSound(w) && w.lastId == |w.log| && Enabled(w, Admit(p, body))
    ensures InFlight(Next(w, Admit(p, body)).pubs, s, id) <==>
            InFlight(w.pubs, s, id) || (id == w.lastId + 1 && s in Live(w))
  {
    var w1 := Next(w, Admit(p, body));
    hide Live, RingAppend, PubsSound;
    if InFlight(w.pubs, s, id) {
      var q :| q in w.pubs && s in w.pubs[q].pending && w.pubs[q].event.id == id;
      assert w1.pubs[q] == w.pubs[q];
    }
    if id == w.lastId + 1 && s in Live(w) {
      assert w1.pubs[p].event.id == id;
    }
  }

  lemma {:induction false} FlightOffer(w: World, p: nat, t: nat, s: nat, id: nat)
    requires PubsSound(w) && Enabled(w, OfferTo(p, t))
    ensures InFlight(Next(w, OfferTo(p, t)).pubs, s, id) <==>
            InFlight(w.pubs, s, id) && !(t == s && id == w.pubs[p].event.id)
  {
    var w1 := Next(w, OfferTo(p, t));
    hide Offer;
    if InFlight(w.pubs, s, id) && !(t == s && id == w.pubs[p].event.id) {
      var q :| q in w.pubs && s in w.pubs[q].pending && w.pubs[q].event.id == id;
      assert s in w1.pubs[q].pending;
    }
    if InFlight(w1.pubs, s, id) {
      var q :| q in w1.pubs && s in w1.pubs[q].pending && w1.pubs[q].event.id == id;
      assert s in w.pubs[q].pending && w.pubs[q].event == w1.pubs[q].event;
    }
  }

  lemma {:induction false} FlightFinish(w: World, p: nat, s: nat, id: nat)
    requires Enabled(w, Finish(p))
    ensures InFlight(Next(w, Finish(p)).pubs, s, id) <==> InFlight(w.pubs, s, id)
  {
    var w1 := Next(w, Finish(p));
    if InFlight(w.pubs, s, id) {
      var q :| q in w.pubs && s in w.pubs[q].pending && w.pubs[q].event.id == id;
      assert q != p && w1.pubs[q] == w.pubs[q];
    }
  }

  /** What a step does to the record of an existing subscriber. */
  lemma {:induction false} DeliveredStep(w: World, step: Step, s: nat, id: nat)
    requires Enabled(w, step) && s in w.subs
    ensures var room := step.OfferTo? && step.s == s && |w.subs[s].queue| < w.capacity;
            var full := step.OfferTo? && step.s == s && |w.subs[s].queue| >= w.capacity;
            var w1 := Next(w, step);
            && s in w1.subs && w1.subs[s].since == w.subs[s].since
            && (Delivered(w1.subs[s], id) <==> Delivered(w.subs[s], id) || (room && id == w.pubs[step.p].event.id))
            && (id in w1.subs[s].dropped <==> id in w.subs[s].dropped || (full && id == w.pubs[step.p].event.id))
  {
    var w1 := Next(w, step);
    var a, b := w.subs[s], w1.subs[s];
    if step.OfferTo? && step.s == s && |a.queue| < w.capacity {
      assert b.Got() == a.Got() + [w.pubs[step.p].event];
      OneMoreDelivered(a, b, w.pubs[step.p].event, id);
    } else {
      assert b.Got() == a.Got();
      SameGotSameDelivered(a, b, id);
    }
  }

  /** Dropped, delivered and in flight exclude each other; a live subscriber has one of them. */
  ghost predicate FateSound(w: World, s: nat, id: nat)
    requires s in w.subs
  {
    var sub := w.subs[s];
    && (id in sub.dropped ==> sub.since < id <= |w.log| && !Delivered(sub, id))
    && (id in sub.dropped || Delivered(sub, id) ==> !InFlight(w.pubs, s, id))
    && (sub.live && sub.since < id <= |w.log| ==> Delivered(sub, id) || id in sub.dropped || InFlight(w.pubs, s, id))
  }

  /** What a step leaves of the fate of one event. */
  lemma {:induction false} OneFate(w: World, step: Step, s: nat, id: nat)
    requires Sound(w) && Enabled(w, step) && s in w.subs && s in Next(w, step).subs
    ensures FateSound(Next(w, step), s, id)
  {
    hide RingExact, InFlight, Delivered, RingAppend, Offer, Subscriber.Got;
    RingCounts(w);
    assert GotSound(w, s) && Exclusive(w, s) && Covered(w, s);
    DeliveredIsReal(w, s);
    if step.OfferTo? && step.s == s {
      OfferedIsInFlight(w, step.p, s);
    }
    FlightStep(w, step, s, id);
    DeliveredStep(w, step, s, id);
  }

  /** A publisher only has later events pending for `s`. */
  ghost predicate PendingLater(pubs: map<nat, Fanout>, s: nat, since: nat) {
    forall p :: p in pubs && s in pubs[p].pending ==> pubs[p].event.id > since
  }

  lemma {:induction false} FatesTogether(w: World, s: nat)
    requires s in w.subs && PendingLater(w.pubs, s, w.subs[s].since)
    requires forall id: nat :: FateSound(w, s, id)
    ensures Exclusive(w, s) && Covered(w, s)
  {
    hide InFlight, Delivered;
    forall id: nat
      ensures (id in w.subs[s].dropped ==> w.subs[s].since < id <= |w.log| && !Delivered(w.subs[s], id) && !InFlight(w.pubs, s, id))
      ensures Delivered(w.subs[s], id) ==> !InFlight(w.pubs, s, id)
      ensures w.subs[s].live && w.subs[s].since < id <= |w.log| ==>
                Delivered(w.subs[s], id) || id in w.subs[s].dropped || InFlight(w.pubs, s, id)
    {
      assert FateSound(w, s, id);
    }
  }

  lemma {:induction false} FateStep(w: World, step: Step, s: nat)
    requires Sound(w) && Enabled(w, step) && s in w.subs
    ensures s in Next(w, step).subs && Exclusive(Next(w, step), s) && Covered(Next(w, step), s)
  {
    hide Sound, InFlight, Delivered, Next, Covered, Exclusive, Enabled, FateSound;
    SubscriberStays(w, step, s);
    PendingIsLater(w, step, s);
    forall id: nat ensures FateSound(Next(w, step), s, id) {
      OneFate(w, step, s, id);
    }
    FatesTogether(Next(w, step), s);
  }

  lemma {:induction false} SubscriberStays(w: World, step: Step, s: nat)
    requires Enabled(w, step) && s in w.subs
    ensures s in Next(w, step).subs && Next(w, step).subs[s].since == w.subs[s].since
  {
    hide Offer;
    DeliveredStep(w, step, s, 0);
  }

  lemma {:induction false} PendingIsLater(w: World, step: Step, s: nat)
    requires Sound(w) && Enabled(w, step) && s in w.subs && s in Next(w, step).subs
    ensures PendingLater(Next(w, step).pubs, s, Next(w, step).subs[s].since)
  {
    hide InFlight, Delivered, RingAppend, Subscriber.Got, Offer, RingExact, Covered;
    RingCounts(w);
    SubscriberStays(w, step, s);
    assert GotSound(w, s) && Exclusive(w, s);
    assert PendingLater(w.pubs, s, w.subs[s].since);
  }

  lemma {:induction false} NewSubscriber(w: World, step: Step, s: nat)
    requires Sound(w) && Enabled(w, step) && s !in w.subs && s in Next(w, step).subs
    ensures GotSound(Next(w, step), s) && Exclusive(Next(w, step), s) && Covered(Next(w, step), s)
  {
    var w1 := Next(w, step);
    assert w1.subs[s].Got() == [];
    forall p | p in w1.pubs ensures s !in w1.pubs[p].pending {
      assert PubSound(w.log, w.subs.Keys, p, w.pubs[p]);
    }
  }

  lemma {:induction false} DeliveredIsReal(w: World, s: nat)
    requires s in w.subs && GotSound(w, s)
    ensures forall id: nat :: Delivered(w.subs[s], id) ==> w.subs[s].since < id <= |w.log|
  {
  }

  lemma {:induction false} OfferedIsInFlight(w: World, p: nat, s: nat)
    requires p in w.pubs && s in w.pubs[p].pending
    ensures InFlight(w.pubs, s, w.pubs[p].event.id)
  {
  }

  lemma {:induction false} SoundStep(w: World, step: Step)
    requires Sound(w) && Enabled(w, step)
    ensures Sound(Next(w, step))
  {
    hide RingExact, PubsSound, GotSound, Exclusive, Covered;
    RingStep(w, step);
    assert w.lastId == |w.log| by { RingCounts(w); }
    PubsStep(w, step);
    forall s | s in Next(w, step).subs
      ensures GotSound(Next(w, step), s) && Exclusive(Next(w, step), s) && Covered(Next(w, step), s)
    {
      if s in w.subs {
        GotStep(w, step, s);
        FateStep(w, step, s);
      } else {
        NewSubscriber(w, step, s);
      }
    }
  }

  lemma {:induction false} RingCounts(w: World)
    requires RingExact(w)
    ensures w.lastId == |w.log|
  {
  }

  lemma {:induction false} SoundRun(w: World, steps: seq<Step>)
    requires Sound(w)
    ensures Run(w, steps).Some? ==> Sound(Run(w, steps).value)
    decreases |steps|
  {
    hide Sound, Enabled, Next;
    if steps != [] && Enabled(w, steps[0]) {
      SoundStep(w, steps[0]);
      SoundRun(Next(w, steps[0]), steps[1..]);
    }
  }

  /**
   Every interleaving of publishers and subscribers.  Ids count the publishes
   without gaps and the ring holds exactly the last of them.  For a live subscriber
   every event published since it subscribed has exactly one fate: delivered once,
   still in flight, or dropped by its full queue; and events of one publisher
   arrive in order.
   */
  lemma {:induction false} HubSound(buffer: nat, capacity: nat, steps: seq<Step>)
    ensures var w := Run(Init(buffer, capacity), steps);
            w.Some? ==> Sound(w.value)
  {
    InitSound(buffer, capacity);
    SoundRun(Init(buffer, capacity), steps);
  }

  // ------------------------------------------------- across publishers, no order

  /**
   Two publishers may deliver out of order: the one numbered first can be the
   second to reach the queue.
   */
  lemma {:induction false} PublishersMayCross(capacity: nat, a: Body, b: Body)
    requires capacity >= 2
    ensures var w := Run(Init(256, capacity),
                         [Subscribe(0), Admit(1, a), Admit(2, b), OfferTo(2, 0), OfferTo(1, 0)]);
            w.Some? && 0 in w.value.subs && w.value.subs[0].queue == [Event(2, b), Event(1, a)]
  {
    var w0 := Init(256, capacity);
    var w1 := Next(w0, Subscribe(0));
    assert Live(w1) == {0};
    var w2 := Next(w1, Admit(1, a));
    assert Live(w2) == {0};
    var w3 := Next(w2, Admit(2, b));
    var w4 := Next(w3, OfferTo(2, 0));
    var w5 := Next(w4, OfferTo(1, 0));
    assert Run(w5, []) == Some(w5);
    assert Run(w4, [OfferTo(1, 0)]) == Some(w5);
    assert [OfferTo(2, 0), OfferTo(1, 0)][1..] == [OfferTo(1, 0)];
    assert Run(w3, [OfferTo(2, 0), OfferTo(1, 0)]) == Some(w5);
    assert [Admit(2, b), OfferTo(2, 0), OfferTo(1, 0)][1..] == [OfferTo(2, 0), OfferTo(1, 0)];
    assert Run(w2, [Admit(2, b), OfferTo(2, 0), OfferTo(1, 0)]) == Some(w5);
    assert [Admit(1, a), Admit(2, b), OfferTo(2, 0), OfferTo(1, 0)][1..] == [Admit(2, b), OfferTo(2, 0), OfferTo(1, 0)];
    assert Run(w1, [Admit(1, a), Admit(2, b), OfferTo(2, 0), OfferTo(1, 0)]) == Some(w5);
    var all := [Subscribe(0), Admit(1, a), Admit(2, b), OfferTo(2, 0), OfferTo(1, 0)];
    assert all[1..] == [Admit(1, a), Admit(2, b), OfferTo(2, 0), OfferTo(1, 0)];
  }

  // ----------------------------------------------------- when order is kept

  predicate Rising(events: seq<Event>) {
    forall i, j :: 0 <= i < j < |events| ==> events[i].id < events[j].id
  }

  /** What the subscriber got is in order of number. */
  predicate Ordered(w: World, s: nat) {
    s in w.subs ==> Rising(w.subs[s].Got())
  }

  predicate HasRoom(w: World, step: Step, s: nat) {
    Enabled(w, step) && step.OfferTo? && step.s == s && s in w.subs && |w.subs[s].queue| < w.capacity
  }

  /** An event is queued after a later one was. */
  ghost predicate Late(w: World, step: Step, s: nat) {
    HasRoom(w, step, s) && exists e :: e in w.subs[s].Got() && e.id > w.pubs[step.p].event.id
  }

  ghost predicate NeverLate(w: World, s: nat, steps: seq<Step>)
    decreases |steps|
  {
    steps == [] || (Enabled(w, steps[0]) && !Late(w, steps[0], s) && NeverLate(Next(w, steps[0]), s, steps[1..]))
  }

  /** A step that queues nothing for `s` leaves what it got. */
  lemma {:induction false} GotKept(w: World, step: Step, s: nat)
    requires Enabled(w, step) && !HasRoom(w, step, s)
    ensures s in w.subs ==> s in Next(w, step).subs && Next(w, step).subs[s].Got() == w.subs[s].Got()
    ensures s !in w.subs && s in Next(w, step).subs ==> Next(w, step).subs[s].Got() == []
  {
    hide RingAppend;
  }

  lemma {:induction false} RisingSnoc(events: seq<Event>, e: Event)
    ensures Rising(events + [e]) <==> Rising(events) && forall x :: x in events ==> x.id < e.id
  {
    var all := events + [e];
    assert forall i :: 0 <= i < |events| ==> all[i] == events[i];
    assert all[|events|] == e;
    if Rising(all) {
      forall i, j | 0 <= i < j < |events| ensures events[i].id < events[j].id {
        assert all[i].id < all[j].id;
      }
      forall x | x in events ensures x.id < e.id {
        var i :| 0 <= i < |events| && events[i] == x;
        assert all[i].id < all[|events|].id;
      }
    }
  }

  /** A step keeps the order exactly when it is not late, and nothing restores it. */
  lemma {:induction false} OrderStep(w: World, step: Step, s: nat)
    requires Sound(w) && Enabled(w, step)
    ensures Ordered(Next(w, step), s) <==> Ordered(w, s) && !Late(w, step, s)
  {
    hide Rising, Next, Subscriber.Got, Exclusive, Covered, GotSound, PubsSound, RingExact;
    if HasRoom(w, step, s) {
      var p := step.p;
      OfferAppends(w, p, s);
      assert GotSound(w, s) && Exclusive(w, s);
      OfferedIsNew(w, p, s);
      RisingSnoc(w.subs[s].Got(), w.pubs[p].event);
      assert step == OfferTo(p, s);
    } else {
      GotKept(w, step, s);
      NothingRises();
    }
  }

  lemma {:induction false} NothingRises()
    ensures Rising([])
  {
  }

  lemma {:induction false} OrderRun(w: World, s: nat, steps: seq<Step>)
    requires Sound(w) && Run(w, steps).Some?
    ensures Ordered(Run(w, steps).value, s) <==> Ordered(w, s) && NeverLate(w, s, steps)
    decreases |steps|
  {
    hide Sound, Ordered, Late, Next, Enabled;
    if steps != [] {
      SoundStep(w, steps[0]);
      OrderStep(w, steps[0], s);
      OrderRun(Next(w, steps[0]), s, steps[1..]);
    }
  }

  /** Over every run: a subscriber got its events in order of number if and only if none was queued after a later one. */
  lemma {:induction false} OrderExact(buffer: nat, capacity: nat, steps: seq<Step>, s: nat)
    requires Run(Init(buffer, capacity), steps).Some?
    ensures Ordered(Run(Init(buffer, capacity), steps).value, s) <==> NeverLate(Init(buffer, capacity), s, steps)
  {
    hide Sound, Run, NeverLate;
    InitSound(buffer, capacity);
    OrderRun(Init(buffer, capacity), s, steps);
  }

  lemma {:induction false} InitSound(buffer: nat, capacity: nat)
    ensures Sound(Init(buffer, capacity))
  {
    assert Events(Init(buffer, capacity).log) == [];
  }

  /** In order so far, and everything still pending is later. */
  ghost predicate Tidy(w: World, s: nat) {
    s in w.subs ==>
      && Rising(w.subs[s].Got())
      && forall p, e :: p in w.pubs && s in w.pubs[p].pending && e in w.subs[s].Got() ==> e.id < w.pubs[p].event.id
  }

  /** The offer is queued before an earlier event that is still pending for the same subscriber. */
  ghost predicate Overtakes(w: World, step: Step, s: nat) {
    HasRoom(w, step, s) && exists q :: q in w.pubs && s in w.pubs[q].pending && w.pubs[q].event.id < w.pubs[step.p].event.id
  }

  /** A step keeps a subscriber tidy if and only if it does not overtake. */
  lemma {:induction false} TidyStep(w: World, step: Step, s: nat)
    requires Sound(w) && Enabled(w, step) && Tidy(w, s)
    ensures Tidy(Next(w, step), s) <==> !Overtakes(w, step, s)
  {
    hide Rising, Subscriber.Got, Exclusive, Covered, GotSound, PubsSound, RingExact, RingAppend, Offer;
    if HasRoom(w, step, s) {
      TidyOffer(w, step.p, s);
      assert step == OfferTo(step.p, s);
    } else {
      GotKept(w, step, s);
      NothingRises();
      if s in w.subs {
        GotIsReal(w, s);
      }
      RingCounts(w);
    }
  }

  lemma {:induction false} GotIsReal(w: World, s: nat)
    requires Sound(w) && s in w.subs
    ensures forall e :: e in w.subs[s].Got() ==> e.id <= |w.log|
  {
    assert GotSound(w, s);
  }

  /** Publisher `q` still has something for `s`. */
  predicate Waiting(w: World, q: nat, s: nat) { q in w.pubs && s in w.pubs[q].pending }

  lemma {:induction false} WaitingAfter(w: World, p: nat, s: nat)
    requires Enabled(w, OfferTo(p, s))
    ensures var w1 := Next(w, OfferTo(p, s));
            forall q :: (Waiting(w1, q, s) <==> Waiting(w, q, s) && q != p) && (q in w.pubs ==> q in w1.pubs && w1.pubs[q].event == w.pubs[q].event)
  {
    hide Offer;
  }

  lemma {:induction false} TidyOffer(w: World, p: nat, s: nat)
    requires Sound(w) && HasRoom(w, OfferTo(p, s), s) && Tidy(w, s)
    ensures Tidy(Next(w, OfferTo(p, s)), s) <==> !Overtakes(w, OfferTo(p, s), s)
  {
    var step := OfferTo(p, s);
    var w1, e := Next(w, step), w.pubs[p].event;
    OfferAppends(w, p, s);
    WaitingAfter(w, p, s);
    OthersDiffer(w, p);
    hide Next, Rising, Subscriber.Got, Sound;
    var got, got1 := w.subs[s].Got(), w1.subs[s].Got();
    RisingSnoc(got, e);
    assert forall x :: x in got1 <==> x in got || x == e;
    assert Waiting(w, p, s);
    if Overtakes(w, step, s) {
      var q :| q in w.pubs && s in w.pubs[q].pending && w.pubs[q].event.id < e.id;
      assert Waiting(w1, q, s);
    } else {
      forall q, x | q in w1.pubs && s in w1.pubs[q].pending && x in got1 ensures x.id < w1.pubs[q].event.id {
        assert Waiting(w1, q, s) && Waiting(w, q, s);
      }
    }
  }

  /** No two publishers carry one number. */
  lemma {:induction false} OthersDiffer(w: World, p: nat)
    requires Sound(w) && p in w.pubs
    ensures forall q :: q in w.pubs && q != p ==> w.pubs[q].event.id != w.pubs[p].event.id
  {
    hide RingExact, GotSound, Exclusive, Covered;
    forall q | q in w.pubs && q != p ensures w.pubs[q].event.id != w.pubs[p].event.id {
      assert PubSound(w.log, w.subs.Keys, q, w.pubs[q]) && PubSound(w.log, w.subs.Keys, p, w.pubs[p]);
    }
  }

  /** A publish starts only when every other has been offered to all. */
  predicate Serial(w: World, steps: seq<Step>)
    decreases |steps|
  {
    steps == [] ||
    (Enabled(w, steps[0])
     && (steps[0].Admit? ==> forall p :: p in w.pubs ==> w.pubs[p].pending == {})
     && Serial(Next(w, steps[0]), steps[1..]))
  }

  /** At most one publisher has anyone left to offer to. */
  ghost predicate Alone(w: World) {
    forall p, q :: p in w.pubs && q in w.pubs && w.pubs[p].pending != {} && w.pubs[q].pending != {} ==> p == q
  }

  lemma {:induction false} AloneStep(w: World, step: Step, s: nat)
    requires Alone(w) && Enabled(w, step)
    requires step.Admit? ==> forall p :: p in w.pubs ==> w.pubs[p].pending == {}
    ensures Alone(Next(w, step)) && !Overtakes(w, step, s)
  {
    hide RingAppend, Offer;
  }

  lemma {:induction false} SerialRun(w: World, s: nat, steps: seq<Step>)
    requires Sound(w) && Alone(w) && Tidy(w, s) && Serial(w, steps)
    ensures Run(w, steps).Some? && Tidy(Run(w, steps).value, s)
    decreases |steps|
  {
    hide Sound, Alone, Tidy, Next, Enabled, Overtakes;
    if steps != [] {
      SoundStep(w, steps[0]);
      AloneStep(w, steps[0], s);
      TidyStep(w, steps[0], s);
      SerialRun(Next(w, steps[0]), s, steps[1..]);
    }
  }

  /** With one publish at a time every subscriber gets its events in order of number. */
  lemma {:induction false} SerialInOrder(buffer: nat, capacity: nat, steps: seq<Step>, s: nat)
    requires Serial(Init(buffer, capacity), steps)
    ensures var w := Run(Init(buffer, capacity), steps); w.Some? && Ordered(w.value, s)
  {
    InitSound(buffer, capacity);
    hide Sound, Run, Serial;
    SerialRun(Init(buffer, capacity), s, steps);
  }
}
