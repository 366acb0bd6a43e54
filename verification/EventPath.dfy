/**
 From the hub's queues to the lines a client reads: the hub machine yields what a
 session has in its pipe, and a session's connection is one the client's stream
 theorems speak of.
 */
module EventPath {
  import opened Text
  import opened Json
  import Hub = EventHub
  import opened EventResume
  import Sse = SseClient

  // --------------------------------------------------- the hub under a session

  /**
   The hub while it serves a session whose connections subscribe as 0, 1, 2 and so on:
   where the current connection was asked to resume, what had been yielded by then, and
   what was written on it since.
   */
  datatype Path = Path(hub: Hub.World, subscriber: nat, from: nat, before: seq<Hub.Event>, written: seq<Hub.Event>)

  predicate IsLive(s: Session) { s.conn.Some? && s.conn.value.live }

  /** The step takes the connection down. */
  predicate Ends(s: Session, step: Step)
    requires Enabled(s, step)
  {
    s.conn.Some? && Next(s, step).conn.None?
  }

  /** What the hub does for a step: publishes are fanned out and taken at once. */
  function HubSteps(s: Session, subscriber: nat, step: Step): seq<Hub.Step>
    requires Enabled(s, step)
  {
    match step
    case Publish(body) =>
      if IsLive(s) then [Hub.Admit(0, body), Hub.OfferTo(0, subscriber), Hub.Finish(0), Hub.Take(subscriber)]
      else [Hub.Admit(0, body), Hub.Finish(0)]
    case GoLive => [Hub.Subscribe(subscriber)]
    case _ => if IsLive(s) && Ends(s, step) then [Hub.Unsubscribe(subscriber)] else []
  }

  /** What subscriber `n` has taken off its queue. */
  function Taken(w: Hub.World, n: nat): seq<Hub.Event> {
    if n in w.subs then w.subs[n].taken else []
  }

  /** The server writes what it replays from the ring, and what it takes off its queue, where it matches. */
  function Written(p: Path, s: Session, hub: Hub.World, step: Step): seq<Hub.Event> {
    var taken, taken1 := Taken(p.hub, p.subscriber), Taken(hub, p.subscriber);
    if step.Connect? then Matching(Hub.ReplaySince(p.hub.ring, s.last), s.filter)
    else if |taken| <= |taken1| then p.written + Matching(taken1[|taken|..], s.filter)
    else p.written
  }

  function Advance(p: Path, s: Session, step: Step): Option<Path>
    requires Enabled(s, step)
  {
    match Hub.Run(p.hub, HubSteps(s, p.subscriber, step))
    case None => None
    case Some(hub) =>
      Some(Path(hub, if IsLive(s) && Ends(s, step) then p.subscriber + 1 else p.subscriber,
                if step.Connect? then s.last else p.from, if step.Connect? then s.yielded else p.before,
                Written(p, s, hub, step)))
  }

  /** The hub alongside a session. */
  ghost predicate InStep(p: Path, s: Session) {
    var w, k := p.hub, p.subscriber;
    && w.buffer == s.buffer && w.capacity > 0 && w.log == s.log && w.lastId == |s.log| && w.ring == Ring(s) && w.pubs == map[]
    && (forall n :: n in w.subs ==> n < k || (n == k && IsLive(s)))
    && (forall n :: n in w.subs && w.subs[n].live ==> n == k)
    && (IsLive(s) ==> k in w.subs && w.subs[k].live && w.subs[k].queue == [])
    && (s.conn.Some? ==> s.yielded + s.conn.value.pipe == p.before + p.written)
  }

  lemma {:induction false} RunOne(w: Hub.World, a: Hub.Step)
    requires Hub.Enabled(w, a)
    ensures Hub.Run(w, [a]) == Some(Hub.Next(w, a))
  {
    assert [a][1..] == [];
  }

  lemma {:induction false} RunCons(w: Hub.World, a: Hub.Step, rest: seq<Hub.Step>)
    requires Hub.Enabled(w, a)
    ensures Hub.Run(w, [a] + rest) == Hub.Run(Hub.Next(w, a), rest)
  {
    assert ([a] + rest)[1..] == rest;
  }

  lemma {:induction false} RingGrows(s: Session, t: Session, body: Hub.Body)
    requires t.log == s.log + [Hub.Published(0, body)] && t.buffer == s.buffer
    ensures Hub.RingAppend(Ring(s), Hub.Event(|s.log| + 1, body), s.buffer) == Ring(t)
  {
    EventsAppend(s.log, Hub.Published(0, body));
  }

  /** A publish while the connection is live reaches its queue and is taken off it. */
  lemma {:induction false} LivePublish(p: Path, s: Session, body: Hub.Body)
    requires InStep(p, s) && IsLive(s)
    ensures var w, k, e := p.hub, p.subscriber, Hub.Event(|s.log| + 1, body);
            var r := Hub.Run(w, HubSteps(s, k, Publish(body)));
            && k in w.subs && r.Some?
            && r.value == w.(lastId := |s.log| + 1, ring := Hub.RingAppend(w.ring, e, w.buffer),
                             log := w.log + [Hub.Published(0, body)],
                             subs := w.subs[k := w.subs[k].(taken := w.subs[k].taken + [e])])
  {
    hide Hub.RingAppend, Hub.Run, Matching, Ring;
    var w, k, e := p.hub, p.subscriber, Hub.Event(|s.log| + 1, body);
    var a, b, c, d: Hub.Step := Hub.Admit(0, body), Hub.OfferTo(0, k), Hub.Finish(0), Hub.Take(k);
    var sub := w.subs[k];
    assert Hub.Live(w) == {k};
    assert sub.dropped + {} == sub.dropped && [] + [e] == [e] && [e][1..] == [] && [e][0] == e;
    var w1 := Hub.Next(w, a);
    assert w1.pubs == map[0 := Hub.Fanout(e, {k})];
    var w2 := Hub.Next(w1, b);
    assert w2.pubs[0].pending == {} && w2.subs == w.subs[k := sub.(queue := [e])];
    var w3 := Hub.Next(w2, c);
    assert w3.pubs == map[];
    var w4 := Hub.Next(w3, d);
    RunCons(w, a, [b, c, d]);
    RunCons(w1, b, [c, d]);
    RunCons(w2, c, [d]);
    RunOne(w3, d);
    assert [a] + [b, c, d] == [a, b, c, d] && [b] + [c, d] == [b, c, d] && [c] + [d] == [c, d];
    assert w4.subs[k] == sub.(taken := sub.taken + [e]);
    assert w4.subs == w.subs[k := sub.(taken := sub.taken + [e])];
  }

  /** Without a live connection it only enters the ring. */
  lemma {:induction false} IdlePublish(p: Path, s: Session, body: Hub.Body)
    requires InStep(p, s) && !IsLive(s)
    ensures var w, e := p.hub, Hub.Event(|s.log| + 1, body);
            Hub.Run(w, HubSteps(s, p.subscriber, Publish(body))) ==
            Some(w.(lastId := |s.log| + 1, ring := Hub.RingAppend(w.ring, e, w.buffer), log := w.log + [Hub.Published(0, body)]))
  {
    hide Hub.RingAppend, Hub.Run, Matching, Ring;
    var w, e := p.hub, Hub.Event(|s.log| + 1, body);
    var a, b: Hub.Step := Hub.Admit(0, body), Hub.Finish(0);
    assert forall n :: n in w.subs ==> n < p.subscriber;
    assert Hub.Live(w) == {};
    var w1 := Hub.Next(w, a);
    assert w1.pubs == map[0 := Hub.Fanout(e, {})];
    RunCons(w, a, [b]);
    RunOne(w1, b);
    assert [a] + [b] == [a, b];
    assert Hub.Next(w1, b).pubs == map[];
  }

  lemma {:induction false} MatchingSingle(e: Hub.Event, filter: Filter)
    ensures Matching([e], filter) == if Matches(e, filter) then [e] else []
    ensures Matching([], filter) == []
  {
    assert [e][..0] == [];
  }

  lemma {:induction false} PublishInStep(p: Path, s: Session, body: Hub.Body)
    requires InStep(p, s)
    ensures var q := Advance(p, s, Publish(body)); q.Some? && InStep(q.value, Next(s, Publish(body)))
  {
    hide Hub.RingAppend, Hub.Run, Matching, Ring, Matches;
    var e := Hub.Event(|s.log| + 1, body);
    RingGrows(s, Next(s, Publish(body)), body);
    MatchingSingle(e, s.filter);
    if IsLive(s) {
      LivePublish(p, s, body);
      var taken := Taken(p.hub, p.subscriber);
      assert (taken + [e])[|taken|..] == [e];
      hide HubSteps;
      var q := Advance(p, s, Publish(body)).value;
      assert q.written == p.written + Matching([e], s.filter);
      assert p.before + q.written == (p.before + p.written) + Matching([e], s.filter);
      var pipe, more := s.conn.value.pipe, Matching([e], s.filter);
      assert pipe + [] == pipe;
      assert Next(s, Publish(body)).conn.value.pipe == pipe + more;
      assert s.yielded + (pipe + more) == (s.yielded + pipe) + more;
    } else {
      IdlePublish(p, s, body);
      hide HubSteps;
      var taken := Taken(p.hub, p.subscriber);
      assert taken[|taken|..] == [];
      assert p.written + [] == p.written;
    }
  }

  lemma {:induction false} OtherInStep(p: Path, s: Session, step: Step)
    requires InStep(p, s) && Enabled(s, step) && !step.Publish?
    ensures var q := Advance(p, s, step); q.Some? && InStep(q.value, Next(s, step))
  {
    hide Matching, Matches, Hub.LastOf, Hub.ReplaySince;
    MatchingSingle(Hub.Event(0, Hub.Body("", "", "")), s.filter);
    var w, k := p.hub, p.subscriber;
    assert Taken(w, k)[|Taken(w, k)|..] == [];
    assert p.written + [] == p.written;
    assert Hub.Run(w, []) == Some(w);
    if step.GoLive? {
      RunOne(w, Hub.Subscribe(k));
    } else if IsLive(s) && Ends(s, step) {
      RunOne(w, Hub.Unsubscribe(k));
    }
    if step.Read? {
      var pipe := s.conn.value.pipe;
      assert (s.yielded + [pipe[0]]) + pipe[1..] == s.yielded + pipe;
    }
  }

  /** The path a session's steps lead the hub along. */
  function Along(p: Path, s: Session, steps: seq<Step>): Option<Path>
    decreases |steps|
  {
    if steps == [] then Some(p)
    else if !Enabled(s, steps[0]) then None
    else
      match Advance(p, s, steps[0])
      case None => None
      case Some(q) => Along(q, Next(s, steps[0]), steps[1..])
  }

  lemma {:induction false} AlongInStep(p: Path, s: Session, steps: seq<Step>)
    requires InStep(p, s) && Run(s, steps).Some?
    ensures Along(p, s, steps).Some? && InStep(Along(p, s, steps).value, Run(s, steps).value)
    decreases |steps|
  {
    hide InStep, Advance, Next, Enabled;
    if steps != [] {
      if steps[0].Publish? {
        PublishInStep(p, s, steps[0].body);
      } else {
        OtherInStep(p, s, steps[0]);
      }
      AlongInStep(Advance(p, s, steps[0]).value, Next(s, steps[0]), steps[1..]);
    }
  }

  function Outset(buffer: nat, capacity: nat): Path { Path(Hub.Init(buffer, capacity), 0, 0, [], []) }

  /**
   The hub, run with one publish at a time and a reader that keeps up, serves every run of
   a session: what it replays and queues for the current connection is what the client
   has read on it, followed by what is in its pipe.
   */
  lemma {:induction false} HubYieldsPipe(buffer: nat, capacity: nat, filter: Filter, steps: seq<Step>)
    requires capacity > 0 && Run(Start(buffer, filter), steps).Some?
    ensures var p, s := Along(Outset(buffer, capacity), Start(buffer, filter), steps), Run(Start(buffer, filter), steps).value;
            && p.Some? && InStep(p.value, s)
            && (s.conn.Some? ==> s.yielded + s.conn.value.pipe == p.value.before + p.value.written)
  {
    OutsetHolds(buffer, capacity, filter);
    hide Along, Run;
    AlongInStep(Outset(buffer, capacity), Start(buffer, filter), steps);
  }

  // ---------------------------------------------- a session under the client

  /** Events as they are printed, given how a body reads as a dictionary. */
  function Rendered(render: Hub.Body -> Dict, events: seq<Hub.Event>): seq<Sse.Event> {
    seq(|events|, i requires 0 <= i < |events| => Sse.Event(events[i].id, render(events[i].body)))
  }

  /** The events of a log that match, as the client's log. */
  function ClientLog(render: Hub.Body -> Dict, log: seq<Hub.Published>, filter: Filter): seq<Sse.Event> {
    Rendered(render, Matching(Hub.Events(log), filter))
  }

  /** What was written on the connection is what matches after the cursor it was asked for. */
  ghost predicate Carries(p: Path, s: Session) {
    s.conn.Some? ==> p.from <= |s.log| && p.written == Matching(Hub.Events(s.log)[p.from..], s.filter)
  }

  /** So it is on every connection of an exact session. */
  ghost predicate FromCursor(p: Path, s: Session) {
    s.conn.Some? ==> p.from <= |s.log| && p.before == Matching(Hub.Events(s.log)[..p.from], s.filter)
  }

  lemma {:induction false} LogHead(log: seq<Hub.Published>, more: Hub.Published, n: nat)
    requires n <= |log|
    ensures Hub.Events(log + [more])[..n] == Hub.Events(log)[..n]
  {
  }

  lemma {:induction false} FromStep(p: Path, s: Session, step: Step)
    requires FromCursor(p, s) && Exact(s) && Enabled(s, step) && Advance(p, s, step).Some?
    ensures FromCursor(Advance(p, s, step).value, Next(s, step))
  {
    hide Matching, Hub.Events, Hub.Run, HubSteps, Written, Matches, NoResult;
    if step.Publish? && s.conn.Some? {
      LogHead(s.log, Hub.Published(0, step.body), p.from);
    }
  }

  lemma {:induction false} AlongCarries(p: Path, s: Session, steps: seq<Step>)
    requires InStep(p, s) && FromCursor(p, s) && Exact(s) && Benign(s, steps)
    ensures var q, t := Along(p, s, steps), Run(s, steps);
            q.Some? && t.Some? && InStep(q.value, t.value) && FromCursor(q.value, t.value) && Exact(t.value)
    decreases |steps|
  {
    hide InStep, FromCursor, Exact, Advance, Next, Enabled, NoGap, Reaches;
    if steps != [] {
      if steps[0].Publish? {
        PublishInStep(p, s, steps[0].body);
      } else {
        OtherInStep(p, s, steps[0]);
      }
      FromStep(p, s, steps[0]);
      StepExact(s, steps[0]);
      AlongCarries(Advance(p, s, steps[0]).value, Next(s, steps[0]), steps[1..]);
    }
  }

  lemma {:induction false} ExactCarries(p: Path, s: Session)
    requires InStep(p, s) && FromCursor(p, s) && Exact(s)
    ensures Carries(p, s)
  {
    hide Matching, Ring;
    if s.conn.Some? {
      var all := Hub.Events(s.log);
      assert all == all[..p.from] + all[p.from..];
      MatchingAppend(all[..p.from], all[p.from..], s.filter);
      assert p.before + p.written == p.before + Matching(all[p.from..], s.filter);
      SameRest(p.before, p.written, Matching(all[p.from..], s.filter));
    }
  }

  lemma {:induction false} SameRest<T>(a: seq<T>, b: seq<T>, c: seq<T>)
    requires a + b == a + c
    ensures b == c
  {
    assert (a + b)[|a|..] == b && (a + c)[|a|..] == c;
  }

  // What the client's theorems call pending is what matches after the cursor.

  lemma {:induction false} PendingSplits(render: Hub.Body -> Dict, a: seq<Hub.Event>, b: seq<Hub.Event>, from: nat)
    requires forall i :: 0 <= i < |a| ==> a[i].id <= from
    requires b != [] ==> b[0].id > from
    ensures Sse.Pending(Rendered(render, a + b), from) == Rendered(render, b)
    decreases |a|
  {
    if a == [] {
      assert a + b == b;
    } else {
      assert (a + b)[1..] == a[1..] + b && (a + b)[0] == a[0];
      assert Rendered(render, a + b)[1..] == Rendered(render, a[1..] + b);
      assert Rendered(render, a + b)[0].id <= from;
      PendingSplits(render, a[1..], b, from);
    }
  }

  lemma {:induction false} PendingMatches(render: Hub.Body -> Dict, log: seq<Hub.Published>, filter: Filter, from: nat)
    requires from <= |log|
    ensures Sse.Pending(ClientLog(render, log, filter), from) == Rendered(render, Matching(Hub.Events(log)[from..], filter))
  {
    var all := Hub.Events(log);
    assert all == all[..from] + all[from..] && all[from..|log|] == all[from..] && all[0..from] == all[..from];
    MatchingAppend(all[..from], all[from..], filter);
    MatchingOrderly(log, 0, from, filter);
    MatchingOrderly(log, from, |log|, filter);
    hide Matching, Hub.Events, Rendered, Sse.Pending, Matches;
    PendingSplits(render, Matching(all[..from], filter), Matching(all[from..], filter), from);
  }

  /** The client's log rises, as its theorems ask. */
  lemma {:induction false} ClientLogRises(render: Hub.Body -> Dict, log: seq<Hub.Published>, filter: Filter)
    ensures Sse.Ascending(ClientLog(render, log, filter))
  {
    MatchingOrderly(log, 0, |log|, filter);
    assert Hub.Events(log)[0..|log|] == Hub.Events(log);
    hide Matching, Hub.Events;
  }

  lemma {:induction false} LaterLog(log: seq<Hub.Published>, final: seq<Hub.Published>, filter: Filter, from: nat)
    requires log <= final && from <= |log|
    ensures Matching(Hub.Events(log)[from..], filter) <= Matching(Hub.Events(final)[from..], filter)
  {
    var a, b := Hub.Events(log)[from..], Hub.Events(final)[|log|..];
    assert Hub.Events(final)[from..] == a + b;
    MatchingAppend(a, b, filter);
  }

  /** What is sent first is read first. */
  lemma {:induction false} SentPlus(codec: Sse.Codec, x: seq<Sse.Sent>, y: seq<Sse.Sent>)
    ensures Sse.Lines(codec, x + y) == Sse.Lines(codec, x) + Sse.Lines(codec, y)
    ensures Sse.Bare(x + y) == Sse.Bare(x) + Sse.Bare(y)
    decreases |x|
  {
    hide Sse.SentLines;
    if x == [] {
      assert x + y == y;
    } else {
      assert (x + y)[1..] == x[1..] + y && (x + y)[0] == x[0];
      SentPlus(codec, x[1..], y);
      var head := if x[0].Framed? then [x[0].event] else [];
      assert head + (Sse.Bare(x[1..]) + Sse.Bare(y)) == (head + Sse.Bare(x[1..])) + Sse.Bare(y);
    }
  }

  lemma {:induction false} BreaksOffMore(arrived: seq<string>, lines: seq<string>, more: seq<string>)
    requires Sse.BrokenOff(arrived, lines)
    ensures Sse.BrokenOff(arrived, lines + more)
  {
    if !(arrived <= lines) {
      var n := |arrived| - 1;
      assert (lines + more)[..n] == lines[..n] && (lines + more)[n] == lines[n];
    }
  }

  /**
   Along every run of a session in which nothing matching falls into a gap or out of the
   ring, whatever is published later: what the hub's connection carries, among comments
   and wherever it breaks, is served from what the client's stream theorems call pending.
   */
  lemma {:induction false} ConnectionIsHonest(codec: Sse.Codec, render: Hub.Body -> Dict, buffer: nat, capacity: nat,
                                              filter: Filter, steps: seq<Step>, final: seq<Hub.Published>,
                                              items: seq<Sse.Sent>, arrived: seq<string>)
    requires capacity > 0 && Benign(Start(buffer, filter), steps)
    ensures var p, t := Along(Outset(buffer, capacity), Start(buffer, filter), steps), Run(Start(buffer, filter), steps);
            && p.Some? && t.Some?
            && (t.value.conn.Some? && t.value.log <= final
                && Sse.Bare(items) == Rendered(render, p.value.written) && Sse.BrokenOff(arrived, Sse.Lines(codec, items)) ==>
                  Sse.ServedFrom(codec, arrived, Sse.Pending(ClientLog(render, final, filter), p.value.from)))
    ensures Sse.Ascending(ClientLog(render, final, filter))
  {
    ClientLogRises(render, final, filter);
    var p0, s0 := Outset(buffer, capacity), Start(buffer, filter);
    hide Along, Run, Benign, InStep, FromCursor, Exact, Sse.Ascending, Sse.BrokenOff, Sse.ServedFrom, Sse.Lines, Sse.Bare, ClientLog, Sse.Pending, Carries;
    OutsetHolds(buffer, capacity, filter);
    FilterStays(s0, steps);
    AlongCarries(p0, s0, steps);
    var p, t := Along(p0, s0, steps).value, Run(s0, steps).value;
    ExactCarries(p, t);
    if t.conn.Some? && t.log <= final {
      WrittenServed(codec, render, p, t, final, items, arrived);
    }
  }

  lemma {:induction false} OutsetHolds(buffer: nat, capacity: nat, filter: Filter)
    requires capacity > 0
    ensures var p, s := Outset(buffer, capacity), Start(buffer, filter);
            InStep(p, s) && FromCursor(p, s) && Exact(s)
  {
    assert Hub.Events([]) == [];
  }

  lemma {:induction false} WrittenServed(codec: Sse.Codec, render: Hub.Body -> Dict, p: Path, s: Session,
                                         final: seq<Hub.Published>, items: seq<Sse.Sent>, arrived: seq<string>)
    requires s.conn.Some? && Carries(p, s) && s.log <= final
    ensures Sse.Bare(items) == Rendered(render, p.written) && Sse.BrokenOff(arrived, Sse.Lines(codec, items)) ==>
              Sse.ServedFrom(codec, arrived, Sse.Pending(ClientLog(render, final, s.filter), p.from))
  {
    assert |Hub.Events(final)| == |final| && p.from <= |final|;
    hide Matching, Hub.Events, Sse.Lines, Sse.Bare, Sse.Frames, Sse.BrokenOff, Sse.Pending, ClientLog;
    LaterLog(s.log, final, s.filter, p.from);
    PendingMatches(render, final, s.filter, p.from);
    var whole := Matching(Hub.Events(final)[p.from..], s.filter);
    var rest := whole[|p.written|..];
    assert whole == p.written + rest;
    var a, b := Rendered(render, p.written), Rendered(render, rest);
    assert Rendered(render, whole) == a + b;
    Sse.FramesAreBare(b);
    SentPlus(codec, items, Sse.Frames(b));
    if Sse.BrokenOff(arrived, Sse.Lines(codec, items)) {
      BreaksOffMore(arrived, Sse.Lines(codec, items), Sse.Lines(codec, Sse.Frames(b)));
    }
  }

  /**
   In every such run the connection carries exactly what was asked for after its cursor:
   each event published since, in the fields of its body, and no other.
   */
  lemma {:induction false} WritesWhatWasAsked(buffer: nat, capacity: nat, filter: Filter, steps: seq<Step>)
    requires capacity > 0 && Benign(Start(buffer, filter), steps)
    ensures var p, t := Along(Outset(buffer, capacity), Start(buffer, filter), steps), Run(Start(buffer, filter), steps);
            && p.Some? && t.Some?
            && (t.value.conn.Some? ==>
                  && p.value.from <= |t.value.log|
                  && (forall e :: e in p.value.written ==> AskedFor(e.body, filter) && p.value.from < e.id <= |t.value.log|)
                  && (forall i :: p.value.from <= i < |t.value.log| && AskedFor(t.value.log[i].body, filter) ==>
                        Logged(t.value.log, i) in p.value.written))
  {
    hide Along, Run, Benign, InStep, FromCursor, Exact, AskedFor, Matching, Hub.Events;
    OutsetHolds(buffer, capacity, filter);
    FilterStays(Start(buffer, filter), steps);
    AlongCarries(Outset(buffer, capacity), Start(buffer, filter), steps);
    var p, t := Along(Outset(buffer, capacity), Start(buffer, filter), steps).value, Run(Start(buffer, filter), steps).value;
    ExactCarries(p, t);
    if t.conn.Some? {
      WholeLog(t.log, p.from);
      MatchingKeeps(t.log, p.from, |t.log|, filter);
      forall i | p.from <= i < |t.log| && AskedFor(t.log[i].body, filter) ensures Logged(t.log, i) in p.written {
        assert AskedHere(Logged(t.log, i), t.log, p.from, |t.log|, filter);
      }
    }
  }

  lemma {:induction false} WholeLog(log: seq<Hub.Published>, from: nat)
    requires from <= |log|
    ensures from <= |Hub.Events(log)| == |log| && Hub.Events(log)[from..|log|] == Hub.Events(log)[from..]
  {
  }
}
