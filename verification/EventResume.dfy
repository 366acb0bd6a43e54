/**
 Following one run across dropped connections: the server replays its ring after
 the client's cursor and then goes live; the client reconnects from the last event
 it saw.  Publishes are serial and queues keep up, so a connection is one pipe.
 */
module EventResume {
  import opened Text
  import opened EventHub

  // ---------------------------------------------------------------- filtering

  /** What a stream is asked for; an empty set asks for everything. */
  datatype Filter = Filter(schemes: set<string>, runs: set<string>)

  const ANY := Filter({}, {})

  /** `_sse_event_matches`: no filter lets everything through. */
  predicate Matches(e: Event, filter: Filter) {
    && (filter.schemes == {} || SchemeOf(e.body.uri) in filter.schemes)
    && (filter.runs == {} || e.body.run in filter.runs)
  }

  function SchemeOf(uri: string): string {
    match SchemeEnd(uri)
    case None => uri
    case Some(i) => uri[..i]
  }

  function Matching(events: seq<Event>, filter: Filter): seq<Event> {
    if events == [] then []
    else
      var last := events[|events| - 1];
      Matching(events[..|events| - 1], filter) + if Matches(last, filter) then [last] else []
  }

  lemma {:induction false} MatchingAppend(a: seq<Event>, b: seq<Event>, filter: Filter)
    ensures Matching(a + b, filter) == Matching(a, filter) + Matching(b, filter)
    decreases |b|
  {
    if b == [] {
      assert a + b == a;
    } else {
      assert (a + b)[..|a + b| - 1] == a + b[..|b| - 1];
      MatchingAppend(a, b[..|b| - 1], filter);
    }
  }

  // ------------------------------------------------------------- the session

  /** Frames on their way to the client, and whether the server has gone live. */
  datatype Connection = Connection(pipe: seq<Event>, live: bool)

  datatype Session = Session(
    buffer: nat,
    filter: Filter,
    log: seq<Published>,
    last: nat,
    yielded: seq<Event>,
    done: bool,
    conn: Option<Connection>)

  datatype Step = Publish(body: Body) | Connect | GoLive | Read | Drop

  function Start(buffer: nat, filter: Filter): Session {
    Session(buffer, filter, [], 0, [], false, None)
  }

  function Ring(s: Session): seq<Event> {
    LastOf(Events(s.log), Min(|s.log|, s.buffer))
  }

  predicate Enabled(s: Session, step: Step) {
    match step
    case Publish(_) => true
    case Connect => s.conn.None? && !s.done
    case GoLive => s.conn.Some? && !s.conn.value.live
    case Read => s.conn.Some? && s.conn.value.pipe != []
    case Drop => s.conn.Some?
  }

  function Next(s: Session, step: Step): Session
    requires Enabled(s, step)
  {
    match step
    case Publish(body) =>
      var e := Event(|s.log| + 1, body);
      var s1 := s.(log := s.log + [Published(0, body)]);
      if s.conn.Some? && s.conn.value.live && Matches(e, s.filter)
      then s1.(conn := Some(s.conn.value.(pipe := s.conn.value.pipe + [e])))
      else s1
    case Connect => s.(conn := Some(Connection(Matching(ReplaySince(Ring(s), s.last), s.filter), false)))
    case GoLive => s.(conn := Some(s.conn.value.(live := true)))
    case Read =>
      var e := s.conn.value.pipe[0];
      var s1 := s.(last := if e.id > s.last then e.id else s.last, yielded := s.yielded + [e],
                   conn := Some(s.conn.value.(pipe := s.conn.value.pipe[1..])));
      if e.body.event == "result" then s1.(done := true, conn := None) else s1
    case Drop => s.(conn := None)
  }

  /** No matching event is published between a replay and going live. */
  predicate NoGap(s: Session, step: Step) {
    step.Publish? ==> s.conn.None? || s.conn.value.live || !Matches(Event(|s.log| + 1, step.body), s.filter)
  }

  /** The events the ring no longer holds. */
  function Evicted(s: Session): nat { |s.log| - Min(|s.log|, s.buffer) }

  /** A reconnect finds every matching event after the cursor still in the ring. */
  predicate Reaches(s: Session, step: Step) {
    step.Connect? && s.last < Evicted(s) ==> Matching(Events(s.log)[s.last..Evicted(s)], s.filter) == []
  }

  /** A run of the session in which every step was possible, and every step met `NoGap` and `Reaches`. */
  ghost predicate Benign(s: Session, steps: seq<Step>)
    decreases |steps|
  {
    steps != [] ==>
      && Enabled(s, steps[0]) && NoGap(s, steps[0]) && Reaches(s, steps[0])
      && Benign(Next(s, steps[0]), steps[1..])
  }

  function Run(s: Session, steps: seq<Step>): Option<Session>
    decreases |steps|
  {
    if steps == [] then Some(s)
    else if !Enabled(s, steps[0]) then None
    else Run(Next(s, steps[0]), steps[1..])
  }

  // --------------------------------------------------------------- exactness

  function AllMatching(s: Session): seq<Event> {
    Matching(Events(s.log), s.filter)
  }

  predicate NoResult(events: seq<Event>) {
    forall i :: 0 <= i < |events| ==> events[i].body.event != "result"
  }

  /** A result is the last thing seen, and ends the session. */
  ghost predicate EndsWithResult(s: Session) {
    && (s.conn.Some? ==> !s.done)
    && if s.done then s.yielded != [] && s.yielded[|s.yielded| - 1].body.event == "result" && NoResult(s.yielded[..|s.yielded| - 1])
       else NoResult(s.yielded)
  }

  /** The client has been given exactly the matching events up to its cursor. */
  ghost predicate CaughtUp(s: Session) {
    s.last <= |s.log| && s.yielded == Matching(Events(s.log)[..s.last], s.filter)
  }

  /** And while connected, what is in the pipe completes them. */
  ghost predicate Exact(s: Session) {
    && CaughtUp(s) && EndsWithResult(s)
    && (s.conn.Some? ==> s.yielded + s.conn.value.pipe == AllMatching(s))
  }

  lemma {:induction false} EventsAppend(log: seq<Published>, p: Published)
    ensures Events(log + [p]) == Events(log) + [Event(|log| + 1, p.body)]
  {
  }

  /** Everything matching up to and including a matching event. */
  lemma {:induction false} MatchingUpTo(log: seq<Published>, n: nat, filter: Filter, i: nat)
    requires n <= |log| && i < |Matching(Events(log)[..n], filter)|
    ensures var all := Matching(Events(log)[..n], filter);
            && 1 <= all[i].id <= n
            && Matching(Events(log)[..all[i].id], filter) == all[..i + 1]
    decreases n
  {
    var events := Events(log)[..n];
    assert events[..n - 1] == Events(log)[..n - 1];
    var init := Matching(events[..n - 1], filter);
    if i < |init| {
      MatchingUpTo(log, n - 1, filter, i);
    }
  }

  lemma {:induction false} ReplayIsSuffix(log: seq<Published>, j: nat, last: nat)
    requires j <= |log| && last <= |log|
    ensures ReplaySince(Events(log)[j..], last) == Events(log)[if j < last then last else j..]
    decreases |log| - j
  {
    if j < |log| {
      var all := Events(log);
      assert all[j..][1..] == all[j + 1..] && all[j..][0].id == j + 1;
      ReplayIsSuffix(log, j + 1, last);
      hide Events;
      assert j >= last ==> [all[j]] + all[j + 1..] == all[j..];
    }
  }

  function CursorOrEviction(s: Session): nat { if Evicted(s) < s.last then s.last else Evicted(s) }

  lemma {:induction false} ReplayPipe(s: Session)
    requires s.last <= |s.log| && Enabled(s, Connect)
    ensures Next(s, Connect).conn == Some(Connection(Matching(Events(s.log)[CursorOrEviction(s)..], s.filter), false))
  {
    ReplayIsSuffix(s.log, Evicted(s), s.last);
  }

  /** What matches is what was seen, what was lost between, and what can be replayed. */
  lemma {:induction false} ThreeParts(s: Session)
    requires s.last <= |s.log|
    ensures AllMatching(s) ==
            Matching(Events(s.log)[..s.last], s.filter) +
            Matching(Events(s.log)[s.last..CursorOrEviction(s)], s.filter) +
            Matching(Events(s.log)[CursorOrEviction(s)..], s.filter)
  {
    var events, mid := Events(s.log), CursorOrEviction(s);
    assert events == events[..s.last] + events[s.last..mid] + events[mid..];
    MatchingAppend(events[..s.last] + events[s.last..mid], events[mid..], s.filter);
    MatchingAppend(events[..s.last], events[s.last..mid], s.filter);
  }

  lemma {:induction false} MiddleEmpty<T>(a: seq<T>, m: seq<T>, b: seq<T>)
    ensures a + b == a + m + b <==> m == []
  {
    if m == [] {
      assert a + m == a;
    } else {
      assert |a + m + b| > |a + b|;
    }
  }

  /** Right after a reconnect nothing is missing if and only if no matching event was evicted unseen. */
  lemma {:induction false} ConnectExact(s: Session)
    requires Exact(s) && s.conn.None? && !s.done
    ensures s.yielded + Next(s, Connect).conn.value.pipe == AllMatching(s) <==> Reaches(s, Connect)
  {
    hide Matching, Next, ReplaySince;
    ReplayPipe(s);
    ThreeParts(s);
    var events, mid := Events(s.log), CursorOrEviction(s);
    MiddleEmpty(s.yielded, Matching(events[s.last..mid], s.filter), Matching(events[mid..], s.filter));
    if Evicted(s) <= s.last {
      assert events[s.last..mid] == [];
      MatchingNothing(s.filter);
    }
  }

  lemma {:induction false} MatchingNothing(filter: Filter)
    ensures Matching([], filter) == []
  {
  }

  lemma {:induction false} SameEvents(s: Session, body: Body)
    requires s.last <= |s.log|
    ensures var t, e := Next(s, Publish(body)), Event(|s.log| + 1, body);
            && Events(t.log) == Events(s.log) + [e] && Events(t.log)[..s.last] == Events(s.log)[..s.last]
            && AllMatching(t) == AllMatching(s) + if Matches(e, s.filter) then [e] else []
  {
    EventsAppend(s.log, Published(0, body));
    hide Events, Matches;
    var t, e := Next(s, Publish(body)), Event(|s.log| + 1, body);
    assert Events(t.log)[..|s.log|] == Events(s.log);
  }

  lemma {:induction false} LongerDiffers<T>(a: seq<T>, b: seq<T>, c: seq<T>, e: T)
    requires a + b == c
    ensures a + (b + [e]) == c + [e] && a + b != c + [e]
  {
  }

  /** A publish keeps the session exact if and only if it is no gap. */
  lemma {:induction false} PublishExact(s: Session, body: Body)
    requires Exact(s)
    ensures Exact(Next(s, Publish(body))) <==> NoGap(s, Publish(body))
  {
    SameEvents(s, body);
    hide Events, Matches, Matching, NoResult;
    if s.conn.Some? {
      LongerDiffers(s.yielded, s.conn.value.pipe, AllMatching(s), Event(|s.log| + 1, body));
      assert AllMatching(s) + [] == AllMatching(s);
    }
  }

  lemma {:induction false} ReadKeepsExact(s: Session)
    requires Exact(s) && Enabled(s, Read)
    ensures Exact(Next(s, Read))
  {
    hide Matches, Matching, Events;
    var s1 := Next(s, Read);
    var pipe, n := s.conn.value.pipe, |s.yielded|;
    var all := AllMatching(s);
    assert all[n] == pipe[0] && all[..n] == s.yielded;
    NextMatching(s.log, s.last, s.filter);
    assert all[..n + 1] == s.yielded + [pipe[0]];
    assert s1.yielded[..n] == s.yielded;
    assert s.yielded + [pipe[0]] + pipe[1..] == s.yielded + pipe;
  }

  /** The first matching event after a cursor, and what matches up to it. */
  lemma {:induction false} NextMatching(log: seq<Published>, last: nat, filter: Filter)
    requires last <= |log|
    ensures var all, n := Matching(Events(log), filter), |Matching(Events(log)[..last], filter)|;
            n < |all| ==> last < all[n].id <= |log| && Matching(Events(log)[..all[n].id], filter) == all[..n + 1]
  {
    var all, n := Matching(Events(log), filter), |Matching(Events(log)[..last], filter)|;
    assert Events(log)[..|log|] == Events(log);
    if n < |all| {
      MatchingUpTo(log, |log|, filter, n);
      if all[n].id <= last {
        CursorMonotone(log, all[n].id, last, filter);
      }
    }
  }

  lemma {:induction false} CursorMonotone(log: seq<Published>, i: nat, j: nat, filter: Filter)
    requires i <= j <= |log|
    ensures |Matching(Events(log)[..i], filter)| <= |Matching(Events(log)[..j], filter)|
  {
    assert Events(log)[..j] == Events(log)[..i] + Events(log)[i..j];
    MatchingAppend(Events(log)[..i], Events(log)[i..j], filter);
  }

  /** What keeps a session exact, step by step: exactly that nothing matching falls into the gap or out of the ring. */
  lemma {:induction false} StepExact(s: Session, step: Step)
    requires Exact(s) && Enabled(s, step)
    ensures Exact(Next(s, step)) <==> NoGap(s, step) && Reaches(s, step)
  {
    hide Matching, Events, Matches, ReplaySince, NoResult;
    match step
    case Publish(body) => PublishExact(s, body);
    case Connect => ConnectExact(s);
    case Read => ReadKeepsExact(s);
    case _ =>
  }

  lemma {:induction false} RunKeepsExact(s: Session, steps: seq<Step>)
    requires Exact(s) && Benign(s, steps)
    ensures Run(s, steps).Some? && Exact(Run(s, steps).value)
    decreases |steps|
  {
    hide Exact, Enabled, NoGap, Reaches, Next;
    if steps != [] {
      StepExact(s, steps[0]);
      RunKeepsExact(Next(s, steps[0]), steps[1..]);
    }
  }

  /**
   Resume is exact: over any number of drops, the client has been given precisely
   the matching events published up to its cursor, each once and in order, ending
   with the first result; and while connected, reading what is in the pipe
   completes them.
   */
  lemma {:induction false} ResumeExact(buffer: nat, filter: Filter, steps: seq<Step>)
    requires Benign(Start(buffer, filter), steps)
    ensures var s := Run(Start(buffer, filter), steps);
            s.Some? && Exact(s.value) && s.value.yielded <= AllMatching(s.value)
  {
    assert Events([])[..0] == [];
    RunKeepsExact(Start(buffer, filter), steps);
    var s := Run(Start(buffer, filter), steps).value;
    assert Events(s.log) == Events(s.log)[..s.last] + Events(s.log)[s.last..];
    MatchingAppend(Events(s.log)[..s.last], Events(s.log)[s.last..], s.filter);
  }

  /** A sufficient test at reconnect: at most `buffer` events were published after the last one seen. */
  lemma {:induction false} BufferSuffices(s: Session)
    requires |s.log| - s.last <= s.buffer
    ensures Reaches(s, Connect)
  {
  }

  // ------------------------------------- what holds without those assumptions

  ghost predicate Ascending(events: seq<Event>, lo: nat, hi: nat) {
    && (forall i :: 0 <= i < |events| ==> lo < events[i].id <= hi)
    && forall i, j :: 0 <= i < j < |events| ==> events[i].id < events[j].id
  }

  ghost predicate Real(events: seq<Event>, s: Session) {
    forall i :: 0 <= i < |events| ==>
      && 1 <= events[i].id <= |s.log| && events[i] == Events(s.log)[events[i].id - 1]
      && Matches(events[i], s.filter)
  }

  /** Whatever happens, nothing is invented, repeated or out of order. */
  ghost predicate Orderly(s: Session) {
    && s.last <= |s.log|
    && Ascending(s.yielded, 0, s.last) && Real(s.yielded, s)
    && (s.conn.Some? ==> Ascending(s.conn.value.pipe, s.last, |s.log|) && Real(s.conn.value.pipe, s))
  }

  lemma {:induction false} MatchingSnoc(log: seq<Published>, lo: nat, hi: nat, filter: Filter)
    requires lo < hi <= |log|
    ensures var e := Event(hi, log[hi - 1].body);
            && |Events(log)| == |log| && Events(log)[hi - 1] == e
            && Matching(Events(log)[lo..hi], filter) ==
               Matching(Events(log)[lo..hi - 1], filter) + if Matches(e, filter) then [e] else []
  {
    hide Matches;
    assert Events(log)[lo..hi][..hi - lo - 1] == Events(log)[lo..hi - 1];
  }

  /** These are events of the whole, each at its place, and match. */
  ghost predicate Picked(m: seq<Event>, all: seq<Event>, filter: Filter) {
    forall i :: 0 <= i < |m| ==> 1 <= m[i].id <= |all| && m[i] == all[m[i].id - 1] && Matches(m[i], filter)
  }

  lemma {:induction false} PickedSnoc(m: seq<Event>, e: Event, all: seq<Event>, lo: nat, hi: nat, filter: Filter)
    requires lo < hi <= |all| && Ascending(m, lo, hi - 1) && Picked(m, all, filter)
    requires e == all[hi - 1] && e.id == hi && Matches(e, filter)
    ensures Ascending(m + [e], lo, hi) && Picked(m + [e], all, filter)
  {
    hide Matches;
    var n := m + [e];
    forall i | 0 <= i < |n| ensures lo < n[i].id <= hi && n[i] == all[n[i].id - 1] && Matches(n[i], filter) {
      if i < |m| {
        assert n[i] == m[i];
      }
    }
    forall i, j | 0 <= i < j < |n| ensures n[i].id < n[j].id {
      assert n[i] == m[i];
      if j < |m| {
        assert n[j] == m[j];
      }
    }
  }

  lemma {:induction false} MatchingOrderly(log: seq<Published>, lo: nat, hi: nat, filter: Filter)
    requires lo <= hi <= |log|
    ensures var m := Matching(Events(log)[lo..hi], filter);
            && Ascending(m, lo, hi)
            && forall i :: 0 <= i < |m| ==> m[i] == Events(log)[m[i].id - 1] && Matches(m[i], filter)
  {
    MatchingPicked(log, lo, hi, filter);
    hide Matching, Matches;
  }

  lemma {:induction false} MatchingPicked(log: seq<Published>, lo: nat, hi: nat, filter: Filter)
    requires lo <= hi <= |log|
    ensures Ascending(Matching(Events(log)[lo..hi], filter), lo, hi) && Picked(Matching(Events(log)[lo..hi], filter), Events(log), filter)
    decreases hi
  {
    if lo < hi {
      MatchingSnoc(log, lo, hi, filter);
      MatchingPicked(log, lo, hi - 1, filter);
      hide Matching, Events, Matches, Picked;
      var m, e := Matching(Events(log)[lo..hi - 1], filter), Event(hi, log[hi - 1].body);
      if Matches(e, filter) {
        PickedSnoc(m, e, Events(log), lo, hi, filter);
      } else {
        assert m + [] == m;
      }
    } else {
      assert Events(log)[lo..hi] == [];
    }
  }

  lemma {:induction false} ConnectOrderly(s: Session)
    requires Orderly(s) && Enabled(s, Connect)
    ensures Orderly(Next(s, Connect))
  {
    hide Matching, Matches, ReplaySince;
    ReplayPipe(s);
    var mid := CursorOrEviction(s);
    assert Events(s.log)[mid..] == Events(s.log)[mid..|s.log|];
    MatchingOrderly(s.log, mid, |s.log|, s.filter);
  }

  lemma {:induction false} ReadOrderly(s: Session)
    requires Orderly(s) && Enabled(s, Read)
    ensures Orderly(Next(s, Read))
  {
    var pipe, t := s.conn.value.pipe, Next(s, Read);
    assert s.last < pipe[0].id <= |s.log| && t.last == pipe[0].id;
    SnocAscending(s.yielded, s.last, pipe[0]);
    TailAscending(pipe, s.last, |s.log|);
    MovedReal(s.yielded, pipe, s, t);
    hide Matches, Events, Real, Ascending;
  }

  lemma {:induction false} SnocAscending(events: seq<Event>, last: nat, e: Event)
    requires Ascending(events, 0, last) && last < e.id
    ensures Ascending(events + [e], 0, e.id)
  {
  }

  lemma {:induction false} TailAscending(events: seq<Event>, lo: nat, hi: nat)
    requires Ascending(events, lo, hi) && events != []
    ensures Ascending(events[1..], events[0].id, hi)
  {
  }

  lemma {:induction false} MovedReal(a: seq<Event>, b: seq<Event>, s: Session, t: Session)
    requires Real(a, s) && Real(b, s) && b != [] && t.log == s.log && t.filter == s.filter
    ensures Real(a + [b[0]], t) && Real(b[1..], t)
  {
    hide Events, Matches;
  }

  lemma {:induction false} PublishOrderly(s: Session, body: Body)
    requires Orderly(s) && Enabled(s, Publish(body))
    ensures Orderly(Next(s, Publish(body)))
  {
    hide Matches, Real;
    var t := Next(s, Publish(body));
    StaysReal(s.yielded, s, t);
    if s.conn.Some? {
      var e := Event(|s.log| + 1, body);
      StaysReal(s.conn.value.pipe, s, t);
      if t.conn.value.pipe != s.conn.value.pipe {
        assert t.conn.value.pipe == s.conn.value.pipe + [e];
        NewestReal(s.conn.value.pipe, e, t);
      }
    }
  }

  lemma {:induction false} StaysReal(events: seq<Event>, s: Session, t: Session)
    requires Real(events, s) && |t.log| == |s.log| + 1 && t.log[..|s.log|] == s.log && t.filter == s.filter
    ensures Real(events, t)
  {
    assert t.log == s.log + [t.log[|s.log|]];
    EventsAppend(s.log, t.log[|s.log|]);
    hide Events, Matches;
  }

  lemma {:induction false} NewestReal(events: seq<Event>, e: Event, t: Session)
    requires Real(events, t) && t.log != [] && e == Event(|t.log|, t.log[|t.log| - 1].body) && Matches(e, t.filter)
    ensures Real(events + [e], t)
  {
    assert Events(t.log)[|t.log| - 1] == e;
    hide Events, Matches;
  }

  lemma {:induction false} StepKeepsOrderly(s: Session, step: Step)
    requires Orderly(s) && Enabled(s, step)
    ensures Orderly(Next(s, step))
  {
    match step
    case Publish(body) => PublishOrderly(s, body);
    case Connect => ConnectOrderly(s);
    case Read => ReadOrderly(s);
    case _ =>
  }

  lemma {:induction false} RunKeepsOrderly(s: Session, steps: seq<Step>)
    requires Orderly(s)
    ensures Run(s, steps).Some? ==> Orderly(Run(s, steps).value)
    decreases |steps|
  {
    hide Orderly, Enabled, Next;
    if steps != [] && Enabled(s, steps[0]) {
      StepKeepsOrderly(s, steps[0]);
      RunKeepsOrderly(Next(s, steps[0]), steps[1..]);
    }
  }

  /** Over every run at all, the client sees matching events only, each at most once and in order. */
  lemma {:induction false} NeverDuplicated(buffer: nat, filter: Filter, steps: seq<Step>)
    ensures var s := Run(Start(buffer, filter), steps);
            s.Some? ==> Orderly(s.value)
  {
    RunKeepsOrderly(Start(buffer, filter), steps);
  }

  // --------------------------------------------- when nothing is missed at all

  /** The next read passes over a matching event. */
  predicate Skips(s: Session) {
    && s.conn.Some? && s.conn.value.pipe != []
    && s.last < s.conn.value.pipe[0].id <= |s.log|
    && Matching(Events(s.log)[s.last..s.conn.value.pipe[0].id - 1], s.filter) != []
  }

  /** No read of the run passes over a matching event. */
  ghost predicate NeverSkips(s: Session, steps: seq<Step>)
    decreases |steps|
  {
    steps != [] && Enabled(s, steps[0]) ==> !(steps[0].Read? && Skips(s)) && NeverSkips(Next(s, steps[0]), steps[1..])
  }

  /** How many matching events the cursor has passed without their being given. */
  function Missed(s: Session): int
    requires s.last <= |s.log|
  {
    |Matching(Events(s.log)[..s.last], s.filter)| - |s.yielded|
  }

  lemma {:induction false} MatchingThrough(s: Session, e: Event)
    requires s.last < e.id <= |s.log| && e == Events(s.log)[e.id - 1] && Matches(e, s.filter)
    ensures Matching(Events(s.log)[..e.id], s.filter) ==
            Matching(Events(s.log)[..s.last], s.filter) + Matching(Events(s.log)[s.last..e.id - 1], s.filter) + [e]
  {
    var events := Events(s.log);
    assert |events| == |s.log|;
    hide Events, Matches;
    assert events[..e.id][..e.id - 1] == events[..e.id - 1];
    assert events[..e.id - 1] == events[..s.last] + events[s.last..e.id - 1];
    MatchingAppend(events[..s.last], events[s.last..e.id - 1], s.filter);
  }

  /** A read adds what it passes over to the missed, and nothing ever takes from them. */
  lemma {:induction false} StepMisses(s: Session, step: Step)
    requires Orderly(s) && Enabled(s, step)
    ensures Next(s, step).last <= |Next(s, step).log|
    ensures Missed(Next(s, step)) == Missed(s) +
              if step.Read? then |Matching(Events(s.log)[s.last..s.conn.value.pipe[0].id - 1], s.filter)| else 0
  {
    match step
    case Publish(body) => SameEvents(s, body);
    case Read =>
      hide Matching, Events, Matches;
      MatchingThrough(s, s.conn.value.pipe[0]);
    case _ =>
  }

  /** Until a read passes over a matching event the client has exactly what it should, gap or no gap. */
  lemma {:induction false} StepCaughtUp(s: Session, step: Step)
    requires Orderly(s) && CaughtUp(s) && Enabled(s, step)
    ensures CaughtUp(Next(s, step)) <==> !(step.Read? && Skips(s))
  {
    match step
    case Publish(body) => SameEvents(s, body);
    case Read =>
      hide Matching, Events, Matches;
      var e := s.conn.value.pipe[0];
      MatchingThrough(s, e);
      MiddleEmpty(s.yielded, Matching(Events(s.log)[s.last..e.id - 1], s.filter), [e]);
    case _ =>
  }

  lemma {:induction false} RunMisses(s: Session, steps: seq<Step>)
    requires Orderly(s)
    ensures Run(s, steps).Some? ==> Run(s, steps).value.last <= |Run(s, steps).value.log| && Missed(Run(s, steps).value) >= Missed(s)
    decreases |steps|
  {
    hide Enabled, Next, Missed, Ascending, Real;
    if steps != [] && Enabled(s, steps[0]) {
      StepKeepsOrderly(s, steps[0]);
      StepMisses(s, steps[0]);
      RunMisses(Next(s, steps[0]), steps[1..]);
    }
  }

  lemma {:induction false} RunCaughtUp(s: Session, steps: seq<Step>)
    requires Orderly(s) && CaughtUp(s) && Run(s, steps).Some?
    ensures CaughtUp(Run(s, steps).value) <==> NeverSkips(s, steps)
    decreases |steps|
  {
    hide Next, Ascending, Real, Matching, Events, Matches;
    if steps != [] {
      var t := Next(s, steps[0]);
      StepKeepsOrderly(s, steps[0]);
      StepCaughtUp(s, steps[0]);
      StepMisses(s, steps[0]);
      if CaughtUp(t) {
        RunCaughtUp(t, steps[1..]);
      } else {
        RunMisses(t, steps[1..]);
      }
    }
  }

  /**
   The promise that nothing is missed, for every run at all: what the client was given
   is exactly the matching events up to its cursor if and only if no read passed over
   one.  An event that falls into the gap is harmless as long as the connection drops
   before a later one is read.
   */
  lemma {:induction false} NothingMissed(buffer: nat, filter: Filter, steps: seq<Step>)
    requires Run(Start(buffer, filter), steps).Some?
    ensures CaughtUp(Run(Start(buffer, filter), steps).value) <==> NeverSkips(Start(buffer, filter), steps)
  {
    RunCaughtUp(Start(buffer, filter), steps);
  }

  /** An exact session has nothing to pass over, so only a gap or an eviction can make a read do so. */
  lemma {:induction false} ExactNeverSkips(s: Session)
    requires Orderly(s) && Exact(s)
    ensures !Skips(s)
  {
    if s.conn.Some? && s.conn.value.pipe != [] {
      hide Matching, Events, Matches, Next, NoResult;
      ReadKeepsExact(s);
      CaughtUpAfterRead(s);
    }
  }

  lemma {:induction false} CaughtUpAfterRead(s: Session)
    requires Orderly(s) && CaughtUp(s) && Enabled(s, Read)
    ensures CaughtUp(Next(s, Read)) <==> !Skips(s)
  {
    StepCaughtUp(s, Read);
  }

  /** A drop before any read makes good a gap: the next replay is complete if and only if the ring still reaches. */
  lemma {:induction false} DropHeals(s: Session)
    requires CaughtUp(s) && EndsWithResult(s) && Enabled(s, Drop)
    ensures var t := Next(s, Drop);
            Exact(t) && (Exact(Next(t, Connect)) <==> Reaches(t, Connect))
  {
    hide Matching, Events, Matches, ReplaySince, NoResult;
    StepExact(Next(s, Drop), Connect);
  }

  /** So an event published into the gap of an exact session is replayed when the connection drops at once. */
  lemma {:induction false} GapReplayed(s: Session, body: Body)
    requires Exact(s) && s.conn.Some? && !s.conn.value.live
    ensures var t := Next(Next(s, Publish(body)), Drop);
            Exact(t) && (Exact(Next(t, Connect)) <==> Reaches(t, Connect))
  {
    SameEvents(s, body);
    hide Matching, Events, Matches, ReplaySince, NoResult;
    DropHeals(Next(s, Publish(body)));
  }

  // ----------------------------------------------- what the assumptions buy

  ghost predicate Seen(s: Session, id: nat) {
    exists i :: 0 <= i < |s.yielded| && s.yielded[i].id == id
  }

  /** An event the cursor has passed without yielding it is never yielded, on any connection. */
  lemma {:induction false} LostForever(s: Session, steps: seq<Step>, id: nat)
    requires Orderly(s) && id <= s.last && !Seen(s, id)
    ensures var t := Run(s, steps);
            t.Some? ==> id <= t.value.last && !Seen(t.value, id)
    decreases |steps|
  {
    if steps != [] && Enabled(s, steps[0]) {
      hide Matching, ReplaySince, Matches, Events;
      var t := Next(s, steps[0]);
      StepKeepsOrderly(s, steps[0]);
      assert !Seen(t, id) by {
        if steps[0].Read? {
          assert t.yielded == s.yielded + [s.conn.value.pipe[0]];
          assert s.conn.value.pipe[0].id > s.last;
          forall i | 0 <= i < |s.yielded| ensures t.yielded[i].id != id {
            assert t.yielded[i] == s.yielded[i];
          }
        }
      }
      LostForever(t, steps[1..], id);
    }
  }

  /** The session after `a` fell between replay and going live and a later `b` was read. */
  function AfterGap(a: Body, b: Body, buffer: nat): Session {
    Session(buffer, ANY, [Published(0, a), Published(0, b)], 2, [Event(2, b)], false, Some(Connection([], true)))
  }

  lemma {:induction false} FirstConnect(buffer: nat)
    ensures Next(Start(buffer, ANY), Connect) == Start(buffer, ANY).(conn := Some(Connection([], false)))
  {
    assert Ring(Start(buffer, ANY)) == [];
  }

  lemma {:induction false} PublishReplaying(s: Session, body: Body)
    requires s.conn.Some? && !s.conn.value.live
    ensures Next(s, Publish(body)) == s.(log := s.log + [Published(0, body)])
  {
  }

  lemma {:induction false} PublishLive(s: Session, body: Body)
    requires s.conn == Some(Connection([], true)) && s.filter == ANY
    ensures Next(s, Publish(body)) ==
            s.(log := s.log + [Published(0, body)], conn := Some(Connection([Event(|s.log| + 1, body)], true)))
  {
    assert [] + [Event(|s.log| + 1, body)] == [Event(|s.log| + 1, body)];
  }

  lemma {:induction false} ReadOne(s: Session, e: Event)
    requires s.conn == Some(Connection([e], true)) && s.last < e.id && e.body.event != "result"
    ensures Next(s, Read) == s.(last := e.id, yielded := s.yielded + [e], conn := Some(Connection([], true)))
  {
    assert [e][1..] == [];
  }

  lemma {:induction false} GapRun(a: Body, b: Body, buffer: nat)
    requires b.event != "result"
    ensures Run(Start(buffer, ANY), [Connect, Publish(a), GoLive, Publish(b), Read]) == Some(AfterGap(a, b, buffer))
  {
    hide Next, Run;
    var s0 := Start(buffer, ANY);
    FirstConnect(buffer);
    var s1 := Next(s0, Connect);
    PublishReplaying(s1, a);
    var s2 := Next(s1, Publish(a));
    WentLive(s2);
    var s3 := Next(s2, GoLive);
    PublishLive(s3, b);
    var s4 := Next(s3, Publish(b));
    ReadOne(s4, Event(2, b));
    FiveSteps(s0, s1, s2, s3, s4, Next(s4, Read), Connect, Publish(a), GoLive, Publish(b), Read);
    assert [] + [Published(0, a)] + [Published(0, b)] == [Published(0, a), Published(0, b)];
    assert [] + [Event(2, b)] == [Event(2, b)];
  }

  lemma {:induction false} WentLive(s: Session)
    requires s.conn == Some(Connection([], false))
    ensures Next(s, GoLive) == s.(conn := Some(Connection([], true)))
  {
  }

  lemma {:induction false} FiveSteps(s0: Session, s1: Session, s2: Session, s3: Session, s4: Session, s5: Session,
                                     a: Step, b: Step, c: Step, d: Step, e: Step)
    requires Enabled(s0, a) && Next(s0, a) == s1 && Enabled(s1, b) && Next(s1, b) == s2
    requires Enabled(s2, c) && Next(s2, c) == s3 && Enabled(s3, d) && Next(s3, d) == s4
    requires Enabled(s4, e) && Next(s4, e) == s5
    ensures Run(s0, [a, b, c, d, e]) == Some(s5)
  {
    hide Enabled, Next;
    assert Run(s5, []) == Some(s5);
    assert [e][1..] == [] && Run(s4, [e]) == Some(s5);
    assert [d, e][1..] == [e] && Run(s3, [d, e]) == Some(s5);
    assert [c, d, e][1..] == [d, e] && Run(s2, [c, d, e]) == Some(s5);
    assert [b, c, d, e][1..] == [c, d, e] && Run(s1, [b, c, d, e]) == Some(s5);
    assert [a, b, c, d, e][1..] == [b, c, d, e];
  }

  /** A publish between replay and going live, followed by one that is read, is lost for good. */
  lemma {:induction false} GapLoses(a: Body, b: Body, buffer: nat, later: seq<Step>)
    requires b.event != "result"
    ensures Run(Start(buffer, ANY), [Connect, Publish(a), GoLive, Publish(b), Read]) == Some(AfterGap(a, b, buffer))
    ensures AllMatching(AfterGap(a, b, buffer)) == [Event(1, a), Event(2, b)]
    ensures Run(AfterGap(a, b, buffer), later).Some? ==> !Seen(Run(AfterGap(a, b, buffer), later).value, 1)
  {
    hide Run;
    GapRun(a, b, buffer);
    var s := AfterGap(a, b, buffer);
    assert Events(s.log) == [Event(1, a)] + [Event(2, b)];
    MatchingAppend([Event(1, a)], [Event(2, b)], ANY);
    MatchingOne(Event(1, a));
    MatchingOne(Event(2, b));
    LostForever(s, later, 1);
  }

  lemma {:induction false} MatchingOne(e: Event)
    ensures Matching([e], ANY) == [e]
  {
    assert [e][..0] == [];
  }

  // ------------------------------------------------- what a filter lets through

  /** The URI is of this scheme: it starts with it and the first "://", or it is all there is. */
  ghost predicate OfScheme(uri: string, scheme: string) {
    var n := |scheme|;
    if n == |uri| then uri == scheme && forall k: nat :: !MarkAt(uri, k)
    else n < |uri| && uri[..n] == scheme && MarkAt(uri, n) && forall k: nat :: k < n ==> !MarkAt(uri, k)
  }

  /** Asked for, in the fields of the body: nothing was asked, or one of the names is the body's. */
  ghost predicate AskedFor(body: Body, filter: Filter) {
    && (filter.schemes == {} || exists scheme :: scheme in filter.schemes && OfScheme(body.uri, scheme))
    && (filter.runs == {} || exists r :: r in filter.runs && body.run == r)
  }

  lemma {:induction false} SchemeIs(uri: string, scheme: string)
    ensures SchemeOf(uri) == scheme <==> OfScheme(uri, scheme)
  {
    var e := SchemeEnd(uri);
    hide SchemeEnd;
    if e.Some? {
      assert |uri[..e.value]| == e.value && e.value < |uri|;
    }
    if OfScheme(uri, scheme) && |scheme| < |uri| {
      assert e == Some(|scheme|);
    }
  }

  lemma {:induction false} MatchesReads(e: Event, filter: Filter)
    ensures Matches(e, filter) <==> AskedFor(e.body, filter)
  {
    hide SchemeOf, OfScheme;
    SchemeIs(e.body.uri, SchemeOf(e.body.uri));
    forall scheme | scheme in filter.schemes ensures SchemeOf(e.body.uri) == scheme <==> OfScheme(e.body.uri, scheme) {
      SchemeIs(e.body.uri, scheme);
    }
  }

  /** Event `i + 1` of the log. */
  function Logged(log: seq<Published>, i: nat): Event
    requires i < |log|
  {
    Event(i + 1, log[i].body)
  }

  /** An event of this stretch of the log that was asked for. */
  ghost predicate AskedHere(e: Event, log: seq<Published>, lo: nat, hi: nat, filter: Filter) {
    lo < e.id <= hi <= |log| && e == Logged(log, e.id - 1) && AskedFor(e.body, filter)
  }

  lemma {:induction false} LastAsked(log: seq<Published>, lo: nat, hi: nat, filter: Filter, e: Event)
    requires lo < hi <= |log|
    ensures AskedHere(e, log, lo, hi, filter) <==>
            AskedHere(e, log, lo, hi - 1, filter) || (e == Logged(log, hi - 1) && AskedFor(e.body, filter))
  {
    hide AskedFor;
  }

  /** The filter keeps what was asked for, and that alone. */
  lemma {:induction false} MatchingKeeps(log: seq<Published>, lo: nat, hi: nat, filter: Filter)
    requires lo <= hi <= |log|
    ensures forall e :: e in Matching(Events(log)[lo..hi], filter) <==> AskedHere(e, log, lo, hi, filter)
    decreases hi
  {
    if lo < hi {
      MatchingSnoc(log, lo, hi, filter);
      hide Matches, AskedFor, Matching, Events, AskedHere;
      MatchingKeeps(log, lo, hi - 1, filter);
      MatchesReads(Logged(log, hi - 1), filter);
      var m, n := Matching(Events(log)[lo..hi - 1], filter), Matching(Events(log)[lo..hi], filter);
      forall e ensures e in n <==> AskedHere(e, log, lo, hi, filter) {
        LastAsked(log, lo, hi, filter, e);
      }
    } else {
      assert Events(log)[lo..hi] == [];
    }
  }

  /** What a client was given was published, and was asked for. */
  ghost predicate OnlyAsked(s: Session) {
    forall e :: e in s.yielded ==> 1 <= e.id <= |s.log| && e == Logged(s.log, e.id - 1) && AskedFor(e.body, s.filter)
  }

  /** And it was given all of that up to its cursor. */
  ghost predicate AllAsked(s: Session) {
    s.last <= |s.log| && forall i :: 0 <= i < s.last && AskedFor(s.log[i].body, s.filter) ==> Logged(s.log, i) in s.yielded
  }

  /** Over every run: a client is only given events it asked for. */
  lemma {:induction false} OnlyAskedFor(buffer: nat, filter: Filter, steps: seq<Step>)
    ensures var s := Run(Start(buffer, filter), steps);
            s.Some? ==> s.value.filter == filter && OnlyAsked(s.value)
  {
    NeverDuplicated(buffer, filter, steps);
    FilterStays(Start(buffer, filter), steps);
    var s := Run(Start(buffer, filter), steps);
    hide Run, Matches, AskedFor;
    if s.Some? {
      forall e | e in s.value.yielded ensures 1 <= e.id <= |s.value.log| && e == Logged(s.value.log, e.id - 1) && AskedFor(e.body, filter) {
        var i :| 0 <= i < |s.value.yielded| && s.value.yielded[i] == e;
        MatchesReads(e, filter);
      }
    }
  }

  lemma {:induction false} FilterStays(s: Session, steps: seq<Step>)
    ensures Run(s, steps).Some? ==> Run(s, steps).value.filter == s.filter
    decreases |steps|
  {
    hide Matching, Ring;
    if steps != [] && Enabled(s, steps[0]) {
      FilterStays(Next(s, steps[0]), steps[1..]);
    }
  }

  lemma {:induction false} CaughtUpIsAll(s: Session)
    requires CaughtUp(s)
    ensures AllAsked(s) && OnlyAsked(s)
  {
    assert Events(s.log)[0..s.last] == Events(s.log)[..s.last];
    MatchingKeeps(s.log, 0, s.last, s.filter);
    hide Matching, Events, AskedFor;
    forall i | 0 <= i < s.last && AskedFor(s.log[i].body, s.filter) ensures Logged(s.log, i) in s.yielded {
      assert AskedHere(Logged(s.log, i), s.log, 0, s.last, s.filter);
    }
  }

  /**
   A run in which nothing matching fell into a gap or out of the ring gives the client
   every event it asked for up to its cursor, and no other.
   */
  lemma {:induction false} AllAskedFor(buffer: nat, filter: Filter, steps: seq<Step>)
    requires Benign(Start(buffer, filter), steps)
    ensures var s := Run(Start(buffer, filter), steps);
            s.Some? && s.value.filter == filter && AllAsked(s.value) && OnlyAsked(s.value)
  {
    ResumeExact(buffer, filter, steps);
    FilterStays(Start(buffer, filter), steps);
    hide Run, Benign, CaughtUp, AllAsked, OnlyAsked;
    CaughtUpIsAll(Run(Start(buffer, filter), steps).value);
  }

  /** For instance a client of one run: it is given that run's events, and all of them up to its cursor. */
  lemma {:induction false} OneRun(buffer: nat, r: string, steps: seq<Step>)
    requires Benign(Start(buffer, Filter({}, {r})), steps)
    ensures var s := Run(Start(buffer, Filter({}, {r})), steps);
            && s.Some? && s.value.last <= |s.value.log|
            && (forall e :: e in s.value.yielded ==> e.body.run == r)
            && (forall i :: 0 <= i < s.value.last && s.value.log[i].body.run == r ==> Logged(s.value.log, i) in s.value.yielded)
  {
    hide Run, Benign;
    AllAskedFor(buffer, Filter({}, {r}), steps);
  }
}
