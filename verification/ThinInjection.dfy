/**
 Injecting the advisory steps preserves what the flow means.

 The plan built around a flow is compared with the flow alone, for any dispatcher
 whose answers to the flow's own calls do not depend on the injected ones.  The
 verdict is the same, except in one family of runs, which is named exactly.
 */
module ThinInjection {
  import opened Text
  import opened Json
  import opened ThinModel
  import opened ThinPlan
  import opened ThinGuard

  // --------------------------------------------------------------- user parts

  /** The results of the user's steps. */
  function UserPart(results: Results, ids: set<string>): Results {
    if results == [] then []
    else if results[0].0 in ids then UserPart(results[1..], ids)
    else [results[0]] + UserPart(results[1..], ids)
  }

  /** The timeline without the entries of injected steps. */
  function UserTimeline(timeline: seq<Entry>, ids: set<string>): seq<Entry> {
    if timeline == [] then []
    else
      var last := timeline[|timeline| - 1];
      UserTimeline(timeline[..|timeline| - 1], ids) +
      (if last.StepEntry? && last.id in ids then [] else [last])
  }

  /** No injected result is degraded. */
  ghost predicate Clean(results: Results, ids: set<string>) {
    forall e :: e in results && e.0 in ids ==> !IsDegraded(e.1)
  }

  // ------------------------------------------------------ insulated connectors

  /**
   Worlds that look alike get the same answer and still look alike.  `view` is
   what the flow's own connectors can see of the world.
   */
  ghost predicate Alike<W(!new), V>(host: Host<W>, view: W -> V, uri: string, p: Payload, q: Payload) {
    forall w, w1 | view(w) == view(w1) ::
      && host.dispatch(w, uri, p).1 == host.dispatch(w1, uri, q).1
      && view(host.dispatch(w, uri, p).0) == view(host.dispatch(w1, uri, q).0)
  }

  /** What a step is sent does not change its answer when injected results are left out. */
  ghost predicate StepInsulated<W(!new), V>(host: Host<W>, view: W -> V, ids: set<string>, step: Step) {
    forall results, timeline | Clean(results, ids) ::
      var p := host.prepare(step, results, timeline);
      var q := host.prepare(step, UserPart(results, ids), UserTimeline(timeline, ids));
      (p.None? <==> q.None?) && (p.Some? ==> Alike(host, view, step.uri, Args(p.value), Args(q.value)))
  }

  ghost predicate GoalInsulated<W(!new), V>(host: Host<W>, view: W -> V, ids: set<string>) {
    forall results | Clean(results, ids) ::
      Alike(host, view, GOAL_URI, GoalCheck(host.goal, results), GoalCheck(host.goal, UserPart(results, ids)))
  }

  /** Calls of the flow other than steps carry no results, so only the world matters. */
  ghost predicate CallsInsulated<W(!new), V>(host: Host<W>, view: W -> V, own: string -> bool) {
    forall uri, p | own(uri) :: Alike(host, view, uri, p, p)
  }

  /** An injected step can always be sent, is out of sight and never answers degraded. */
  ghost predicate Advisory<W(!new), V>(host: Host<W>, view: W -> V, step: Step) {
    && step.optional && step.dependsOn == []
    && forall results, timeline, w ::
         var p := host.prepare(step, results, timeline);
         p.Some? &&
         var (w1, r) := host.dispatch(w, step.uri, Args(p.value));
         view(w1) == view(w) && !IsDegraded(r)
  }

  ghost predicate AllAdvisory<W(!new), V>(host: Host<W>, view: W -> V, steps: seq<Step>) {
    forall s :: s in steps ==> Advisory(host, view, s)
  }

  /** The flow's ids and dependencies avoid the injected ids. */
  predicate Apart(steps: seq<Step>, ids: set<string>) {
    forall s :: s in steps ==> s.Sid() !in ids && forall dep :: dep in s.dependsOn ==> dep !in ids
  }

  /** The URIs of the calls a run made. */
  ghost predicate CallsWithin<W>(st: State<W>, own: string -> bool) {
    forall c :: c in st.trace ==> own(c.uri)
  }

  // --------------------------------------------------------------- simulation

  /** `a` is the run with injected steps, `b` the run without. */
  ghost predicate Sim<W, V>(view: W -> V, ids: set<string>, a: State<W>, b: State<W>) {
    && view(a.world) == view(b.world)
    && a.ledger == b.ledger && a.retries == b.retries && a.remediations == b.remediations
    && UserPart(a.results, ids) == b.results && Clean(a.results, ids)
    && UserTimeline(a.timeline, ids) == b.timeline
  }

  lemma {:induction false} PutUser(results: Results, ids: set<string>, sid: string, r: Dict)
    requires sid !in ids
    ensures UserPart(Put(results, sid, r), ids) == Put(UserPart(results, ids), sid, r)
    ensures Clean(results, ids) ==> Clean(Put(results, sid, r), ids)
    decreases |results|
  {
    if results == [] {
    } else if results[0].0 == sid {
      assert ([(sid, r)] + results[1..])[1..] == results[1..];
    } else {
      PutUser(results[1..], ids, sid, r);
      var rest := Put(results[1..], sid, r);
      assert ([results[0]] + rest)[1..] == rest;
      if results[0].0 !in ids {
        assert ([results[0]] + UserPart(results[1..], ids))[1..] == UserPart(results[1..], ids);
      }
      assert results == [results[0]] + results[1..];
    }
  }

  lemma {:induction false} PutInjected(results: Results, ids: set<string>, sid: string, r: Dict)
    requires sid in ids && !IsDegraded(r)
    ensures UserPart(Put(results, sid, r), ids) == UserPart(results, ids)
    ensures Clean(results, ids) ==> Clean(Put(results, sid, r), ids)
    decreases |results|
  {
    if results == [] {
      assert [(sid, r)][1..] == [];
    } else if results[0].0 == sid {
      assert ([(sid, r)] + results[1..])[1..] == results[1..];
      assert results == [results[0]] + results[1..];
    } else {
      PutInjected(results[1..], ids, sid, r);
      var rest := Put(results[1..], sid, r);
      assert ([results[0]] + rest)[1..] == rest;
      assert results == [results[0]] + results[1..];
    }
  }

  lemma {:induction false} NoteUser(timeline: seq<Entry>, e: Entry, ids: set<string>)
    ensures UserTimeline(timeline + [e], ids) ==
            UserTimeline(timeline, ids) + (if e.StepEntry? && e.id in ids then [] else [e])
  {
    assert (timeline + [e])[..|timeline|] == timeline;
  }

  lemma {:induction false} SameDegraded(results: Results, ids: set<string>)
    requires Clean(results, ids)
    ensures FirstDegraded(UserPart(results, ids)) == FirstDegraded(results)
    decreases |results|
  {
    if results != [] {
      assert results == [results[0]] + results[1..];
      SameDegraded(results[1..], ids);
      if results[0].0 !in ids {
        assert ([results[0]] + UserPart(results[1..], ids))[1..] == UserPart(results[1..], ids);
      }
    }
  }

  lemma {:induction false} SameRecorded(results: Results, ids: set<string>, sid: string)
    requires sid !in ids
    ensures Recorded(UserPart(results, ids), sid) <==> Recorded(results, sid)
    decreases |results|
  {
    if results != [] {
      assert results == [results[0]] + results[1..];
      RecordedCons(results[0], results[1..], sid);
      SameRecorded(results[1..], ids, sid);
      if results[0].0 !in ids {
        RecordedCons(results[0], UserPart(results[1..], ids), sid);
      }
    }
  }

  lemma {:induction false} SameMissing(results: Results, ids: set<string>, deps: seq<string>)
    requires forall dep :: dep in deps ==> dep !in ids
    ensures MissingDeps(UserPart(results, ids), deps) == MissingDeps(results, deps)
    decreases |deps|
  {
    if deps != [] {
      SameRecorded(results, ids, deps[0]);
      SameMissing(results, ids, deps[1..]);
    }
  }

  // ---------------------------------------------------- one piece of both runs

  lemma {:induction false} UndoSim<W(!new), V>(host: Host<W>, view: W -> V, own: string -> bool, ids: set<string>,
                                       a: State<W>, b: State<W>, ledger: seq<Inverse>, undone: seq<string>)
    requires CallsInsulated(host, view, own) && Sim(view, ids, a, b)
    requires CallsWithin(Undo(host, b, ledger, undone).0, own)
    ensures var (a1, x) := Undo(host, a, ledger, undone);
            var (b1, y) := Undo(host, b, ledger, undone);
            Sim(view, ids, a1, b1) && x == y
    decreases |ledger|
  {
    if ledger != [] {
      var e, rest := ledger[|ledger| - 1], ledger[..|ledger| - 1];
      if e.uri == "" {
        UndoSim(host, view, own, ids, a, b, rest, undone);
      } else {
        var (a1, x) := UndoOne(host, a, e);
        var (b1, y) := UndoOne(host, b, e);
        UndoQuiet(host, b1, rest, undone + [e.uri]);
        assert b1.trace[|b.trace|] in Undo(host, b, ledger, undone).0.trace;
        assert Alike(host, view, e.uri, Args(e.args), Args(e.args));
        NoteUser(a.timeline, RollbackEntry(e.uri, OkField(x)), ids);
        if IsOk(x) {
          UndoSim(host, view, own, ids, a1, b1, rest, undone + [e.uri]);
        }
      }
    }
  }

  lemma {:induction false} RollbackSim<W(!new), V>(host: Host<W>, view: W -> V, own: string -> bool, ids: set<string>,
                                           a: State<W>, b: State<W>, kind: string, error: Value, explicit: bool)
    requires CallsInsulated(host, view, own) && Sim(view, ids, a, b)
    requires CallsWithin(Rollback(host, b, kind, error, explicit).0, own)
    ensures var (a1, x) := Rollback(host, a, kind, error, explicit);
            var (b1, y) := Rollback(host, b, kind, error, explicit);
            Sim(view, ids, a1, b1) && x == y
  {
    UndoSim(host, view, own, ids, a, b, b.ledger, []);
  }

  lemma {:induction false} CallAgainSim<W(!new), V>(host: Host<W>, view: W -> V, ids: set<string>, a: State<W>, b: State<W>,
                                            step: Step, p: Dict, q: Dict, healed: bool, need: Option<Value>, target: string)
    requires Sim(view, ids, a, b) && step.Sid() !in ids && Alike(host, view, step.uri, Args(p), Args(q))
    ensures var (a1, x) := CallAgain(host, a, step, p, healed, need, target);
            var (b1, y) := CallAgain(host, b, step, q, healed, need, target);
            Sim(view, ids, a1, b1) && x == y
  {
    hide UserPart, UserTimeline, Clean, Put;
    var (a1, x) := CallAgain(host, a, step, p, healed, need, target);
    PutUser(a.results, ids, step.Sid(), x);
    NoteUser(a.timeline, RetryEntry(step.Sid() + ":retry", step.uri, OkField(x), target, need), ids);
  }

  lemma {:induction false} RetrySim<W(!new), V>(host: Host<W>, view: W -> V, own: string -> bool, ids: set<string>, a: State<W>, b: State<W>,
                                        step: Step, p: Dict, q: Dict, healed: bool, need: Option<Value>, target: string)
    requires CallsInsulated(host, view, own) && Sim(view, ids, a, b)
    requires step.Sid() !in ids && Alike(host, view, step.uri, Args(p), Args(q))
    requires CallsWithin(RetryOnce(host, b, step, q, healed, need, target).0, own)
    ensures var (a1, x) := RetryOnce(host, a, step, p, healed, need, target);
            var (b1, y) := RetryOnce(host, b, step, q, healed, need, target);
            Sim(view, ids, a1, b1) && x == y
  {
    hide Sim, Alike, CallsInsulated, Rollback, CallAgain;
    CallAgainSim(host, view, ids, a, b, step, p, q, healed, need, target);
    var (a1, x) := CallAgain(host, a, step, p, healed, need, target);
    var (b1, y) := CallAgain(host, b, step, q, healed, need, target);
    if NextKind(x) != Str("continue") && NextKind(x) != Str("done") {
      RollbackSim(host, view, own, ids, a1, b1, "failed", Null, false);
    }
  }

  lemma {:induction false} AcquireSim<W(!new), V>(host: Host<W>, view: W -> V, own: string -> bool, ids: set<string>, a: State<W>, b: State<W>,
                                          step: Step, p: Dict, q: Dict, r: Dict)
    requires CallsInsulated(host, view, own) && Sim(view, ids, a, b)
    requires step.Sid() !in ids && Alike(host, view, step.uri, Args(p), Args(q))
    requires CallsWithin(Acquire(host, b, step, q, r).0, own)
    ensures var (a1, x) := Acquire(host, a, step, p, r);
            var (b1, y) := Acquire(host, b, step, q, r);
            Sim(view, ids, a1, b1) && x == y
  {
    hide RetryOnce, UserPart, UserTimeline, Clean;
    var node, need := AcquireNode(host, step), AcquireNeed(r);
    var (a1, x) := Send(host, a, Ensure(step), EnsureUri(node), Precondition(need));
    var (b1, y) := Send(host, b, Ensure(step), EnsureUri(node), Precondition(need));
    RetryFootprint(host, b1, step, q, true, Some(need), node);
    assert b1.trace[|b.trace|] in Acquire(host, b, step, q, r).0.trace;
    assert Alike(host, view, EnsureUri(node), Precondition(need), Precondition(need));
    assert Sim(view, ids, a1, b1) && x == y;
    if Acquired(x) {
      RetrySim(host, view, own, ids, a1, b1, step, p, q, true, Some(need), node);
    } else {
      var blocked := Or(Get(x, "acquire"), Obj(Fields(Get(r, "acquire"))));
      NoteUser(a.timeline, BlockedEntry(step.Sid() + ":blocked", step.uri, node, blocked, ErrorDict(r)), ids);
    }
  }

  lemma {:induction false} FollowSim<W(!new), V>(host: Host<W>, view: W -> V, own: string -> bool, ids: set<string>, a: State<W>, b: State<W>,
                                         step: Step, p: Dict, q: Dict, r: Dict, kind: Value)
    requires CallsInsulated(host, view, own) && Sim(view, ids, a, b)
    requires step.Sid() !in ids && Alike(host, view, step.uri, Args(p), Args(q))
    requires CallsWithin(FollowIntent(host, b, step, q, r, kind).0, own)
    ensures var (a1, x) := FollowIntent(host, a, step, p, r, kind);
            var (b1, y) := FollowIntent(host, b, step, q, r, kind);
            Sim(view, ids, a1, b1) && x == y
  {
    hide Sim, Alike, CallsInsulated, RetryOnce, Acquire, Rollback;
    if kind == Str("retry") {
      RetrySim(host, view, own, ids, a, b, step, p, q, Truthy(Get(r, "healed")), None, host.target(step.uri));
    } else if kind == Str("acquire") {
      AcquireSim(host, view, own, ids, a, b, step, p, q, r);
    } else if kind == Str("rollback") {
      RollbackSim(host, view, own, ids, a, b, "failed", ErrorDict(r), NextField(r) == Str("rollback"));
    }
  }

  lemma {:induction false} RecordSim<W, V>(host: Host<W>, view: W -> V, ids: set<string>, a: State<W>, b: State<W>, step: Step, r: Dict)
    requires Sim(view, ids, a, b) && step.Sid() !in ids
    ensures Sim(view, ids, Record(host, a, step, r), Record(host, b, step, r))
  {
    hide UserPart, UserTimeline, Clean, Put;
    PutUser(a.results, ids, step.Sid(), r);
    NoteUser(a.timeline, MakeStepEntry(host, step.Sid(), step.uri, r), ids);
  }

  lemma {:induction false} CallsSim<W(!new), V>(host: Host<W>, view: W -> V, ids: set<string>, a: State<W>, b: State<W>,
                                        step: Step, p: Dict, q: Dict)
    requires Sim(view, ids, a, b) && step.Sid() !in ids && Alike(host, view, step.uri, Args(p), Args(q))
    ensures Sim(view, ids, CallOptional(host, a, step, p), CallOptional(host, b, step, q))
    ensures var (a1, x) := CallFirst(host, a, step, p);
            var (b1, y) := CallFirst(host, b, step, q);
            Sim(view, ids, a1, b1) && x == y
  {
    hide UserPart, UserTimeline, Clean, Record, FoldInnerOk, NextKind, LedgerDelta;
    var a0 := a.(events := a.events + [Sent(step.uri, a.position)]);
    var b0 := b.(events := b.events + [Sent(step.uri, b.position)]);
    var (a1, x) := Send(host, a0, Optional(step), step.uri, Args(p));
    var (b1, y) := Send(host, b0, Optional(step), step.uri, Args(q));
    RecordSim(host, view, ids, a1, b1, step, x);
    var r := FoldInnerOk(host, x);
    var (a2, _) := Send(host, a0, First(step), step.uri, Args(p));
    var (b2, _) := Send(host, b0, First(step), step.uri, Args(q));
    RecordSim(host, view, ids,
              a2.(events := a2.events + [Returned(step.uri, a.position, OkField(r), Some(NextKind(r)), false)],
                  ledger := a2.ledger + LedgerDelta(step.uri, r)),
              b2.(events := b2.events + [Returned(step.uri, b.position, OkField(r), Some(NextKind(r)), false)],
                  ledger := b2.ledger + LedgerDelta(step.uri, r)),
              step, r);
  }

  lemma {:induction false} AttemptSim<W(!new), V>(host: Host<W>, view: W -> V, own: string -> bool, ids: set<string>, a: State<W>, b: State<W>,
                                          step: Step, p: Dict, q: Dict)
    requires CallsInsulated(host, view, own) && Sim(view, ids, a, b)
    requires step.Sid() !in ids && Alike(host, view, step.uri, Args(p), Args(q))
    requires CallsWithin(Attempt(host, b, step, q).0, own)
    ensures var (a1, x) := Attempt(host, a, step, p);
            var (b1, y) := Attempt(host, b, step, q);
            Sim(view, ids, a1, b1) && x == y
  {
    hide Sim, Alike, CallsInsulated, FollowIntent, CallFirst, CallOptional;
    CallsSim(host, view, ids, a, b, step, p, q);
    if !step.optional {
      var (a1, x) := CallFirst(host, a, step, p);
      var (b1, y) := CallFirst(host, b, step, q);
      if NextKind(x) != Str("continue") {
        FollowSim(host, view, own, ids, a1, b1, step, p, q, x, NextKind(x));
      }
    }
  }

  /** One turn on a step of the flow keeps the two runs together. */
  lemma {:induction false} StepSim<W(!new), V>(host: Host<W>, view: W -> V, own: string -> bool, ids: set<string>, a: State<W>, b: State<W>, step: Step)
    requires CallsInsulated(host, view, own) && StepInsulated(host, view, ids, step) && Sim(view, ids, a, b)
    requires Apart([step], ids)
    requires CallsWithin(DispatchStep(host, b, step).0, own)
    ensures var (a1, x) := DispatchStep(host, a, step);
            var (b1, y) := DispatchStep(host, b, step);
            Sim(view, ids, a1, b1) && x == y
  {
    hide Alike, CallsInsulated, Attempt, UserPart, UserTimeline, Clean, Record;
    assert step in [step];
    SameMissing(a.results, ids, step.dependsOn);
    SameDegraded(a.results, ids);
    var missing, degraded := MissingDeps(a.results, step.dependsOn), FirstDegraded(a.results);
    if missing != [] {
      NoteUser(a.timeline, MissingEntry(step.Sid(), step.uri, missing, host.target(step.uri)), ids);
    } else if step.Irreversible() && degraded.Some? {
      RecordSim(host, view, ids, a, b, step, SkipResult(degraded.value));
    } else {
      var p, q := host.prepare(step, a.results, a.timeline), host.prepare(step, b.results, b.timeline);
      if p.Some? {
        AttemptSim(host, view, own, ids, a, b, step, p.value, q.value);
      }
    }
  }

  lemma {:induction false} LoopGrows<W>(host: Host<W>, st: State<W>, steps: seq<Step>, pos: nat, lim: Limits)
    ensures st.trace <= Loop(host, st, steps, pos, lim).0.trace
    decreases |steps|
  {
    if steps != [] && Breaker(st, lim, pos).None? {
      StepGrows(host, st.(position := pos), steps[0]);
      var (st1, outcome) := DispatchStep(host, st.(position := pos), steps[0]);
      if outcome.Continue? {
        LoopGrows(host, st1, steps[1..], pos + 1, lim);
      }
    }
  }

  lemma {:induction false} StepGrows<W>(host: Host<W>, st: State<W>, step: Step)
    ensures st.trace <= DispatchStep(host, st, step).0.trace
  {
    var p := host.prepare(step, st.results, st.timeline);
    if p.Some? {
      AttemptFootprint(host, st, step, p.value);
    }
  }

  predicate Unhurried(lim: Limits, n: nat) {
    forall i :: 0 <= i < n ==> !lim.late(i)
  }

  lemma {:induction false} LoopSim<W(!new), V>(host: Host<W>, view: W -> V, own: string -> bool, ids: set<string>, a: State<W>, b: State<W>,
                                       steps: seq<Step>, posA: nat, posB: nat, lim: Limits)
    requires CallsInsulated(host, view, own) && Sim(view, ids, a, b) && Apart(steps, ids)
    requires forall s :: s in steps ==> StepInsulated(host, view, ids, s)
    requires Unhurried(lim, posA + |steps|) && Unhurried(lim, posB + |steps|)
    requires CallsWithin(Loop(host, b, steps, posB, lim).0, own)
    ensures var (a1, x) := Loop(host, a, steps, posA, lim);
            var (b1, y) := Loop(host, b, steps, posB, lim);
            Sim(view, ids, a1, b1) && x == y
    decreases |steps|
  {
    if steps != [] && Breaker(a, lim, posA).None? {
      assert Breaker(b, lim, posB).None?;
      hide Loop, Breaker, DispatchStep, CallsInsulated, StepInsulated, UserPart, UserTimeline, Clean;
      OneTurn(host, a, steps, posA, lim);
      OneTurn(host, b, steps, posB, lim);
      var a0, b0 := a.(position := posA), b.(position := posB);
      var (b1, y) := DispatchStep(host, b0, steps[0]);
      if y.Continue? {
        LoopGrows(host, b1, steps[1..], posB + 1, lim);
      }
      StepSim(host, view, own, ids, a0, b0, steps[0]);
      var (a1, x) := DispatchStep(host, a0, steps[0]);
      if x.Continue? {
        LoopSim(host, view, own, ids, a1, b1, steps[1..], posA + 1, posB + 1, lim);
      }
    }
  }

  // ------------------------------------------------------------ injected steps

  lemma {:induction false} AdvisorySim<W(!new), V>(host: Host<W>, view: W -> V, ids: set<string>, a: State<W>, b: State<W>, step: Step)
    requires Advisory(host, view, step) && step.Sid() in ids && Sim(view, ids, a, b)
    ensures var (a1, x) := DispatchStep(host, a, step);
            x == Continue && Sim(view, ids, a1, b)
  {
    hide UserPart, UserTimeline, Clean, Put;
    var degraded := FirstDegraded(a.results);
    if step.Irreversible() && degraded.Some? {
      var r := SkipResult(degraded.value);
      assert "degraded" !in r && "result" !in r;
      PutInjected(a.results, ids, step.Sid(), r);
      NoteUser(a.timeline, MakeStepEntry(host, step.Sid(), step.uri, r), ids);
    } else {
      var p := host.prepare(step, a.results, a.timeline);
      var r := host.dispatch(a.world, step.uri, Args(p.value)).1;
      PutInjected(a.results, ids, step.Sid(), r);
      NoteUser(a.timeline, MakeStepEntry(host, step.Sid(), step.uri, r), ids);
    }
  }

  /** Within budget, a row of injected steps runs through without a trace on the user's side. */
  lemma {:induction false} AdvisoryLoop<W(!new), V>(host: Host<W>, view: W -> V, ids: set<string>, a: State<W>, b: State<W>,
                                            steps: seq<Step>, pos: nat, lim: Limits)
    requires AllAdvisory(host, view, steps) && Sids(steps) <= ids && Sim(view, ids, a, b)
    requires Unhurried(lim, pos + |steps|)
    requires a.retries <= lim.maxRetries && a.remediations <= lim.maxRemediations
    ensures var (a1, x) := Loop(host, a, steps, pos, lim);
            x == FellThrough && Sim(view, ids, a1, b)
    decreases |steps|
  {
    if steps != [] {
      assert Breaker(a, lim, pos).None?;
      hide Loop, Breaker, DispatchStep, UserPart, UserTimeline, Clean, Advisory;
      OneTurn(host, a, steps, pos, lim);
      assert steps[0] in steps && steps[0].Sid() in Sids(steps);
      AdvisorySim(host, view, ids, a.(position := pos), b, steps[0]);
      var a1 := DispatchStep(host, a.(position := pos), steps[0]).0;
      assert Sids(steps[1..]) <= Sids(steps);
      AdvisoryLoop(host, view, ids, a1, b, steps[1..], pos + 1, lim);
    } else {
      NoTurn(host, a, pos, lim);
    }
  }

  lemma {:induction false} OneTurn<W>(host: Host<W>, st: State<W>, steps: seq<Step>, pos: nat, lim: Limits)
    requires steps != [] && Breaker(st, lim, pos).None?
    ensures var (st1, outcome) := DispatchStep(host, st.(position := pos), steps[0]);
            Loop(host, st, steps, pos, lim) ==
            match outcome
            case Continue => Loop(host, st1, steps[1..], pos + 1, lim)
            case Break => (st1, Broke)
            case Return(v) => (st1, Ended(v))
  {
    hide DispatchStep;
  }

  lemma {:induction false} NoTurn<W>(host: Host<W>, st: State<W>, pos: nat, lim: Limits)
    ensures Loop(host, st, [], pos, lim) == (st, FellThrough)
  {
  }

  lemma {:induction false} LoopAppend<W>(host: Host<W>, st: State<W>, xs: seq<Step>, ys: seq<Step>, pos: nat, lim: Limits)
    ensures var (st1, end) := Loop(host, st, xs, pos, lim);
            Loop(host, st, xs + ys, pos, lim) ==
            if end.FellThrough? then Loop(host, st1, ys, pos + |xs|, lim) else (st1, end)
    decreases |xs|
  {
    hide DispatchStep;
    if xs == [] {
      assert xs + ys == ys;
    } else if Breaker(st, lim, pos).None? {
      hide Loop, Breaker;
      OneTurn(host, st, xs, pos, lim);
      OneTurn(host, st, xs + ys, pos, lim);
      assert (xs + ys)[1..] == xs[1..] + ys && (xs + ys)[0] == xs[0];
      var (st1, outcome) := DispatchStep(host, st.(position := pos), xs[0]);
      if outcome.Continue? {
        LoopAppend(host, st1, xs[1..], ys, pos + 1, lim);
      }
    }
  }

  lemma {:induction false} CloseSim<W(!new), V>(host: Host<W>, view: W -> V, own: string -> bool, ids: set<string>, a: State<W>, b: State<W>)
    requires CallsInsulated(host, view, own) && GoalInsulated(host, view, ids) && Sim(view, ids, a, b)
    requires CallsWithin(Close(host, b, true).0, own)
    ensures var (a1, x) := Close(host, a, true);
            var (b1, y) := Close(host, b, true);
            Sim(view, ids, a1, b1) && x == y
  {
    hide UserPart, UserTimeline, Clean, Rollback;
    assert Alike(host, view, GOAL_URI, GoalCheck(host.goal, a.results), GoalCheck(host.goal, b.results));
    var (a1, x) := CallGoal(host, a);
    var (b1, y) := CallGoal(host, b);
    assert Sim(view, ids, a1, b1) && x == y;
    if IsOk(x) {
      SameDegraded(a1.results, ids);
    } else {
      RollbackSim(host, view, own, ids, a1, b1, "goal-failed", Null, false);
    }
  }

  // ------------------------------------------------------------- whole plans

  /** The flow alone runs to its end with a budget overdrawn by its last steps. */
  ghost predicate Overdrawn<W>(host: Host<W>, w0: W, steps: seq<Step>, lim: Limits) {
    var (b, end) := Loop(host, Fresh(w0), steps, 0, lim);
    end.FellThrough? && (b.retries > lim.maxRetries || b.remediations > lim.maxRemediations)
  }

  ghost predicate Insulated<W(!new), V>(host: Host<W>, view: W -> V, own: string -> bool, steps: seq<Step>, injected: seq<Step>) {
    var ids := Sids(injected);
    && CallsInsulated(host, view, own)
    && GoalInsulated(host, view, ids)
    && (forall s :: s in steps ==> StepInsulated(host, view, ids, s))
    && AllAdvisory(host, view, injected)
    && Apart(steps, ids)
  }

  lemma {:induction false} LeadThenSteps<W(!new), V>(host: Host<W>, view: W -> V, own: string -> bool, lead: seq<Step>, steps: seq<Step>,
                                             ids: set<string>, w0: W, lim: Limits)
    requires CallsInsulated(host, view, own) && Apart(steps, ids)
    requires forall s :: s in steps ==> StepInsulated(host, view, ids, s)
    requires AllAdvisory(host, view, lead) && Sids(lead) <= ids
    requires Unhurried(lim, |lead| + |steps|)
    requires steps != [] || lead == []
    requires CallsWithin(Loop(host, Fresh(w0), steps, 0, lim).0, own)
    ensures var (a, x) := Loop(host, Fresh(w0), lead + steps, 0, lim);
            var (b, y) := Loop(host, Fresh(w0), steps, 0, lim);
            Sim(view, ids, a, b) && x == y
  {
    hide DispatchStep, CallsInsulated, StepInsulated, AllAdvisory, CallsWithin;
    var st: State<W> := Fresh(w0);
    assert Sim(view, ids, st, st);
    LoopAppend(host, st, lead, steps, 0, lim);
    if lead == [] {
      assert lead + steps == steps;
      LoopSim(host, view, own, ids, st, st, steps, 0, 0, lim);
    } else if Breaker(st, lim, 0).Some? {
      assert Loop(host, st, lead, 0, lim) == Loop(host, st, steps, 0, lim);
    } else {
      AdvisoryLoop(host, view, ids, st, st, lead, 0, lim);
      LoopSim(host, view, own, ids, Loop(host, st, lead, 0, lim).0, st, steps, |lead|, 0, lim);
    }
  }

  lemma {:induction false} WithTail<W(!new), V>(host: Host<W>, view: W -> V, ids: set<string>, tail: Step,
    a: State<W>, b: State<W>, end: LoopEnd, pos: nat, lim: Limits)
    requires Advisory(host, view, tail) && tail.Sid() in ids && Sim(view, ids, a, b) && Unhurried(lim, pos + 1)
    ensures var (a1, x) := Loop(host, a, [tail], pos, lim);
            if a.retries > lim.maxRetries then x == Ended(CircuitBroken(RetryBudget)) && a1 == a
            else if a.remediations > lim.maxRemediations then x == Ended(CircuitBroken(HealBudget)) && a1 == a
            else x == FellThrough && Sim(view, ids, a1, b)
  {
    if a.retries <= lim.maxRetries && a.remediations <= lim.maxRemediations {
      assert Sids([tail]) <= ids;
      AdvisoryLoop(host, view, ids, a, b, [tail], pos, lim);
    }
  }

  /**
   The whole plan against the flow alone.  The verdicts agree if and only if it is
   not the case that a remember step is injected and the flow alone ends by itself
   with a budget overdrawn.  There the extra turn of the loop trips the breaker and
   the goal is never checked.  Either way the user's results are the same, and when
   the verdicts agree so do the ledger and all that is visible of the world.
   */
  lemma {:induction false} InjectionPreservesVerdict<W(!new), V>(
    host: Host<W>, view: W -> V, own: string -> bool, ctx: PlanContext, steps: seq<Step>, w0: W, lim: Limits)
    requires Unhurried(lim, |BuildThinPlan(ctx, steps, true)|)
    requires Insulated(host, view, own, steps, Lead(ctx, steps) + Tail(ctx, steps))
    requires CallsWithin(Drive(host, Fresh(w0), steps, true, lim).0, own)
    ensures var ids := Sids(Lead(ctx, steps) + Tail(ctx, steps));
            var (a, x) := Drive(host, Fresh(w0), BuildThinPlan(ctx, steps, true), true, lim);
            var (b, y) := Drive(host, Fresh(w0), steps, true, lim);
            && (x == y <==> !(Tail(ctx, steps) != [] && Overdrawn(host, w0, steps, lim)))
            && UserPart(a.results, ids) == b.results
            && (x == y ==> Sim(view, ids, a, b))
  {
    hide DispatchStep, CallsInsulated, StepInsulated, GoalInsulated, Close, UserPart, UserTimeline, Clean;
    hide Loop, Lead, Tail, BuildThinPlan;
    var lead, tail := Lead(ctx, steps), Tail(ctx, steps);
    var ids := Sids(lead + tail);
    var st: State<W> := Fresh(w0);
    PlanShape(ctx, steps);
    var (b, endB) := Loop(host, st, steps, 0, lim);
    CloseGrows(host, b);
    LeadThenSteps(host, view, own, lead, steps, ids, w0, lim);
    var (a, end) := Loop(host, st, lead + steps, 0, lim);
    assert lead + (steps + tail) == (lead + steps) + tail;
    LoopAppend(host, st, lead + steps, tail, 0, lim);
    NoTurn(host, a, |lead + steps|, lim);
    if !end.Ended? {
      CloseSim(host, view, own, ids, a, b);
    }
    if end.FellThrough? && tail != [] {
      assert tail == [tail[0]];
      WithTail(host, view, ids, tail[0], a, b, end, |lead + steps|, lim);
      var (a1, x) := Loop(host, a, tail, |lead + steps|, lim);
      if x.FellThrough? {
        CloseSim(host, view, own, ids, a1, b);
      } else {
        CloseResults(host, b);
      }
    }
  }

  lemma {:induction false} CloseGrows<W>(host: Host<W>, st: State<W>)
    ensures st.trace <= Close(host, st, true).0.trace
  {
    var (st1, r) := CallGoal(host, st);
    UndoQuiet(host, st1, st1.ledger, []);
  }

  lemma {:induction false} CloseResults<W>(host: Host<W>, st: State<W>)
    ensures var (st1, v) := Close(host, st, true);
            st1.results == st.results && !v.CircuitBroken?
  {
    var (st1, r) := CallGoal(host, st);
    UndoQuiet(host, st1, st1.ledger, []);
  }

  // ------------------------------------------------- the exception does happen

  const TYPE := Step("type", "kvm://n/input/command/type", map[], [], false, None)

  /** The first attempt asks for a retry; the number of attempts is the world. */
  function RetryOnceThenFine(w: nat, uri: string, payload: Payload): (nat, Dict) {
    if uri == TYPE.uri then
      (w + 1, map["ok" := Bool(true), "next" := Obj(map["kind" := Str(if w == 0 then "retry" else "continue")])])
    else (w, map["ok" := Bool(true)])
  }

  const HICCUP: Host<nat> :=
    Host(RetryOnceThenFine, (step, results, timeline) => Some(map[]), uri => "n", text => None, map[])

  const NODE_N := PlanContext(uri => "n", Null, "", Null)

  lemma {:induction false} HiccupTurn()
    ensures var (st, outcome) := Attempt(HICCUP, Fresh(0), TYPE, map[]);
            outcome == Continue && st.retries == 1 && st.remediations == 0
  {
    hide Put, CallAgain, CallFirst, NextKind, ActionOk;
    HiccupFirst();
    var (st1, r) := CallFirst(HICCUP, Fresh(0), TYPE, map[]);
    HiccupRetry(st1);
  }

  lemma {:induction false} HiccupFirst()
    ensures var (st, r) := CallFirst(HICCUP, Fresh(0), TYPE, map[]);
            && ActionOk(HICCUP, r) && NextKind(r) == Str("retry") && Get(r, "healed") == Null
            && st.world == 1 && st.retries == 0 && st.remediations == 0
  {
    hide Put, MakeStepEntry, LedgerDelta;
    var (st, r) := CallFirst(HICCUP, Fresh(0), TYPE, map[]);
    assert Get(r, "result") == Null;
  }

  lemma {:induction false} HiccupRetry(st: State<nat>)
    requires st.world == 1 && st.retries == 0 && st.remediations == 0
    ensures var (st1, r) := CallAgain(HICCUP, st, TYPE, map[], false, None, "n");
            NextKind(r) == Str("continue") && st1.retries == 1 && st1.remediations == 0
  {
    hide Put;
  }

  lemma {:induction false} HiccupOverdraws(lim: Limits)
    requires lim.maxRetries == 0 <= lim.maxRemediations && !lim.late(0)
    ensures Overdrawn(HICCUP, 0, [TYPE], lim)
  {
    hide Attempt;
    HiccupTurn();
    var st: State<nat> := Fresh(0);
    assert st.(position := 0) == st;
    assert st.results == [] && MissingDeps(st.results, TYPE.dependsOn) == [] && FirstDegraded(st.results).None?;
    var (st1, outcome) := DispatchStep(HICCUP, st, TYPE);
    assert (st1, outcome) == Attempt(HICCUP, st, TYPE, map[]);
    assert [TYPE][1..] == [];
    assert Loop(HICCUP, st, [TYPE], 0, lim) == Loop(HICCUP, st1, [TYPE][1..], 1, lim);
  }

  function Whole(w: nat): nat { w }

  predicate AnyUri(uri: string) { true }

  lemma {:induction false} HiccupTailAndLead()
    ensures Lead(NODE_N, [TYPE]) == DriftStepsFor(NODE_N, ["n"]) && Tail(NODE_N, [TYPE]) == [RememberStep(NODE_N, ["n"])]
  {
    assert [TYPE][1..] == [];
    assert KvmStepTargets(NODE_N, [TYPE]) == ["n"];
    assert !Contains(TYPE.uri, "/cdp/page/") by {
      forall i: nat | i <= |TYPE.uri|
        ensures !OccursAt(TYPE.uri, "/cdp/page/", i)
      {
        if i + 10 <= |TYPE.uri| {
          assert TYPE.uri[i + 2] == TYPE.uri[i..i + 10][2];
          assert "/cdp/page/"[2] == 'd' && TYPE.uri[i + 2] != 'd';
        }
      }
    }
  }

  lemma {:induction false} HiccupAdvisory(s: Step)
    requires s in Lead(NODE_N, [TYPE]) + Tail(NODE_N, [TYPE])
    ensures Advisory(HICCUP, Whole, s) && s.Sid() != "type"
  {
    HiccupTailAndLead();
    assert s.uri[0] == 't' && TYPE.uri[0] == 'k';
    var fine: Dict := map["ok" := Bool(true)];
    forall w: nat, p: Payload ensures HICCUP.dispatch(w, s.uri, p) == (w, fine) {
      assert s.uri != TYPE.uri;
    }
    assert Get(fine, "result") == Null && Get(fine, "degraded") == Null;
    assert !IsDegraded(fine);
  }

  lemma {:induction false} HiccupInsulated()
    ensures Insulated(HICCUP, Whole, AnyUri, [TYPE], Lead(NODE_N, [TYPE]) + Tail(NODE_N, [TYPE]))
  {
    hide Lead, Tail, UserPart, UserTimeline, Clean;
    var injected := Lead(NODE_N, [TYPE]) + Tail(NODE_N, [TYPE]);
    forall s | s in injected ensures Advisory(HICCUP, Whole, s) && s.Sid() != "type" {
      HiccupAdvisory(s);
    }
    assert AllAdvisory(HICCUP, Whole, injected) && Apart([TYPE], Sids(injected));
    hide Advisory;
    assert StepInsulated(HICCUP, Whole, Sids(injected), TYPE);
    assert GoalInsulated(HICCUP, Whole, Sids(injected)) by {
      assert GOAL_URI[0] == 't' && TYPE.uri[0] == 'k';
    }
  }

  /** A concrete flow whose verdict the injected remember step changes. */
  lemma {:induction false} InjectionChangesVerdict(lim: Limits)
    requires lim.maxRetries == 0 <= lim.maxRemediations && Unhurried(lim, |BuildThinPlan(NODE_N, [TYPE], true)|)
    ensures Drive(HICCUP, Fresh(0), BuildThinPlan(NODE_N, [TYPE], true), true, lim).1 !=
            Drive(HICCUP, Fresh(0), [TYPE], true, lim).1
  {
    hide Drive, Insulated, Overdrawn;
    HiccupTailAndLead();
    HiccupOverdraws(lim);
    HiccupInsulated();
    InjectionPreservesVerdict(HICCUP, Whole, AnyUri, NODE_N, [TYPE], 0, lim);
  }
}
