/**
 The thin driver as it runs: it updates the envelope, the timeline and the results
 in place.  Every method is the function of the same step in `ThinModel`.
 */
module ThinDriver {
  import opened Text
  import opened Json
  import opened ThinModel

  /** What the driver calls out through; the trace remembers the calls for the proofs. */
  class Dispatcher<W> {
    const host: Host<W>
    var world: W
    ghost var trace: seq<Call<W>>

    constructor (host: Host<W>, world: W)
      ensures this.host == host && this.world == world && trace == []
    {
      this.host := host;
      this.world := world;
      trace := [];
    }

    method Dispatch(ghost role: Role, uri: string, payload: Payload) returns (r: Dict)
      modifies this
      ensures (world, r) == host.dispatch(old(world), uri, payload)
      ensures trace == old(trace) + [Call(role, uri, payload, old(world), world, r)]
    {
      ghost var before := world;
      var (w, res) := host.dispatch(world, uri, payload);
      world, r := w, res;
      trace := trace + [Call(role, uri, payload, before, world, r)];
    }
  }

  /** Carries the flow's awareness through every hop. */
  class FlowEnvelope {
    const flowId: string
    const goal: Dict
    var attempts: map<string, int>
    var position: nat
    var ledger: seq<Inverse>
    var events: seq<Event>
    var retriesUsed: nat
    var remediationsUsed: nat

    constructor (flowId: string, goal: Dict)
      ensures this.flowId == flowId && this.goal == goal && attempts == map[]
      ensures position == 0 && ledger == [] && events == [] && retriesUsed == 0 && remediationsUsed == 0
    {
      this.flowId, this.goal, attempts := flowId, goal, map[];
      position, ledger, events, retriesUsed, remediationsUsed := 0, [], [], 0, 0;
    }

    method RecordCall(uri: string)
      modifies this`events
      ensures events == old(events) + [Sent(uri, position)]
    {
      events := events + [Sent(uri, position)];
    }

    method RecordReturn(uri: string, ok: Value, next: Option<Value>, retry: bool)
      modifies this`events
      ensures events == old(events) + [Returned(uri, position, ok, next, retry)]
    {
      events := events + [Returned(uri, position, ok, next, retry)];
    }

    method PushInverse(inv: Inverse)
      modifies this`ledger
      ensures ledger == old(ledger) + [inv]
    {
      ledger := ledger + [inv];
    }
  }

  /** The timeline and the results of the run. */
  class Progress {
    var timeline: seq<Entry>
    var results: Results

    constructor ()
      ensures timeline == [] && results == []
    {
      timeline, results := [], [];
    }

    method Note(e: Entry)
      modifies this`timeline
      ensures timeline == old(timeline) + [e]
    {
      timeline := timeline + [e];
    }

    method Store(sid: string, r: Dict)
      modifies this`results
      ensures results == Put(old(results), sid, r)
    {
      results := Put(results, sid, r);
    }
  }

  ghost function StateOf<W>(d: Dispatcher<W>, env: FlowEnvelope, log: Progress): State<W>
    reads d, env, log
  {
    State(d.world, d.trace, env.position, env.ledger, env.events, env.retriesUsed, env.remediationsUsed,
          log.timeline, log.results)
  }

  lemma {:induction false} UndoNone<W>(host: Host<W>, st: State<W>, undone: seq<string>)
    ensures Undo(host, st, [], undone) == (st, Undone(undone))
  {
  }

  /** Undoing works from the end of the ledger. */
  lemma {:induction false} UndoLast<W>(host: Host<W>, st: State<W>, ledger: seq<Inverse>, undone: seq<string>)
    requires ledger != []
    ensures var e, rest := ledger[|ledger| - 1], ledger[..|ledger| - 1];
            var (st1, rb) := UndoOne(host, st, e);
            Undo(host, st, ledger, undone) ==
            if e.uri == "" then Undo(host, st, rest, undone)
            else if !IsOk(rb) then (st1, Stuck(undone, e.uri, GetOr(rb, "error", Str("inverse failed"))))
            else Undo(host, st1, rest, undone + [e.uri])
  {
    hide UndoOne, IsOk;
  }

  /** Dispatch one inverse; its answer goes to the envelope and the timeline. */
  method ThinUndo<W>(d: Dispatcher<W>, env: FlowEnvelope, log: Progress, entry: Inverse) returns (rb: Dict)
    modifies d, env, log
    ensures (StateOf(d, env, log), rb) == UndoOne(d.host, old(StateOf(d, env, log)), entry)
    ensures env.ledger == old(env.ledger) && env.position == old(env.position)
  {
    hide OkField;
    env.RecordCall(entry.uri);
    rb := d.Dispatch(Undoing, entry.uri, Args(entry.args));
    env.RecordReturn(entry.uri, OkField(rb), None, false);
    log.Note(RollbackEntry(entry.uri, OkField(rb)));
  }

  method ThinRollback<W>(d: Dispatcher<W>, env: FlowEnvelope, log: Progress, kind: string, error: Value, explicit: bool)
    returns (v: Verdict)
    modifies d, env, log
    ensures (StateOf(d, env, log), v) == Rollback(d.host, old(StateOf(d, env, log)), kind, error, explicit)
  {
    hide IsOk, Undo, UndoOne;
    var undone: seq<string> := [];
    var hasInverses := exists e :: e in env.ledger && e.uri != "";
    var ledger := env.ledger;
    ghost var st0 := StateOf(d, env, log);
    assert ledger[..|ledger|] == ledger;
    for k := |ledger| downto 0
      invariant env.position == st0.position && env.ledger == ledger
      invariant Undo(d.host, StateOf(d, env, log), ledger[..k], undone) == Undo(d.host, st0, ledger, [])
    {
      var entry := ledger[k];
      ghost var before := StateOf(d, env, log);
      UndoLast(d.host, before, ledger[..k + 1], undone);
      assert ledger[..k + 1][..k] == ledger[..k];
      if entry.uri != "" {
        var rb := ThinUndo(d, env, log, entry);
        if !IsOk(rb) {
          return RolledBack(kind, Some(Stuck(undone, entry.uri, GetOr(rb, "error", Str("inverse failed")))), error);
        }
        undone := undone + [entry.uri];
      }
    }
    UndoNone(d.host, StateOf(d, env, log), undone);
    v := RolledBack(kind, if hasInverses || explicit then Some(Undone(undone)) else None, error);
  }

  method ThinCallAgain<W>(d: Dispatcher<W>, env: FlowEnvelope, log: Progress, step: Step, payload: Dict,
                          healed: bool, precondition: Option<Value>, target: string) returns (r: Dict)
    modifies d, env, log
    ensures (StateOf(d, env, log), r) ==
            CallAgain(d.host, old(StateOf(d, env, log)), step, payload, healed, precondition, target)
  {
    hide NextKind, OkField, Put;
    env.retriesUsed := env.retriesUsed + 1;
    if healed {
      env.remediationsUsed := env.remediationsUsed + 1;
    }
    r := d.Dispatch(Retry(step), step.uri, Args(payload));
    env.RecordReturn(step.uri, OkField(r), Some(NextKind(r)), true);
    log.Note(RetryEntry(step.Sid() + ":retry", step.uri, OkField(r), target, precondition));
    log.Store(step.Sid(), r);
  }

  method ThinRetryOnce<W>(d: Dispatcher<W>, env: FlowEnvelope, log: Progress, step: Step, payload: Dict,
                          healed: bool, precondition: Option<Value>, target: string) returns (outcome: Outcome)
    modifies d, env, log
    ensures (StateOf(d, env, log), outcome) ==
            RetryOnce(d.host, old(StateOf(d, env, log)), step, payload, healed, precondition, target)
  {
    var r := ThinCallAgain(d, env, log, step, payload, healed, precondition, target);
    if NextKind(r) != Str("continue") && NextKind(r) != Str("done") {
      var v := ThinRollback(d, env, log, "failed", Null, false);
      return Return(v);
    }
    return Continue;
  }

  method ThinHandleAcquire<W>(d: Dispatcher<W>, env: FlowEnvelope, log: Progress, step: Step, payload: Dict, r: Dict)
    returns (outcome: Outcome)
    modifies d, env, log
    ensures (StateOf(d, env, log), outcome) == Acquire(d.host, old(StateOf(d, env, log)), step, payload, r)
  {
    var node := AcquireNode(d.host, step);
    var er := d.Dispatch(Ensure(step), EnsureUri(node), Precondition(AcquireNeed(r)));
    if Acquired(er) {
      outcome := ThinRetryOnce(d, env, log, step, payload, true, Some(AcquireNeed(r)), node);
    } else {
      var blocked := Or(Get(er, "acquire"), Obj(Fields(Get(r, "acquire"))));
      log.Note(BlockedEntry(step.Sid() + ":blocked", step.uri, node, blocked, ErrorDict(r)));
      outcome := Return(Blocked(blocked, ErrorDict(r)));
    }
  }

  method ThinHandleNonContinue<W>(d: Dispatcher<W>, env: FlowEnvelope, log: Progress, step: Step, payload: Dict,
                                  r: Dict, kind: Value) returns (outcome: Outcome)
    modifies d, env, log
    ensures (StateOf(d, env, log), outcome) ==
            FollowIntent(d.host, old(StateOf(d, env, log)), step, payload, r, kind)
  {
    if kind == Str("retry") {
      outcome := ThinRetryOnce(d, env, log, step, payload, Truthy(Get(r, "healed")), None, d.host.target(step.uri));
    } else if kind == Str("acquire") {
      outcome := ThinHandleAcquire(d, env, log, step, payload, r);
    } else if kind == Str("rollback") {
      var v := ThinRollback(d, env, log, "failed", ErrorDict(r), NextField(r) == Str("rollback"));
      outcome := Return(v);
    } else {
      outcome := if kind == Str("done") then Break else Continue;
    }
  }

  method ThinUpdateLedger(env: FlowEnvelope, uri: string, r: Dict)
    modifies env`ledger
    ensures env.ledger == old(env.ledger) + LedgerDelta(uri, r)
  {
    if IsOk(r) {
      var inv := InverseOf(uri, r);
      if inv.Some? {
        env.PushInverse(inv.value);
      }
    }
  }

  method ThinAttempt<W>(d: Dispatcher<W>, env: FlowEnvelope, log: Progress, step: Step, payload: Dict)
    returns (outcome: Outcome)
    modifies d, env, log
    ensures (StateOf(d, env, log), outcome) == Attempt(d.host, old(StateOf(d, env, log)), step, payload)
  {
    hide MakeStepEntry, FoldInnerOk, NextKind, OkField, IsOk, StepError, LedgerDelta, Put, FollowIntent;
    env.RecordCall(step.uri);
    var r := d.Dispatch(if step.optional then Optional(step) else First(step), step.uri, Args(payload));
    if step.optional {
      log.Note(MakeStepEntry(d.host, step.Sid(), step.uri, r));
      log.Store(step.Sid(), r);
      return Continue;
    }
    r := FoldInnerOk(d.host, r);
    var kind := NextKind(r);
    env.RecordReturn(step.uri, OkField(r), Some(kind), false);
    ThinUpdateLedger(env, step.uri, r);
    log.Note(MakeStepEntry(d.host, step.Sid(), step.uri, r));
    log.Store(step.Sid(), r);
    if kind != Str("continue") {
      outcome := ThinHandleNonContinue(d, env, log, step, payload, r, kind);
    } else {
      outcome := if IsOk(r) then Continue else Return(ActionFailed(StepError(step.uri, r)));
    }
  }

  method ThinDispatchStep<W>(d: Dispatcher<W>, env: FlowEnvelope, log: Progress, step: Step)
    returns (outcome: Outcome)
    modifies d, env, log
    ensures (StateOf(d, env, log), outcome) == DispatchStep(d.host, old(StateOf(d, env, log)), step)
  {
    var missing := MissingDeps(log.results, step.dependsOn);
    if missing != [] {
      log.Note(MissingEntry(step.Sid(), step.uri, missing, d.host.target(step.uri)));
      return Return(MissingDependencies(step.Sid(), missing));
    }
    var degraded := FirstDegraded(log.results);
    if step.Irreversible() && degraded.Some? {
      var skip := SkipResult(degraded.value);
      log.Note(MakeStepEntry(d.host, step.Sid(), step.uri, skip));
      log.Store(step.Sid(), skip);
      return Continue;
    }
    var payload := d.host.prepare(step, log.results, log.timeline);
    if payload.None? {
      return Return(Raised);
    }
    outcome := ThinAttempt(d, env, log, step, payload.value);
  }

  method ThinGoalVerify<W>(d: Dispatcher<W>, env: FlowEnvelope, log: Progress) returns (failed: Option<Verdict>)
    modifies d, env, log
    ensures (StateOf(d, env, log), failed) == VerifyGoal(d.host, old(StateOf(d, env, log)))
  {
    env.RecordCall(GOAL_URI);
    var r := d.Dispatch(Goal, GOAL_URI, GoalCheck(d.host.goal, log.results));
    if GoalUnserved(r) {
      r := UNSERVED_GOAL;
    }
    env.RecordReturn(GOAL_URI, OkField(r), Some(NextKind(r)), false);
    if IsOk(r) {
      return None;
    }
    var v := ThinRollback(d, env, log, "goal-failed", Null, false);
    return Some(v);
  }

  /** The uniform follow-the-intent loop. */
  method Run<W>(d: Dispatcher<W>, env: FlowEnvelope, log: Progress, steps: seq<Step>, execute: bool, lim: Limits)
    returns (v: Verdict)
    modifies d, env, log
    ensures (StateOf(d, env, log), v) == Drive(d.host, old(StateOf(d, env, log)), steps, execute, lim)
  {
    ghost var st0 := StateOf(d, env, log);
    ghost var end := FellThrough;
    var i := 0;
    while i < |steps|
      invariant 0 <= i <= |steps|
      invariant Loop(d.host, StateOf(d, env, log), steps[i..], i, lim) == Loop(d.host, st0, steps, 0, lim)
      decreases |steps| - i
    {
      if env.retriesUsed > lim.maxRetries {
        return CircuitBroken(RetryBudget);
      } else if env.remediationsUsed > lim.maxRemediations {
        return CircuitBroken(HealBudget);
      } else if lim.late(i) {
        return CircuitBroken(WallClock);
      }
      env.position := i;
      var outcome := ThinDispatchStep(d, env, log, steps[i]);
      assert steps[i..][1..] == steps[i + 1..];
      match outcome
      case Continue => i := i + 1;
      case Break =>
        end := Broke;
        break;
      case Return(verdict) => return verdict;
    }
    assert (StateOf(d, env, log), end) == Loop(d.host, st0, steps, 0, lim);
    if execute {
      var failed := ThinGoalVerify(d, env, log);
      if failed.Some? {
        return failed.value;
      }
    }
    var degraded := FirstDegraded(log.results);
    v := Finished(degraded.Some?, if degraded.Some? then degraded.value else Null);
  }
}
