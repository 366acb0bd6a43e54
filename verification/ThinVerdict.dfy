/** What a verdict says about the calls behind it: no flow of dead actions reports green. */
module ThinVerdict {
  import opened Text
  import opened Json
  import opened ThinModel
  import ThinGuard

  /**
   A call that gives no reason to stop.  A first attempt without an intent of its own
   must be ok in transport and in the action's own result; what a retry says about its
   intent is taken as it is.
   */
  predicate Calm<W>(host: Host<W>, c: Call<W>) {
    match c.role
    case First(_) =>
      var kind := NextField(c.result);
      && kind != Str("rollback")
      && (!Truthy(kind) || kind == Str("continue") ==> IsOk(c.result) && ActionOk(host, c.result))
    case Optional(_) => true
    case Retry(_) => NextKind(c.result) == Str("continue") || NextKind(c.result) == Str("done")
    case Ensure(_) => Acquired(c.result)
    case Undoing => false
    case Goal => IsOk(c.result) || GoalUnserved(c.result)
  }

  ghost predicate AllCalm<W>(host: Host<W>, trace: seq<Call<W>>) {
    forall c :: c in trace ==> Calm(host, c)
  }

  /** Verdicts by which a call stopped the flow. */
  predicate Alarmed(v: Verdict) { v.RolledBack? || v.Blocked? || v.ActionFailed? }

  predicate Stops(o: Outcome) { o.Return? && Alarmed(o.verdict) }

  lemma {:induction false} OneMoreCall<W>(host: Host<W>, trace: seq<Call<W>>, c: Call<W>)
    ensures AllCalm(host, trace + [c]) <==> AllCalm(host, trace) && Calm(host, c)
  {
    assert forall d :: d in trace + [c] <==> d in trace || d == c;
  }

  /** An alarm stays in the record, whatever is undone after it. */
  lemma {:induction false} RollbackAlarmed<W>(host: Host<W>, st: State<W>, kind: string, error: Value, explicit: bool)
    requires !AllCalm(host, st.trace)
    ensures !AllCalm(host, Rollback(host, st, kind, error, explicit).0.trace)
  {
    hide Calm;
    ThinGuard.UndoQuiet(host, st, st.ledger, []);
    var t := Rollback(host, st, kind, error, explicit).0.trace;
    assert forall c :: c in st.trace ==> c in t;
  }

  lemma {:induction false} RetryVerdict<W>(host: Host<W>, st: State<W>, step: Step, payload: Dict, healed: bool,
                                           precondition: Option<Value>, target: string)
    requires AllCalm(host, st.trace)
    ensures var (st1, o) := RetryOnce(host, st, step, payload, healed, precondition, target);
            AllCalm(host, st1.trace) <==> !Stops(o)
  {
    hide AllCalm, Rollback;
    var (st1, r) := CallAgain(host, st, step, payload, healed, precondition, target);
    OneMoreCall(host, st.trace, st1.trace[|st.trace|]);
    if !AllCalm(host, st1.trace) {
      RollbackAlarmed(host, st1, "failed", Null, false);
      RollsBack(host, st1, "failed", Null, false);
    }
  }

  lemma {:induction false} RollsBack<W>(host: Host<W>, st: State<W>, kind: string, error: Value, explicit: bool)
    ensures Rollback(host, st, kind, error, explicit).1.RolledBack?
  {
  }

  lemma {:induction false} AcquireVerdict<W>(host: Host<W>, st: State<W>, step: Step, payload: Dict, r: Dict)
    requires AllCalm(host, st.trace)
    ensures var (st1, o) := Acquire(host, st, step, payload, r);
            AllCalm(host, st1.trace) <==> !Stops(o)
  {
    hide AllCalm, RetryOnce;
    var node, need := AcquireNode(host, step), AcquireNeed(r);
    var (st1, er) := Send(host, st, Ensure(step), EnsureUri(node), Precondition(need));
    OneMoreCall(host, st.trace, st1.trace[|st.trace|]);
    if Acquired(er) {
      RetryVerdict(host, st1, step, payload, true, Some(need), node);
    }
  }

  /** Folding makes an attempt ok exactly when transport and action both are. */
  lemma {:induction false} FoldedOk<W>(host: Host<W>, r: Dict)
    ensures IsOk(FoldInnerOk(host, r)) <==> IsOk(r) && ActionOk(host, r)
    ensures NextField(FoldInnerOk(host, r)) == NextField(r)
  {
    hide ResultData;
  }

  lemma {:induction false} FollowVerdict<W>(host: Host<W>, st: State<W>, step: Step, payload: Dict, r: Dict, kind: Value)
    requires AllCalm(host, st.trace) && kind != Str("rollback")
    ensures var (st1, o) := FollowIntent(host, st, step, payload, r, kind);
            AllCalm(host, st1.trace) <==> !Stops(o)
  {
    hide AllCalm, RetryOnce, Acquire;
    if kind == Str("retry") {
      RetryVerdict(host, st, step, payload, Truthy(Get(r, "healed")), None, host.target(step.uri));
    } else if kind == Str("acquire") {
      AcquireVerdict(host, st, step, payload, r);
    }
  }

  lemma {:induction false} AttemptVerdict<W>(host: Host<W>, st: State<W>, step: Step, payload: Dict)
    requires AllCalm(host, st.trace)
    ensures var (st1, o) := Attempt(host, st, step, payload);
            AllCalm(host, st1.trace) <==> !Stops(o)
  {
    hide AllCalm, Rollback, RetryOnce, Acquire, ActionOk, FoldInnerOk, Put, LedgerDelta, MakeStepEntry;
    if step.optional {
      var st1 := CallOptional(host, st, step, payload);
      OneMoreCall(host, st.trace, st1.trace[|st.trace|]);
    } else {
      var (st1, r) := CallFirst(host, st, step, payload);
      var c := st1.trace[|st.trace|];
      OneMoreCall(host, st.trace, c);
      FoldedOk(host, c.result);
      if NextKind(r) == Str("rollback") {
        RollbackAlarmed(host, st1, "failed", ErrorDict(r), NextField(r) == Str("rollback"));
        RollsBack(host, st1, "failed", ErrorDict(r), NextField(r) == Str("rollback"));
      } else if NextKind(r) != Str("continue") {
        FollowVerdict(host, st1, step, payload, r, NextKind(r));
      }
    }
  }

  lemma {:induction false} StepVerdict<W>(host: Host<W>, st: State<W>, step: Step)
    requires AllCalm(host, st.trace)
    ensures var (st1, o) := DispatchStep(host, st, step);
            AllCalm(host, st1.trace) <==> !Stops(o)
  {
    hide AllCalm, Attempt, Put;
    if MissingDeps(st.results, step.dependsOn) == [] && !(step.Irreversible() && FirstDegraded(st.results).Some?) {
      match host.prepare(step, st.results, st.timeline)
      case None =>
      case Some(payload) => AttemptVerdict(host, st, step, payload);
    }
  }

  lemma {:induction false} LoopVerdict<W>(host: Host<W>, st: State<W>, steps: seq<Step>, pos: nat, lim: Limits)
    requires AllCalm(host, st.trace)
    ensures var (st1, end) := Loop(host, st, steps, pos, lim);
            AllCalm(host, st1.trace) <==> !(end.Ended? && Alarmed(end.verdict))
    decreases |steps|
  {
    hide AllCalm, DispatchStep;
    if steps != [] && Breaker(st, lim, pos).None? {
      StepVerdict(host, st.(position := pos), steps[0]);
      var (st1, o) := DispatchStep(host, st.(position := pos), steps[0]);
      if o.Continue? {
        LoopVerdict(host, st1, steps[1..], pos + 1, lim);
      }
    }
  }

  lemma {:induction false} CloseVerdict<W>(host: Host<W>, st: State<W>, execute: bool)
    requires AllCalm(host, st.trace)
    ensures var (st1, v) := Close(host, st, execute);
            AllCalm(host, st1.trace) <==> !Alarmed(v)
  {
    hide AllCalm, Rollback, GoalUnserved;
    if execute {
      var (st1, r) := CallGoal(host, st);
      OneMoreCall(host, st.trace, st1.trace[|st.trace|]);
      if !IsOk(r) {
        RollbackAlarmed(host, st1, "goal-failed", Null, false);
        RollsBack(host, st1, "goal-failed", Null, false);
      }
    }
  }

  /**
   A run is rolled back, blocked or failed if and only if one of its calls gave a reason
   to.  So a finished run had every plain attempt ok in transport and in its action, no
   refused precondition, no retry that went on failing, a goal that held or was not
   served, and undid nothing.
   */
  lemma {:induction false} VerdictExact<W>(host: Host<W>, w0: W, steps: seq<Step>, execute: bool, lim: Limits)
    ensures var (st, v) := Drive(host, Fresh(w0), steps, execute, lim);
            Alarmed(v) <==> exists c :: c in st.trace && !Calm(host, c)
  {
    hide Calm, Loop, Close;
    LoopVerdict(host, Fresh(w0), steps, 0, lim);
    var (st1, end) := Loop(host, Fresh(w0), steps, 0, lim);
    if !end.Ended? {
      CloseVerdict(host, st1, execute);
    }
  }
}
