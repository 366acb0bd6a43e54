/**
 What the driver makes of an answer, read off whole runs: each clause is about the
 fields of the answers and the calls that follow them.
 */
module ThinIntent {
  import opened Text
  import opened Json
  import opened ThinModel
  import opened ThinGuard
  import Reads = ThinReads

  // ------------------------------------------------------- fields of an answer

  /** The answer names this intent. */
  predicate Says(r: Dict, kind: string) {
    && "next" in r && r["next"].Obj?
    && "kind" in r["next"].fields && r["next"].fields["kind"] == Str(kind)
  }

  /** Going forward: anything but undoing and the goal check. */
  predicate Forward(role: Role) { role.First? || role.Optional? || role.Retry? || role.Ensure? }

  ghost predicate NoneForward<W>(trace: seq<Call<W>>, from: nat) {
    forall j :: from <= j < |trace| ==> !Forward(trace[j].role)
  }

  /** The call after `i` tries the step again, with what it was tried with. */
  ghost predicate TriedAgain<W>(trace: seq<Call<W>>, i: nat)
    requires i < |trace| && trace[i].role.First?
  {
    && i + 1 < |trace| && trace[i + 1].role == Retry(trace[i].role.step)
    && trace[i + 1].uri == trace[i].uri && trace[i + 1].payload == trace[i].payload
  }

  /**
   The call after `i` asks the step's node to provide what the answer names; if it does,
   the step is tried again, with what it was tried with.
   */
  ghost predicate AskedFor<W>(host: Host<W>, trace: seq<Call<W>>, i: nat)
    requires i < |trace| && trace[i].role.First?
  {
    var step := trace[i].role.step;
    && i + 1 < |trace| && trace[i + 1].role == Ensure(step)
    && trace[i + 1].uri == "ready://" + (if host.target(step.uri) == "" then "host" else host.target(step.uri)) + "/ready/command/ensure"
    && trace[i + 1].payload.Precondition? && Reads.Needs(trace[i].result, trace[i + 1].payload.what)
    && (Reads.Provided(trace[i + 1].result) ==>
          && i + 2 < |trace| && trace[i + 2].role == Retry(step)
          && trace[i + 2].uri == trace[i].uri && trace[i + 2].payload == trace[i].payload)
  }

  /** What a first attempt's answer asks for is what happens. */
  ghost predicate Heeded<W>(host: Host<W>, trace: seq<Call<W>>, i: nat)
    requires i < |trace| && trace[i].role.First?
  {
    var r := trace[i].result;
    && (Says(r, "retry") ==> TriedAgain(trace, i))
    && (Says(r, "acquire") ==> AskedFor(host, trace, i))
    && (Says(r, "done") || Says(r, "rollback") ==> NoneForward(trace, i + 1))
  }

  ghost predicate AllHeeded<W>(host: Host<W>, trace: seq<Call<W>>) {
    forall i :: 0 <= i < |trace| && trace[i].role.First? ==> Heeded(host, trace, i)
  }

  ghost predicate Said<W>(trace: seq<Call<W>>, kind: string) {
    exists c :: c in trace && c.role.First? && Says(c.result, kind)
  }

  /** The steps attempted, in order. */
  function Attempts<W>(trace: seq<Call<W>>): seq<Step> {
    if trace == [] then []
    else
      var last := trace[|trace| - 1];
      Attempts(trace[..|trace| - 1]) + if last.role.First? || last.role.Optional? then [last.role.step] else []
  }

  /** The plan, less some irreversible steps. */
  ghost predicate Thinned(attempts: seq<Step>, steps: seq<Step>)
    decreases |steps|
  {
    if steps == [] then attempts == []
    else
      || (attempts != [] && attempts[0] == steps[0] && Thinned(attempts[1..], steps[1..]))
      || (steps[0].Irreversible() && Thinned(attempts, steps[1..]))
  }

  // ------------------------------------------------------------ one attempt

  lemma {:induction false} SaysIsNext(r: Dict, kind: string)
    requires kind != ""
    ensures Says(r, kind) <==> NextField(r) == Str(kind)
    ensures Says(r, kind) ==> NextKind(r) == Str(kind)
  {
  }

  /** Folding leaves what the answer says next. */
  lemma {:induction false} FoldSays<W>(host: Host<W>, r: Dict, kind: string)
    ensures Says(FoldInnerOk(host, r), kind) <==> Says(r, kind)
  {
    hide ActionOk, ResultData;
  }

  /** `u` adds only backward calls to `t`. */
  ghost predicate BackFrom<W>(t: seq<Call<W>>, u: seq<Call<W>>) {
    t <= u && NoneForward(u, |t|)
  }

  lemma {:induction false} UndoIsBack<W>(host: Host<W>, st: State<W>, ledger: seq<Inverse>, undone: seq<string>)
    ensures BackFrom(st.trace, Undo(host, st, ledger, undone).0.trace)
    decreases |ledger|
  {
    if ledger != [] {
      var e, rest := ledger[|ledger| - 1], ledger[..|ledger| - 1];
      if e.uri == "" {
        UndoIsBack(host, st, rest, undone);
      } else {
        var (st1, rb) := UndoOne(host, st, e);
        if IsOk(rb) {
          UndoIsBack(host, st1, rest, undone + [e.uri]);
        }
      }
    }
  }

  lemma {:induction false} BackKeeps<W>(host: Host<W>, t: seq<Call<W>>, u: seq<Call<W>>)
    requires AllHeeded(host, t) && BackFrom(t, u)
    ensures AllHeeded(host, u) && Attempts(u) == Attempts(t)
    ensures forall kind :: Said(u, kind) <==> Said(t, kind)
  {
    forall i | 0 <= i < |u| && u[i].role.First? ensures Heeded(host, u, i) {
      assert i < |t| && Heeded(host, t, i) && u[i] == t[i];
    }
    BackAttempts(t, u);
    forall kind ensures Said(u, kind) <==> Said(t, kind) {
      BackSaid(t, u, kind);
    }
  }

  lemma {:induction false} BackSaid<W>(t: seq<Call<W>>, u: seq<Call<W>>, kind: string)
    requires t <= u && forall j :: |t| <= j < |u| ==> !u[j].role.First?
    ensures Said(u, kind) <==> Said(t, kind)
  {
    if Said(t, kind) {
      var c :| c in t && c.role.First? && Says(c.result, kind);
      assert c in u;
    }
    if Said(u, kind) {
      var j :| 0 <= j < |u| && u[j].role.First? && Says(u[j].result, kind);
      assert t[j] == u[j];
    }
  }

  lemma {:induction false} BackAttempts<W>(t: seq<Call<W>>, u: seq<Call<W>>)
    requires t <= u && forall j :: |t| <= j < |u| ==> !u[j].role.First? && !u[j].role.Optional?
    ensures Attempts(u) == Attempts(t)
    decreases |u|
  {
    if |u| > |t| {
      BackAttempts(t, u[..|u| - 1]);
    } else {
      assert t == u;
    }
  }

  predicate Finishes(o: Outcome) { o.Return? && o.verdict.Finished? }

  /** What one more turn adds: a call of the step, then what its answer asks for. */
  ghost predicate Tail<W>(host: Host<W>, st: State<W>, st1: State<W>, step: Step, outcome: Outcome) {
    var n := |st.trace|;
    && st.trace < st1.trace
    && st1.trace[n].role == First(step) && st1.trace[n].uri == step.uri
    && (forall j :: n < j < |st1.trace| ==> !st1.trace[j].role.First? && !st1.trace[j].role.Optional?)
    && Heeded(host, st1.trace, n)
    && (outcome.Break? <==> Says(st1.trace[n].result, "done")) && !Finishes(outcome)
    && (Says(st1.trace[n].result, "rollback") ==> outcome.Return? && outcome.verdict.RolledBack? && outcome.verdict.kind == "failed")
  }

  lemma {:induction false} RetryTail<W>(host: Host<W>, st: State<W>, step: Step, payload: Dict, healed: bool,
                                        precondition: Option<Value>, target: string)
    ensures var (st1, o) := RetryOnce(host, st, step, payload, healed, precondition, target);
            && st.trace < st1.trace && !o.Break? && !Finishes(o)
            && st1.trace[|st.trace|].role == Retry(step) && st1.trace[|st.trace|].uri == step.uri
            && st1.trace[|st.trace|].payload == Args(payload)
            && NoneForward(st1.trace, |st.trace| + 1)
  {
    hide Undo, NextKind, Put;
    var (st1, r) := CallAgain(host, st, step, payload, healed, precondition, target);
    UndoIsBack(host, st1, st1.ledger, []);
  }

  lemma {:induction false} AcquireTail<W>(host: Host<W>, st: State<W>, step: Step, payload: Dict, r: Dict)
    ensures var (st1, o) := Acquire(host, st, step, payload, r);
            && st.trace < st1.trace && !o.Break? && !Finishes(o)
            && (forall j :: |st.trace| < j < |st1.trace| ==> !st1.trace[j].role.First? && !st1.trace[j].role.Optional?)
            && var n, c := |st.trace|, st1.trace[|st.trace|];
            && c.role == Ensure(step) && c.payload.Precondition? && Reads.Needs(r, c.payload.what)
            && c.uri == "ready://" + (if host.target(step.uri) == "" then "host" else host.target(step.uri)) + "/ready/command/ensure"
            && (Reads.Provided(c.result) ==>
                  && n + 1 < |st1.trace| && st1.trace[n + 1].role == Retry(step)
                  && st1.trace[n + 1].uri == step.uri && st1.trace[n + 1].payload == Args(payload))
  {
    hide RetryOnce, Acquired, AcquireNode, AcquireNeed, EnsureUri, ErrorDict, Reads.Needs, Reads.Provided;
    var node, need := AcquireNode(host, step), AcquireNeed(r);
    Reads.AskReads(host, step);
    Reads.NeedReads(r);
    var (st1, er) := Send(host, st, Ensure(step), EnsureUri(node), Precondition(need));
    Reads.AcquiredReads(er);
    RetryTail(host, st1, step, payload, true, Some(need), node);
    assert st1.trace[|st.trace|].uri == EnsureUri(node) && st1.trace[|st.trace|].result == er;
    var st2 := RetryOnce(host, st1, step, payload, true, Some(need), node).0;
    assert forall j :: 0 <= j < |st1.trace| ==> st2.trace[j] == st1.trace[j];
  }

  /** Folding leaves what is needed. */
  lemma {:induction false} FoldNeeds<W>(host: Host<W>, r: Dict, need: Value)
    ensures Reads.Needs(FoldInnerOk(host, r), need) <==> Reads.Needs(r, need)
  {
    Reads.FoldReads(host, r);
    hide FoldInnerOk, ActionOk, ResultData, Reads.WentOk, Falsy;
  }

  lemma {:induction false} FirstTail<W>(host: Host<W>, st: State<W>, step: Step, payload: Dict)
    ensures var (st1, r) := CallFirst(host, st, step, payload);
            && |st1.trace| == |st.trace| + 1 && st1.trace[..|st.trace|] == st.trace
            && var c := st1.trace[|st.trace|];
            c.role == First(step) && c.uri == step.uri && c.payload == Args(payload) && r == FoldInnerOk(host, c.result)
  {
    hide FoldInnerOk, LedgerDelta, NextKind, OkField, MakeStepEntry, Put;
  }

  lemma {:induction false} AttemptTail<W>(host: Host<W>, st: State<W>, step: Step, payload: Dict)
    requires !step.optional
    ensures var (st1, o) := Attempt(host, st, step, payload); Tail(host, st, st1, step, o)
  {
    hide RetryOnce, Acquire, Undo, FoldInnerOk, IsOk, CallFirst, ErrorDict, StepError, Says, NextField, NextKind,
         Reads.Needs, Reads.Provided;
    var n := |st.trace|;
    FirstTail(host, st, step, payload);
    var (st1, r) := CallFirst(host, st, step, payload);
    var raw := st1.trace[n].result;
    KindFollows(host, raw, "retry");
    KindFollows(host, raw, "acquire");
    KindFollows(host, raw, "rollback");
    KindFollows(host, raw, "done");
    KindsDiffer(raw);
    BreakMeansDone(host, raw);
    var kind := NextKind(r);
    if kind == Str("retry") {
      RetryTail(host, st1, step, payload, Truthy(Get(r, "healed")), None, host.target(step.uri));
    } else if kind == Str("acquire") {
      AcquireTail(host, st1, step, payload, r);
      FoldNeeds(host, raw, Acquire(host, st1, step, payload, r).0.trace[n + 1].payload.what);
    } else if kind == Str("rollback") {
      UndoIsBack(host, st1, st1.ledger, []);
    }
    var st2 := Attempt(host, st, step, payload).0;
    assert st1.trace <= st2.trace;
    assert st2.trace[..n] == st1.trace[..n] && st2.trace[n] == st1.trace[n];
  }

  lemma {:induction false} KindFollows<W>(host: Host<W>, raw: Dict, kind: string)
    requires kind != ""
    ensures Says(raw, kind) ==> NextKind(FoldInnerOk(host, raw)) == Str(kind)
  {
    FoldSays(host, raw, kind);
    SaysIsNext(FoldInnerOk(host, raw), kind);
  }

  lemma {:induction false} BreakMeansDone<W>(host: Host<W>, raw: Dict)
    ensures NextKind(FoldInnerOk(host, raw)) == Str("done") ==> Says(raw, "done")
  {
    FoldSays(host, raw, "done");
    SaysIsNext(FoldInnerOk(host, raw), "done");
    hide FoldInnerOk, Says;
  }

  lemma {:induction false} KindsDiffer(r: Dict)
    ensures forall a, b :: Says(r, a) && Says(r, b) ==> a == b
  {
  }

  // -------------------------------------------------------------- over runs

  /** Along the loop: all answers heeded, and only the last may have stopped it. */
  ghost predicate Going<W>(host: Host<W>, trace: seq<Call<W>>) {
    AllHeeded(host, trace) && !Said(trace, "done") && !Said(trace, "rollback")
  }

  /** The turn leaves the trace going, or the run ends here. */
  ghost predicate Turned<W>(host: Host<W>, st: State<W>, st1: State<W>, step: Step, o: Outcome) {
    && AllHeeded(host, st1.trace)
    && (o.Continue? ==> Going(host, st1.trace))
    && (o.Break? <==> Said(st1.trace, "done")) && !Finishes(o)
    && (Said(st1.trace, "rollback") ==> o.Return? && o.verdict.RolledBack? && o.verdict.kind == "failed")
    && (o.Continue? ==>
          Attempts(st1.trace) == Attempts(st.trace) + [step] ||
          (Attempts(st1.trace) == Attempts(st.trace) && step.Irreversible() && DegradedSeen(st1.trace)))
  }

  lemma {:induction false} HeededStays<W>(host: Host<W>, t: seq<Call<W>>, u: seq<Call<W>>, i: nat)
    requires t <= u && i < |t| && t[i].role.First? && Heeded(host, t, i)
    requires !Says(t[i].result, "done") && !Says(t[i].result, "rollback")
    ensures Heeded(host, u, i)
  {
    hide Says;
  }

  lemma {:induction false} AttemptsPlus<W>(t: seq<Call<W>>, u: seq<Call<W>>)
    requires t < u && (u[|t|].role.First? || u[|t|].role.Optional?)
    requires forall j :: |t| < j < |u| ==> !u[j].role.First? && !u[j].role.Optional?
    ensures Attempts(u) == Attempts(t) + [u[|t|].role.step]
  {
    var v := u[..|t| + 1];
    assert v[..|v| - 1] == t && v[|v| - 1] == u[|t|];
    BackAttempts(v, u);
  }

  lemma {:induction false} TailTurned<W>(host: Host<W>, st: State<W>, st1: State<W>, step: Step, o: Outcome)
    requires Going(host, st.trace) && Tail(host, st, st1, step, o)
    ensures Turned(host, st, st1, step, o)
  {
    hide Says, Heeded, DegradedSeen, Attempts, Step.Irreversible;
    var n, t, u := |st.trace|, st.trace, st1.trace;
    forall i | 0 <= i < |u| && u[i].role.First? ensures Heeded(host, u, i) {
      if i < n {
        assert u[i] == t[i] && t[i] in t;
        assert Heeded(host, t, i);
        HeededStays(host, t, u, i);
      }
    }
    AttemptsPlus(t, u);
    forall kind ensures Said(u, kind) <==> Said(t, kind) || Says(u[n].result, kind) {
      SaidPlus(t, u, kind);
    }
    KindsDiffer(u[n].result);
  }

  lemma {:induction false} SaidPlus<W>(t: seq<Call<W>>, u: seq<Call<W>>, kind: string)
    requires t < u && u[|t|].role.First? && forall j :: |t| < j < |u| ==> !u[j].role.First?
    ensures Said(u, kind) <==> Said(t, kind) || Says(u[|t|].result, kind)
  {
    hide Says;
    var v := u[..|t| + 1];
    assert v == t + [u[|t|]];
    BackSaid(v, u, kind);
    if Said(t, kind) {
      var c :| c in t && c.role.First? && Says(c.result, kind);
      assert c in v;
    }
    if Says(u[|t|].result, kind) {
      assert v[|t|] in v;
    }
  }

  /** An optional step is called once and nothing follows from its answer. */
  lemma {:induction false} OptionalTurned<W>(host: Host<W>, st: State<W>, step: Step, payload: Dict)
    requires Going(host, st.trace)
    ensures Turned(host, st, CallOptional(host, st, step, payload), step, Continue)
  {
    hide Says, Heeded, DegradedSeen, Attempts, Step.Irreversible, Put, MakeStepEntry;
    var st1 := CallOptional(host, st, step, payload);
    var t, u := st.trace, st1.trace;
    forall i | 0 <= i < |u| && u[i].role.First? ensures Heeded(host, u, i) {
      assert u[i] == t[i] && t[i] in t;
      assert Heeded(host, t, i);
      HeededStays(host, t, u, i);
    }
    AttemptsPlus(t, u);
    BackSaid(t, u, "done");
    BackSaid(t, u, "rollback");
  }

  lemma {:induction false} StillTurned<W>(host: Host<W>, st: State<W>, st1: State<W>, step: Step, o: Outcome)
    requires Going(host, st.trace) && st1.trace == st.trace && !o.Break? && !Finishes(o)
    requires o.Continue? ==> step.Irreversible() && DegradedSeen(st.trace)
    ensures Turned(host, st, st1, step, o)
  {
  }

  lemma {:induction false} StepTurned<W>(host: Host<W>, st: State<W>, step: Step)
    requires Going(host, st.trace) && Sourced(st.results, st.trace)
    ensures var (st1, o) := DispatchStep(host, st, step); Turned(host, st, st1, step, o)
  {
    hide Going, Turned, CallOptional, CallFirst, FollowIntent, MissingDeps, Step.Irreversible, Tail, NextKind, Put, MakeStepEntry, DegradedSeen;
    var (st1, o) := DispatchStep(host, st, step);
    if MissingDeps(st.results, step.dependsOn) != [] {
      StillTurned(host, st, st1, step, o);
    } else if step.Irreversible() && FirstDegraded(st.results).Some? {
      StillTurned(host, st, st1, step, o);
    } else {
      match host.prepare(step, st.results, st.timeline)
      case None => StillTurned(host, st, st1, step, o);
      case Some(payload) =>
        if step.optional {
          OptionalTurned(host, st, step, payload);
        } else {
          AttemptTail(host, st, step, payload);
          TailTurned(host, st, st1, step, o);
        }
    }
  }

  /** A turn keeps degraded results sourced in calls, and only adds calls. */
  lemma {:induction false} StepSourced<W>(host: Host<W>, st: State<W>, step: Step)
    requires Sourced(st.results, st.trace)
    ensures var st1 := DispatchStep(host, st, step).0;
            st.trace <= st1.trace && Sourced(st1.results, st1.trace)
  {
    hide Attempt, Recorded, IsDegraded, DegradedSeen, Step.Irreversible;
    if MissingDeps(st.results, step.dependsOn) != [] {
    } else if step.Irreversible() && FirstDegraded(st.results).Some? {
      SkipNotDegraded(FirstDegraded(st.results).value);
      PutDegraded(st.results, step.Sid(), SkipResult(FirstDegraded(st.results).value));
    } else {
      match host.prepare(step, st.results, st.timeline)
      case None =>
      case Some(payload) => AttemptFootprint(host, st, step, payload);
    }
  }

  lemma {:induction false} LoopGrows<W>(host: Host<W>, st: State<W>, steps: seq<Step>, pos: nat, lim: Limits)
    requires Sourced(st.results, st.trace)
    ensures st.trace <= Loop(host, st, steps, pos, lim).0.trace
    decreases |steps|
  {
    hide DispatchStep, Breaker, Sourced;
    if steps != [] && Breaker(st, lim, pos).None? {
      StepSourced(host, st.(position := pos), steps[0]);
      var (st1, o) := DispatchStep(host, st.(position := pos), steps[0]);
      if o.Continue? {
        LoopGrows(host, st1, steps[1..], pos + 1, lim);
      }
    }
  }

  lemma {:induction false} LoopHeeds<W>(host: Host<W>, st: State<W>, steps: seq<Step>, pos: nat, lim: Limits) returns (more: seq<Step>)
    requires Going(host, st.trace) && Sourced(st.results, st.trace)
    ensures var (st1, end) := Loop(host, st, steps, pos, lim);
            && AllHeeded(host, st1.trace)
            && (end.Broke? <==> Said(st1.trace, "done"))
            && (Said(st1.trace, "rollback") ==> end.Ended? && end.verdict.RolledBack? && end.verdict.kind == "failed")
            && (end.Ended? ==> !end.verdict.Finished?)
            && (end.FellThrough? ==> Attempts(st1.trace) == Attempts(st.trace) + more && Thinned(more, steps))
            && (end.FellThrough? && more != steps ==> DegradedSeen(st1.trace))
    decreases |steps|
  {
    hide AllHeeded, Said, DispatchStep, Breaker, Attempts, Step.Irreversible, Sourced, DegradedSeen;
    more := [];
    if steps != [] && Breaker(st, lim, pos).None? {
      var st0 := st.(position := pos);
      StepTurned(host, st0, steps[0]);
      var (st1, o) := DispatchStep(host, st0, steps[0]);
      StepSourced(host, st0, steps[0]);
      if o.Continue? {
        LoopGrows(host, st1, steps[1..], pos + 1, lim);
        var rest := LoopHeeds(host, st1, steps[1..], pos + 1, lim);
        more := if Attempts(st1.trace) == Attempts(st.trace) + [steps[0]] then [steps[0]] + rest else rest;
        assert ([steps[0]] + rest)[1..] == rest && steps == [steps[0]] + steps[1..];
        if DegradedSeen(st1.trace) {
          SeenGrows(st1.trace, Loop(host, st1, steps[1..], pos + 1, lim).0.trace);
        }
        assert (Attempts(st.trace) + [steps[0]]) + rest == Attempts(st.trace) + ([steps[0]] + rest);
      }
    } else if steps == [] {
      assert Attempts(st.trace) + [] == Attempts(st.trace);
    }
  }

  /**
   In every run, for any dispatcher: a first attempt that answers retry is tried again
   next with the same payload; one that answers acquire is followed by asking its node for
   what it names, and tried again if that is provided; after one that answers done or rollback nothing goes forward any more, and
   the run is finished or rolled back accordingly.
   */
  lemma {:induction false} AnswersAreHeeded<W>(host: Host<W>, w0: W, steps: seq<Step>, execute: bool, lim: Limits)
    ensures var (st, v) := Drive(host, Fresh(w0), steps, execute, lim);
            && AllHeeded(host, st.trace)
            && (Said(st.trace, "done") ==> v.Finished? || (v.RolledBack? && v.kind == "goal-failed"))
            && (Said(st.trace, "rollback") ==> v.RolledBack? && v.kind == "failed")
  {
    hide AllHeeded, Said, Loop, Close;
    NothingSaid(host);
    var more := LoopHeeds(host, Fresh(w0), steps, 0, lim);
    var (st1, end) := Loop(host, Fresh(w0), steps, 0, lim);
    if !end.Ended? {
      CloseIsBack(host, st1, execute);
      BackKeeps(host, st1.trace, Close(host, st1, execute).0.trace);
    }
  }

  lemma {:induction false} NothingSaid<W>(host: Host<W>)
    ensures Going(host, []) && Sourced<W>([], [])
  {
  }

  lemma {:induction false} CloseIsBack<W>(host: Host<W>, st: State<W>, execute: bool)
    ensures var (st1, v) := Close(host, st, execute);
            BackFrom(st.trace, st1.trace) && (v.Finished? || (v.RolledBack? && v.kind == "goal-failed"))
  {
    hide Undo, GoalUnserved, FirstDegraded;
    if execute {
      var (st1, r) := CallGoal(host, st);
      UndoIsBack(host, st1, st1.ledger, []);
    }
  }

  /**
   A run that finished without a done has attempted its whole plan in order, but for
   irreversible steps passed over after a degraded answer.  So an answer naming any other
   intent, or an unknown one, goes on.
   */
  lemma {:induction false} FinishedMeansAttempted<W>(host: Host<W>, w0: W, steps: seq<Step>, execute: bool, lim: Limits)
    ensures var (st, v) := Drive(host, Fresh(w0), steps, execute, lim);
            v.Finished? && !Said(st.trace, "done") ==>
              Thinned(Attempts(st.trace), steps) && (Attempts(st.trace) != steps ==> DegradedSeen(st.trace))
  {
    hide AllHeeded, Said, Loop, Close, Attempts, DegradedSeen, Sourced;
    NothingSaid(host);
    assert Attempts<W>([]) == [] by { NoAttempts<W>(); }
    var more := LoopHeeds(host, Fresh(w0), steps, 0, lim);
    var (st1, end) := Loop(host, Fresh(w0), steps, 0, lim);
    if !end.Ended? {
      CloseIsBack(host, st1, execute);
      BackKeeps(host, st1.trace, Close(host, st1, execute).0.trace);
      assert [] + more == more;
      if DegradedSeen(st1.trace) {
        SeenGrows(st1.trace, Close(host, st1, execute).0.trace);
      }
    }
  }

  lemma {:induction false} NoAttempts<W>()
    ensures Attempts<W>([]) == []
  {
  }
}
