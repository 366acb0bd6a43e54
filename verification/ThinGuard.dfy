/**
 What the thin driver refuses: no irreversible step on degraded evidence, no step
 before its dependencies.
 */
module ThinGuard {
  import opened Text
  import opened Json
  import opened ThinModel

  /** Calls that are the first dispatch of a plan step. */
  predicate IsAttempt(role: Role) { role.First? || role.Optional? }

  /** Calls whose result is recorded under the step's id. */
  predicate Records(role: Role) { IsAttempt(role) || role.Retry? }

  /** The result recorded for a call: first attempts are folded, others are not. */
  function RecordOf<W>(host: Host<W>, c: Call<W>): Dict {
    if c.role.First? then FoldInnerOk(host, c.result) else c.result
  }

  predicate Holds(results: Results, sid: string, r: Dict) {
    (sid, r) in results
  }

  /** Call `i` recorded a result that no call before `j` replaced. */
  ghost predicate Standing<W>(trace: seq<Call<W>>, i: nat, j: nat)
    requires i < j <= |trace|
  {
    && Records(trace[i].role)
    && forall k :: i < k < j && Records(trace[k].role) ==> trace[k].role.step.Sid() != trace[i].role.step.Sid()
  }

  /** A call of an irreversible step may only be a retry of the step that answered with `c`. */
  predicate OwnRetry<W>(c: Call<W>, later: Call<W>) {
    Records(c.role) && Records(later.role) && later.role.step.Irreversible() ==>
      later.role.Retry? && later.role.step.Sid() == c.role.step.Sid()
  }

  /** While a recorded result stands degraded, no irreversible step is called, save to retry the degraded step itself. */
  ghost predicate NoIrreversibleOnDegraded<W>(trace: seq<Call<W>>) {
    forall i: nat, j: nat | i < j < |trace| && Standing(trace, i, j) ::
      IsDegraded(trace[i].result) ==> OwnRetry(trace[i], trace[j])
  }

  /** No result but the step's own is degraded, if the step is irreversible. */
  predicate Cleared(results: Results, step: Step) {
    step.Irreversible() ==> forall e :: e in results && IsDegraded(e.1) ==> e.0 == step.Sid()
  }

  ghost predicate Attempted<W>(trace: seq<Call<W>>, step: Step) {
    exists c :: c in trace && IsAttempt(c.role) && c.role.step == step
  }

  /** Some recorded call answered degraded. */
  ghost predicate DegradedSeen<W>(trace: seq<Call<W>>) {
    exists c :: c in trace && Records(c.role) && IsDegraded(c.result)
  }

  /** Attempted, or skipped by the guard: an irreversible step after a degraded answer. */
  ghost predicate Handled<W>(trace: seq<Call<W>>, step: Step) {
    Attempted(trace, step) || (step.Irreversible() && DegradedSeen(trace))
  }

  /** An earlier step has the id, and was handled. */
  ghost predicate Answered<W>(trace: seq<Call<W>>, earlier: seq<Step>, id: string) {
    exists s :: s in earlier && s.Sid() == id && Handled(trace, s)
  }

  ghost predicate DepsAnswered<W>(trace: seq<Call<W>>, steps: seq<Step>, k: nat)
    requires k < |steps|
  {
    forall dep :: dep in steps[k].dependsOn ==> Answered(trace, steps[..k], dep)
  }

  /** Call `j` attempts a plan step whose dependencies were answered before it. */
  ghost predicate AttemptInOrder<W>(trace: seq<Call<W>>, steps: seq<Step>, j: nat)
    requires j < |trace| && IsAttempt(trace[j].role)
  {
    exists k: nat :: k < |steps| && steps[k] == trace[j].role.step && DepsAnswered(trace[..j], steps, k)
  }

  ghost predicate InOrder<W>(trace: seq<Call<W>>, steps: seq<Step>) {
    forall j: nat :: j < |trace| && IsAttempt(trace[j].role) ==> AttemptInOrder(trace, steps, j)
  }

  function Sids(steps: seq<Step>): set<string> {
    set s | s in steps :: s.Sid()
  }

  ghost predicate DistinctIds(steps: seq<Step>) {
    forall i, j :: 0 <= i < j < |steps| ==> steps[i].Sid() != steps[j].Sid()
  }

  // --------------------------------------------------------------- invariant

  /** The results are those of the standing calls, and stay within `done`. */
  ghost predicate Consistent<W>(host: Host<W>, st: State<W>, done: set<string>) {
    && (forall sid :: Recorded(st.results, sid) ==> sid in done)
    && (forall i :: 0 <= i < |st.trace| && Records(st.trace[i].role) ==> st.trace[i].role.step.Sid() in done)
    && (forall i: nat :: i < |st.trace| && Standing(st.trace, i, |st.trace|) ==>
          Holds(st.results, st.trace[i].role.step.Sid(), RecordOf(host, st.trace[i])))
  }

  /** `t1` adds to `t` only calls that record nothing. */
  ghost predicate Quiet<W>(t: seq<Call<W>>, t1: seq<Call<W>>) {
    t <= t1 && forall k :: |t| <= k < |t1| ==> !Records(t1[k].role)
  }

  lemma {:induction false} PutHolds(results: Results, sid: string, r: Dict)
    ensures var after := Put(results, sid, r);
            && Holds(after, sid, r)
            && (forall s, x :: s != sid ==> (Holds(after, s, x) <==> Holds(results, s, x)))
            && (forall s :: Recorded(after, s) <==> s == sid || Recorded(results, s))
    decreases |results|
  {
    var after := Put(results, sid, r);
    if results == [] {
      assert after == [(sid, r)];
      assert after[0].0 == sid;
    } else if results[0].0 == sid {
      assert after == [(sid, r)] + results[1..];
      assert after[0].0 == sid;
      forall s | s != sid
        ensures Recorded(after, s) <==> Recorded(results, s)
      {
        assert forall i :: 1 <= i < |results| ==> after[i] == results[i];
      }
      assert forall s, x :: s != sid ==> (Holds(results, s, x) <==> Holds(results[1..], s, x));
    } else {
      PutHolds(results[1..], sid, r);
      var tail := Put(results[1..], sid, r);
      assert after == [results[0]] + tail && results == [results[0]] + results[1..];
      forall s, x | s != sid ensures Holds(after, s, x) <==> Holds(results, s, x) {
        assert Holds(tail, s, x) <==> Holds(results[1..], s, x);
      }
      forall s ensures Recorded(after, s) <==> s == results[0].0 || Recorded(tail, s) {
        RecordedCons(results[0], tail, s);
      }
      forall s ensures Recorded(results, s) <==> s == results[0].0 || Recorded(results[1..], s) {
        RecordedCons(results[0], results[1..], s);
      }
    }
  }

  lemma {:induction false} RecordedCons(x: (string, Dict), rest: Results, s: string)
    ensures Recorded([x] + rest, s) <==> s == x.0 || Recorded(rest, s)
  {
    var all := [x] + rest;
    if Recorded(rest, s) {
      var i :| 0 <= i < |rest| && rest[i].0 == s;
      assert all[i + 1].0 == s;
    }
    if s == x.0 {
      assert all[0].0 == s;
    }
    if Recorded(all, s) && s != x.0 {
      var i :| 0 <= i < |all| && all[i].0 == s;
      assert rest[i - 1].0 == s;
    }
  }

  lemma {:induction false} NoDegradedHeld(results: Results, sid: string, r: Dict)
    requires FirstDegraded(results).None? && Holds(results, sid, r)
    ensures !IsDegraded(r)
    decreases |results|
  {
    if results[0] != (sid, r) {
      NoDegradedHeld(results[1..], sid, r);
    }
  }

  lemma {:induction false} FoldKeepsQuality<W>(host: Host<W>, r: Dict)
    ensures IsDegraded(FoldInnerOk(host, r)) <==> IsDegraded(r)
  {
  }

  lemma {:induction false} QuietKeeps<W>(host: Host<W>, t: seq<Call<W>>, st: State<W>, done: set<string>)
    requires Quiet(t, st.trace) && Consistent(host, st.(trace := t), done)
    ensures Consistent(host, st, done)
    ensures NoIrreversibleOnDegraded(t) ==> NoIrreversibleOnDegraded(st.trace)
  {
    forall i: nat | i < |st.trace| && Standing(st.trace, i, |st.trace|)
      ensures Holds(st.results, st.trace[i].role.step.Sid(), RecordOf(host, st.trace[i]))
    {
      assert Standing(t, i, |t|);
    }
    if NoIrreversibleOnDegraded(t) {
      forall i: nat, j: nat | i < j < |st.trace| && Standing(st.trace, i, j)
        ensures IsDegraded(st.trace[i].result) ==> OwnRetry(st.trace[i], st.trace[j])
      {
        if j < |t| {
          assert Standing(t, i, j);
        }
      }
    }
  }

  /** One more recording call: its result is stored under its id. */
  ghost predicate StoresCall<W>(host: Host<W>, st: State<W>, c: Call<W>, st1: State<W>) {
    && Records(c.role)
    && st1.trace == st.trace + [c]
    && st1.results == Put(st.results, c.role.step.Sid(), RecordOf(host, c))
  }

  lemma {:induction false} StoredConsistent<W>(host: Host<W>, st: State<W>, done: set<string>, c: Call<W>, st1: State<W>)
    requires Consistent(host, st, done) && StoresCall(host, st, c, st1)
    ensures Consistent(host, st1, done + {c.role.step.Sid()})
  {
    hide RecordOf, Put, Holds, Recorded;
    var n, sid := |st.trace|, c.role.step.Sid();
    PutHolds(st.results, sid, RecordOf(host, c));
    assert forall i :: 0 <= i < n ==> st1.trace[i] == st.trace[i];
    assert st1.trace[n] == c;
    forall i: nat | i <= n && Standing(st1.trace, i, n + 1)
      ensures Holds(st1.results, st1.trace[i].role.step.Sid(), RecordOf(host, st1.trace[i]))
    {
      if i < n {
        assert st1.trace[n].role.step.Sid() != st1.trace[i].role.step.Sid();
        assert Standing(st.trace, i, n);
      }
    }
  }

  lemma {:induction false} HeldIsIn(results: Results, sid: string, r: Dict)
    requires Holds(results, sid, r)
    ensures (sid, r) in results
  {
  }

  /** An irreversible step that was let through is cleared for its retry. */
  lemma {:induction false} ClearedForRetry(results: Results, step: Step, r: Dict)
    requires step.Irreversible() ==> FirstDegraded(results).None?
    ensures Cleared(Put(results, step.Sid(), r), step)
  {
    hide IsDegraded, Step.Irreversible;
    PutHolds(results, step.Sid(), r);
    forall e | e in Put(results, step.Sid(), r) && IsDegraded(e.1) && step.Irreversible() ensures e.0 == step.Sid() {
      if e.0 != step.Sid() {
        assert Holds(Put(results, step.Sid(), r), e.0, e.1);
        NoDegradedHeld(results, e.0, e.1);
        assert false;
      }
    }
  }

  lemma {:induction false} RecordingCall<W>(host: Host<W>, st: State<W>, done: set<string>, c: Call<W>, st1: State<W>)
    requires Consistent(host, st, done) && NoIrreversibleOnDegraded(st.trace)
    requires StoresCall(host, st, c, st1)
    requires if c.role.Retry? then Cleared(st.results, c.role.step)
             else c.role.step.Irreversible() ==> FirstDegraded(st.results).None?
    ensures Consistent(host, st1, done + {c.role.step.Sid()}) && NoIrreversibleOnDegraded(st1.trace)
  {
    hide Put, Holds, Recorded, IsDegraded, Step.Irreversible, FirstDegraded, FoldInnerOk;
    StoredConsistent(host, st, done, c, st1);
    var n := |st.trace|;
    assert forall i :: 0 <= i < n ==> st1.trace[i] == st.trace[i];
    forall i: nat, j: nat | i < j <= n && Standing(st1.trace, i, j)
      ensures IsDegraded(st1.trace[i].result) ==> OwnRetry(st1.trace[i], st1.trace[j])
    {
      assert Standing(st.trace, i, j);
      if j == n {
        var sid, r := st.trace[i].role.step.Sid(), RecordOf(host, st.trace[i]);
        FoldKeepsQuality(host, st.trace[i].result);
        assert (sid, r) in st.results by { HeldIsIn(st.results, sid, r); }
        if FirstDegraded(st.results).None? {
          NoDegradedHeld(st.results, sid, r);
        }
      }
    }
  }

  // ------------------------------------------------------------ along the run

  ghost predicate Guarded<W>(host: Host<W>, st: State<W>, done: set<string>) {
    Consistent(host, st, done) && NoIrreversibleOnDegraded(st.trace)
  }

  lemma {:induction false} UndoQuiet<W>(host: Host<W>, st: State<W>, ledger: seq<Inverse>, undone: seq<string>)
    ensures var st1 := Undo(host, st, ledger, undone).0;
            Quiet(st.trace, st1.trace) && st1.results == st.results
    decreases |ledger|
  {
    if ledger != [] {
      var e, rest := ledger[|ledger| - 1], ledger[..|ledger| - 1];
      if e.uri == "" {
        UndoQuiet(host, st, rest, undone);
      } else if IsOk(UndoOne(host, st, e).1) {
        UndoQuiet(host, UndoOne(host, st, e).0, rest, undone + [e.uri]);
      }
    }
  }

  lemma {:induction false} RollbackGuarded<W>(host: Host<W>, st: State<W>, kind: string, error: Value, explicit: bool, done: set<string>)
    requires Guarded(host, st, done)
    ensures Guarded(host, Rollback(host, st, kind, error, explicit).0, done)
  {
    UndoQuiet(host, st, st.ledger, []);
    QuietKeeps(host, st.trace, Undo(host, st, st.ledger, []).0, done);
  }

  lemma {:induction false} RetryGuarded<W>(host: Host<W>, st: State<W>, step: Step, payload: Dict, healed: bool,
                                           precondition: Option<Value>, target: string, done: set<string>)
    requires Guarded(host, st, done) && step.Sid() in done && Cleared(st.results, step)
    ensures Guarded(host, RetryOnce(host, st, step, payload, healed, precondition, target).0, done)
  {
    var (st1, r) := CallAgain(host, st, step, payload, healed, precondition, target);
    RecordingCall(host, st, done, st1.trace[|st.trace|], st1);
    assert done + {step.Sid()} == done;
    RollbackGuarded(host, st1, "failed", Null, false, done);
  }

  lemma {:induction false} FollowGuarded<W>(host: Host<W>, st: State<W>, step: Step, payload: Dict, r: Dict, kind: Value, done: set<string>)
    requires Guarded(host, st, done) && step.Sid() in done && Cleared(st.results, step)
    ensures Guarded(host, FollowIntent(host, st, step, payload, r, kind).0, done)
  {
    if kind == Str("retry") {
      RetryGuarded(host, st, step, payload, Truthy(Get(r, "healed")), None, host.target(step.uri), done);
    } else if kind == Str("acquire") {
      var node, need := AcquireNode(host, step), AcquireNeed(r);
      var (st1, er) := Send(host, st, Ensure(step), EnsureUri(node), Precondition(need));
      QuietKeeps(host, st.trace, st1, done);
      RetryGuarded(host, st1, step, payload, true, Some(need), node, done);
    } else if kind == Str("rollback") {
      RollbackGuarded(host, st, "failed", ErrorDict(r), NextField(r) == Str("rollback"), done);
    }
  }

  lemma {:induction false} AttemptGuarded<W>(host: Host<W>, st: State<W>, step: Step, payload: Dict, done: set<string>)
    requires Guarded(host, st, done)
    requires step.Irreversible() ==> FirstDegraded(st.results).None?
    ensures Guarded(host, Attempt(host, st, step, payload).0, done + {step.Sid()})
  {
    if step.optional {
      var st1 := CallOptional(host, st, step, payload);
      RecordingCall(host, st, done, st1.trace[|st.trace|], st1);
    } else {
      var (st1, r) := CallFirst(host, st, step, payload);
      RecordingCall(host, st, done, st1.trace[|st.trace|], st1);
      ClearedForRetry(st.results, step, r);
      FollowGuarded(host, st1, step, payload, r, NextKind(r), done + {step.Sid()});
    }
  }

  lemma {:induction false} SkipGuarded<W>(host: Host<W>, st: State<W>, step: Step, r: Dict, done: set<string>)
    requires Guarded(host, st, done) && step.Sid() !in done
    ensures Guarded(host, Record(host, st, step, r), done + {step.Sid()})
  {
    PutHolds(st.results, step.Sid(), r);
  }

  lemma {:induction false} StepGuarded<W>(host: Host<W>, st: State<W>, step: Step, done: set<string>)
    requires Guarded(host, st, done) && step.Sid() !in done
    ensures Guarded(host, DispatchStep(host, st, step).0, done + {step.Sid()})
  {
    var degraded := FirstDegraded(st.results);
    if MissingDeps(st.results, step.dependsOn) != [] {
    } else if step.Irreversible() && degraded.Some? {
      SkipGuarded(host, st, step, SkipResult(degraded.value), done);
    } else {
      match host.prepare(step, st.results, st.timeline)
      case None =>
      case Some(payload) => AttemptGuarded(host, st, step, payload, done);
    }
  }

  lemma {:induction false} LoopGuarded<W>(host: Host<W>, st: State<W>, steps: seq<Step>, pos: nat, lim: Limits, done: set<string>)
    requires Guarded(host, st, done) && DistinctIds(steps) && done !! Sids(steps)
    ensures Guarded(host, Loop(host, st, steps, pos, lim).0, done + Sids(steps))
    decreases |steps|
  {
    if steps == [] {
      assert done + Sids(steps) == done;
    } else if Breaker(st, lim, pos).Some? {
    } else {
      var sid := steps[0].Sid();
      assert sid in Sids(steps);
      StepGuarded(host, st.(position := pos), steps[0], done);
      var (st1, outcome) := DispatchStep(host, st.(position := pos), steps[0]);
      assert Sids(steps) == {sid} + Sids(steps[1..]);
      assert sid !in Sids(steps[1..]);
      assert done + Sids(steps) == (done + {sid}) + Sids(steps[1..]);
      if outcome.Continue? {
        LoopGuarded(host, st1, steps[1..], pos + 1, lim, done + {sid});
      }
    }
  }

  /**
   With distinct step ids, for any dispatcher and over the whole run: as long as a
   recorded result stands degraded, no step marked irreversible, by flag or by URI,
   is called.  The one exception is an irreversible step that itself answered
   degraded and asked to be retried.
   */
  lemma {:induction false} IrreversibleNeverOnDegraded<W>(host: Host<W>, w0: W, steps: seq<Step>, execute: bool, lim: Limits)
    requires DistinctIds(steps)
    ensures NoIrreversibleOnDegraded(Drive(host, Fresh(w0), steps, execute, lim).0.trace)
  {
    hide Loop, Rollback, NoIrreversibleOnDegraded;
    LoopGuarded(host, Fresh(w0), steps, 0, lim, {});
    var (st1, end) := Loop(host, Fresh(w0), steps, 0, lim);
    if !end.Ended? && execute {
      var (st2, r) := CallGoal(host, st1);
      var done := {} + Sids(steps);
      QuietKeeps(host, st1.trace, st2, done);
      RollbackGuarded(host, st2, "goal-failed", Null, false, done);
    }
  }

  // ------------------------------------------------------------ dependencies

  /** A degraded result among the recorded ones comes from a call. */
  ghost predicate Sourced<W>(results: Results, trace: seq<Call<W>>) {
    FirstDegraded(results).Some? ==> DegradedSeen(trace)
  }

  lemma {:induction false} PutDegraded(results: Results, sid: string, r: Dict)
    ensures FirstDegraded(Put(results, sid, r)).Some? ==> FirstDegraded(results).Some? || IsDegraded(r)
    decreases |results|
  {
    hide IsDegraded, QualityFields;
    if results == [] {
      assert [(sid, r)][1..] == [];
    } else if results[0].0 == sid {
      assert ([(sid, r)] + results[1..])[1..] == results[1..];
    } else {
      PutDegraded(results[1..], sid, r);
      assert ([results[0]] + Put(results[1..], sid, r))[1..] == Put(results[1..], sid, r);
    }
  }

  lemma {:induction false} SeenGrows<W>(t: seq<Call<W>>, u: seq<Call<W>>)
    requires t <= u && DegradedSeen(t)
    ensures DegradedSeen(u)
  {
    var c :| c in t && Records(c.role) && IsDegraded(c.result);
    assert c in u;
  }

  /** Recording one more answer keeps every degraded result sourced. */
  lemma {:induction false} RecordedSourced<W>(host: Host<W>, results: Results, trace: seq<Call<W>>, c: Call<W>)
    requires Sourced(results, trace) && Records(c.role)
    ensures Sourced(Put(results, c.role.step.Sid(), RecordOf(host, c)), trace + [c])
  {
    PutDegraded(results, c.role.step.Sid(), RecordOf(host, c));
    FoldKeepsQuality(host, c.result);
    hide IsDegraded, FoldInnerOk, Put, FirstDegraded;
    if DegradedSeen(trace) {
      SeenGrows(trace, trace + [c]);
    } else if IsDegraded(c.result) {
      assert c in trace + [c];
    }
  }

  /** What follows an attempt: no further attempt, and records under its own id only. */
  ghost predicate Footprint<W>(st: State<W>, st1: State<W>, step: Step) {
    && st.trace <= st1.trace
    && (forall k :: |st.trace| <= k < |st1.trace| ==> !IsAttempt(st1.trace[k].role))
    && (forall sid :: Recorded(st1.results, sid) ==> Recorded(st.results, sid) || sid == step.Sid())
    && (Sourced(st.results, st.trace) ==> Sourced(st1.results, st1.trace))
  }

  lemma {:induction false} QuietSourced<W>(results: Results, t: seq<Call<W>>, u: seq<Call<W>>)
    requires Sourced(results, t) && t <= u
    ensures Sourced(results, u)
  {
    hide FirstDegraded, DegradedSeen;
    if FirstDegraded(results).Some? {
      SeenGrows(t, u);
    }
  }

  /** Calls that record nothing leave no footprint. */
  lemma {:induction false} QuietFootprint<W>(st: State<W>, st1: State<W>, step: Step)
    requires Quiet(st.trace, st1.trace) && st1.results == st.results
    ensures Footprint(st, st1, step)
  {
    hide Sourced, Recorded;
    if Sourced(st.results, st.trace) {
      QuietSourced(st.results, st.trace, st1.trace);
    }
  }

  lemma {:induction false} FootprintThen<W>(st: State<W>, st1: State<W>, st2: State<W>, step: Step)
    requires Footprint(st, st1, step) && Footprint(st1, st2, step)
    ensures Footprint(st, st2, step)
  {
    hide Sourced, Recorded;
    assert forall k :: |st.trace| <= k < |st1.trace| ==> st2.trace[k] == st1.trace[k];
  }

  lemma {:induction false} RollbackFootprint<W>(host: Host<W>, st: State<W>, step: Step, kind: string, error: Value, explicit: bool)
    ensures Footprint(st, Rollback(host, st, kind, error, explicit).0, step)
  {
    hide Footprint;
    UndoQuiet(host, st, st.ledger, []);
    QuietFootprint(st, Undo(host, st, st.ledger, []).0, step);
  }

  lemma {:induction false} CallAgainFootprint<W>(host: Host<W>, st: State<W>, step: Step, payload: Dict, healed: bool,
                                                 precondition: Option<Value>, target: string)
    ensures Footprint(st, CallAgain(host, st, step, payload, healed, precondition, target).0, step)
  {
    hide FirstDegraded, DegradedSeen, Put, Recorded;
    var (st1, r) := CallAgain(host, st, step, payload, healed, precondition, target);
    PutHolds(st.results, step.Sid(), r);
    if Sourced(st.results, st.trace) {
      RecordedSourced(host, st.results, st.trace, st1.trace[|st.trace|]);
    }
  }

  lemma {:induction false} RetryFootprint<W>(host: Host<W>, st: State<W>, step: Step, payload: Dict, healed: bool,
                                             precondition: Option<Value>, target: string)
    ensures Footprint(st, RetryOnce(host, st, step, payload, healed, precondition, target).0, step)
  {
    hide Footprint, CallAgain, Rollback;
    CallAgainFootprint(host, st, step, payload, healed, precondition, target);
    var st1 := CallAgain(host, st, step, payload, healed, precondition, target).0;
    RollbackFootprint(host, st1, step, "failed", Null, false);
    FootprintThen(st, st1, Rollback(host, st1, "failed", Null, false).0, step);
  }

  lemma {:induction false} AcquireFootprint<W>(host: Host<W>, st: State<W>, step: Step, payload: Dict, r: Dict)
    ensures Footprint(st, Acquire(host, st, step, payload, r).0, step)
  {
    hide Footprint, RetryOnce;
    var node, need := AcquireNode(host, step), AcquireNeed(r);
    var (st1, er) := Send(host, st, Ensure(step), EnsureUri(node), Precondition(need));
    QuietFootprint(st, st1, step);
    if Acquired(er) {
      RetryFootprint(host, st1, step, payload, true, Some(need), node);
      FootprintThen(st, st1, RetryOnce(host, st1, step, payload, true, Some(need), node).0, step);
    } else {
      QuietFootprint(st, Acquire(host, st, step, payload, r).0, step);
    }
  }

  lemma {:induction false} FollowFootprint<W>(host: Host<W>, st: State<W>, step: Step, payload: Dict, r: Dict, kind: Value)
    ensures Footprint(st, FollowIntent(host, st, step, payload, r, kind).0, step)
  {
    hide Footprint, RetryOnce, Acquire, Rollback;
    if kind == Str("retry") {
      RetryFootprint(host, st, step, payload, Truthy(Get(r, "healed")), None, host.target(step.uri));
    } else if kind == Str("acquire") {
      AcquireFootprint(host, st, step, payload, r);
    } else if kind == Str("rollback") {
      RollbackFootprint(host, st, step, "failed", ErrorDict(r), NextField(r) == Str("rollback"));
    } else {
      QuietFootprint(st, st, step);
    }
  }

  /** A turn that attempts its step does so with its first call and never again. */
  ghost predicate AttemptedFirst<W>(st: State<W>, st1: State<W>, step: Step) {
    && st.trace < st1.trace && IsAttempt(st1.trace[|st.trace|].role) && st1.trace[|st.trace|].role.step == step
    && (forall k :: |st.trace| < k < |st1.trace| ==> !IsAttempt(st1.trace[k].role))
    && (forall sid :: Recorded(st1.results, sid) ==> Recorded(st.results, sid) || sid == step.Sid())
    && (Sourced(st.results, st.trace) ==> Sourced(st1.results, st1.trace))
  }

  lemma {:induction false} AttemptThen<W>(st: State<W>, st1: State<W>, st2: State<W>, step: Step)
    requires AttemptedFirst(st, st1, step) && Footprint(st1, st2, step)
    ensures AttemptedFirst(st, st2, step)
  {
    hide Sourced, Recorded;
    assert forall k :: |st.trace| <= k < |st1.trace| ==> st2.trace[k] == st1.trace[k];
  }

  /** The call itself. */
  lemma {:induction false} CallFootprint<W>(host: Host<W>, st: State<W>, step: Step, c: Call<W>, st1: State<W>)
    requires IsAttempt(c.role) && c.role.step == step && StoresCall(host, st, c, st1)
    ensures AttemptedFirst(st, st1, step)
  {
    hide FirstDegraded, DegradedSeen, Put, Recorded, RecordOf;
    PutHolds(st.results, step.Sid(), RecordOf(host, c));
    if Sourced(st.results, st.trace) {
      RecordedSourced(host, st.results, st.trace, c);
    }
  }

  lemma {:induction false} AttemptFootprint<W>(host: Host<W>, st: State<W>, step: Step, payload: Dict)
    ensures AttemptedFirst(st, Attempt(host, st, step, payload).0, step)
  {
    hide FollowIntent, AttemptedFirst, Footprint;
    if step.optional {
      var st1 := CallOptional(host, st, step, payload);
      CallFootprint(host, st, step, st1.trace[|st.trace|], st1);
    } else {
      var (st1, r) := CallFirst(host, st, step, payload);
      CallFootprint(host, st, step, st1.trace[|st.trace|], st1);
      FollowFootprint(host, st1, step, payload, r, NextKind(r));
      AttemptThen(st, st1, FollowIntent(host, st1, step, payload, r, NextKind(r)).0, step);
    }
  }

  lemma {:induction false} NothingMissing(results: Results, deps: seq<string>)
    ensures MissingDeps(results, deps) == [] <==> forall dep :: dep in deps ==> Recorded(results, dep)
    decreases |deps|
  {
    if deps != [] {
      NothingMissing(results, deps[1..]);
      assert deps == [deps[0]] + deps[1..];
    }
  }

  /** Everything recorded was answered by one of the first `pos` steps. */
  ghost predicate AllAnswered<W>(st: State<W>, steps: seq<Step>, pos: nat)
    requires pos <= |steps|
  {
    && Sourced(st.results, st.trace)
    && forall sid :: Recorded(st.results, sid) ==> Answered(st.trace, steps[..pos], sid)
  }

  lemma {:induction false} StaysAnswered<W>(t: seq<Call<W>>, u: seq<Call<W>>, steps: seq<Step>, pos: nat, id: string)
    requires t <= u && pos < |steps| && Answered(t, steps[..pos], id)
    ensures Answered(u, steps[..pos + 1], id)
  {
    assert steps[..pos + 1] == steps[..pos] + [steps[pos]];
    var s :| s in steps[..pos] && s.Sid() == id && Handled(t, s);
    assert Handled(u, s) by {
      if Attempted(t, s) {
        assert forall c :: c in t ==> c in u;
      } else {
        SeenGrows(t, u);
      }
    }
    assert s in steps[..pos + 1];
  }

  lemma {:induction false} SameAttempts<W>(t: seq<Call<W>>, u: seq<Call<W>>, steps: seq<Step>)
    requires InOrder(t, steps) && t <= u && forall k :: |t| <= k < |u| ==> !IsAttempt(u[k].role)
    ensures InOrder(u, steps)
  {
    hide DepsAnswered;
    forall j: nat | j < |u| && IsAttempt(u[j].role) ensures AttemptInOrder(u, steps, j) {
      assert u[j] == t[j] && u[..j] == t[..j];
      assert AttemptInOrder(t, steps, j);
    }
  }

  /** One more attempt, all of whose dependencies are recorded. */
  lemma {:induction false} OneMoreAttempt<W>(st: State<W>, st1: State<W>, steps: seq<Step>, pos: nat)
    requires pos < |steps| && InOrder(st.trace, steps) && AllAnswered(st, steps, pos)
    requires AttemptedFirst(st, st1, steps[pos])
    requires forall dep :: dep in steps[pos].dependsOn ==> Recorded(st.results, dep)
    ensures InOrder(st1.trace, steps) && AllAnswered(st1, steps, pos + 1)
  {
    hide Recorded, Answered, Sourced;
    var n, step := |st.trace|, steps[pos];
    assert st1.trace[..n] == st.trace;
    assert DepsAnswered(st.trace, steps, pos);
    forall j: nat | j < |st1.trace| && IsAttempt(st1.trace[j].role) ensures AttemptInOrder(st1.trace, steps, j) {
      if j < n {
        assert st1.trace[j] == st.trace[j] && st1.trace[..j] == st.trace[..j];
        assert AttemptInOrder(st.trace, steps, j);
      }
    }
    assert steps[..pos + 1] == steps[..pos] + [step];
    assert Attempted(st1.trace, step) by { assert st1.trace[n] in st1.trace; }
    forall sid | Recorded(st1.results, sid) ensures Answered(st1.trace, steps[..pos + 1], sid) {
      if Recorded(st.results, sid) {
        StaysAnswered(st.trace, st1.trace, steps, pos, sid);
      } else {
        NowAnswered(st1.trace, steps[..pos + 1], step);
      }
    }
  }

  lemma {:induction false} NowAnswered<W>(trace: seq<Call<W>>, steps: seq<Step>, step: Step)
    requires step in steps && Handled(trace, step)
    ensures Answered(trace, steps, step.Sid())
  {
  }

  lemma {:induction false} SkipNotDegraded(reason: Value)
    ensures !IsDegraded(SkipResult(reason))
  {
    var r := SkipResult(reason);
    assert Get(r, "result") == Null && Get(r, "degraded") == Null;
  }

  lemma {:induction false} StepInOrder<W>(host: Host<W>, st: State<W>, steps: seq<Step>, pos: nat)
    requires pos < |steps| && InOrder(st.trace, steps) && AllAnswered(st, steps, pos)
    ensures var st1 := DispatchStep(host, st, steps[pos]).0;
            InOrder(st1.trace, steps) && AllAnswered(st1, steps, pos + 1)
  {
    hide Attempt, InOrder, Answered, AttemptedFirst, Recorded, IsDegraded, DegradedSeen;
    var step, payload := steps[pos], host.prepare(steps[pos], st.results, st.timeline);
    var st1 := DispatchStep(host, st, step).0;
    NothingMissing(st.results, step.dependsOn);
    if MissingDeps(st.results, step.dependsOn) != [] {
      Unmoved(st, st1, steps, pos);
    } else if step.Irreversible() && FirstDegraded(st.results).Some? {
      var r := SkipResult(FirstDegraded(st.results).value);
      PutHolds(st.results, step.Sid(), r);
      SkipNotDegraded(FirstDegraded(st.results).value);
      PutDegraded(st.results, step.Sid(), r);
      assert step in steps[..pos + 1] by { assert steps[..pos + 1] == steps[..pos] + [step]; }
      forall sid | Recorded(st1.results, sid) ensures Answered(st1.trace, steps[..pos + 1], sid) {
        if Recorded(st.results, sid) {
          StaysAnswered(st.trace, st1.trace, steps, pos, sid);
        } else {
          NowAnswered(st1.trace, steps[..pos + 1], step);
        }
      }
    } else if payload.Some? {
      AttemptFootprint(host, st, step, payload.value);
      OneMoreAttempt(st, st1, steps, pos);
    } else {
      Unmoved(st, st1, steps, pos);
    }
  }

  lemma {:induction false} Unmoved<W>(st: State<W>, st1: State<W>, steps: seq<Step>, pos: nat)
    requires pos < |steps| && AllAnswered(st, steps, pos) && st1.results == st.results && st1.trace == st.trace
    ensures AllAnswered(st1, steps, pos + 1)
  {
    hide Answered, Recorded, Sourced;
    forall sid | Recorded(st1.results, sid) ensures Answered(st1.trace, steps[..pos + 1], sid) {
      StaysAnswered(st.trace, st1.trace, steps, pos, sid);
    }
  }

  lemma {:induction false} LoopInOrder<W>(host: Host<W>, st: State<W>, steps: seq<Step>, pos: nat, lim: Limits)
    requires pos <= |steps| && InOrder(st.trace, steps) && AllAnswered(st, steps, pos)
    ensures InOrder(Loop(host, st, steps[pos..], pos, lim).0.trace, steps)
    decreases |steps| - pos
  {
    if pos < |steps| && Breaker(st, lim, pos).None? {
      hide InOrder, Answered, Recorded, DispatchStep, Breaker;
      StepInOrder(host, st.(position := pos), steps, pos);
      var (st1, outcome) := DispatchStep(host, st.(position := pos), steps[pos]);
      assert steps[pos..][1..] == steps[pos + 1..];
      if outcome.Continue? {
        LoopInOrder(host, st1, steps, pos + 1, lim);
      }
    }
  }

  /**
   Over the whole run, a step is attempted only after an earlier plan step of every id
   it depends on was attempted, or was irreversible with a degraded answer on record.
   */
  lemma {:induction false} DependenciesFirst<W>(host: Host<W>, w0: W, steps: seq<Step>, execute: bool, lim: Limits)
    ensures InOrder(Drive(host, Fresh(w0), steps, execute, lim).0.trace, steps)
  {
    hide InOrder, Loop;
    assert InOrder(Fresh(w0).trace, steps) by { NoAttemptYet(host, w0, steps); }
    LoopInOrder(host, Fresh(w0), steps, 0, lim);
    assert steps[0..] == steps;
    var (st1, end) := Loop(host, Fresh(w0), steps, 0, lim);
    if !end.Ended? && execute {
      var (st2, r) := CallGoal(host, st1);
      UndoQuiet(host, st2, st2.ledger, []);
      SameAttempts(st1.trace, Drive(host, Fresh(w0), steps, execute, lim).0.trace, steps);
    }
  }

  lemma {:induction false} NoAttemptYet<W>(host: Host<W>, w0: W, steps: seq<Step>)
    ensures InOrder(Fresh(w0).trace, steps)
  {
  }
}
