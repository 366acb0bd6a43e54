/**
 The saga guarantee of the thin driver: a rollback that runs to its end restores
 the initial world, and a stuck one leaves exactly the checkpoint it reached.

 What connectors must keep is stated on the calls the run really made.
 */
module ThinSaga {
  import opened Text
  import opened Json
  import opened ThinModel

  // ------------------------------------------------ the ledger, from the trace

  /** The inverse a call is owed: only a first, non-optional attempt that succeeded has one. */
  function Owed<W>(host: Host<W>, c: Call<W>): seq<Inverse> {
    if c.role.First? then LedgerDelta(c.uri, FoldInnerOk(host, c.result)) else []
  }

  /** The inverses owed by a trace, in call order. */
  function OwedBy<W>(host: Host<W>, trace: seq<Call<W>>): seq<Inverse> {
    if trace == [] then []
    else OwedBy(host, trace[..|trace| - 1]) + Owed(host, trace[|trace| - 1])
  }

  /** The initial world, and the world after each call that owes an inverse. */
  function Checkpoints<W>(host: Host<W>, w0: W, trace: seq<Call<W>>): (marks: seq<W>)
    ensures |marks| == 1 + |OwedBy(host, trace)|
  {
    if trace == [] then [w0]
    else
      Checkpoints(host, w0, trace[..|trace| - 1]) +
      (if Owed(host, trace[|trace| - 1]) == [] then [] else [trace[|trace| - 1].after])
  }

  // -------------------------------------------------- what connectors promise

  /** Dispatching `inv` in `w` returns to `back`, or fails and changes nothing. */
  ghost predicate Undoes<W>(host: Host<W>, w: W, inv: Inverse, back: W) {
    var (w', r) := host.dispatch(w, inv.uri, Args(inv.args));
    w' == if IsOk(r) then back else w
  }

  /**
   A call keeps the compensation discipline when it owes an inverse that undoes
   it, or owes none and changes nothing.  Inverse calls are bound by `Undoes`.
   */
  ghost predicate Disciplined<W>(host: Host<W>, c: Call<W>) {
    if c.role.Undoing? then true
    else if Owed(host, c) == [] then c.after == c.before
    else Undoes(host, c.after, Owed(host, c)[0], c.before)
  }

  ghost predicate AllDisciplined<W>(host: Host<W>, trace: seq<Call<W>>) {
    forall c :: c in trace ==> Disciplined(host, c)
  }

  /** Every ledger entry undoes the step from one checkpoint to the next. */
  ghost predicate Ladder<W>(host: Host<W>, ledger: seq<Inverse>, marks: seq<W>) {
    && |marks| == |ledger| + 1
    && forall i :: 0 <= i < |ledger| ==>
         ledger[i].uri != "" && Undoes(host, marks[i + 1], ledger[i], marks[i])
  }

  function Uris(ledger: seq<Inverse>): seq<string> {
    seq(|ledger|, i requires 0 <= i < |ledger| => ledger[i].uri)
  }

  function Reversed<T>(s: seq<T>): seq<T> {
    seq(|s|, i requires 0 <= i < |s| => s[|s| - 1 - i])
  }

  // ------------------------------------------------------- before a rollback

  /** If every call kept the discipline, the ledger is a ladder with the world on top. */
  ghost predicate OnTop<W>(host: Host<W>, w0: W, trace: seq<Call<W>>, w: W) {
    AllDisciplined(host, trace) ==>
      var marks := Checkpoints(host, w0, trace);
      Ladder(host, OwedBy(host, trace), marks) && w == marks[|marks| - 1]
  }

  /** What holds while the run goes forward; in particular the ledger is what the trace owes. */
  ghost predicate Forward<W>(host: Host<W>, w0: W, st: State<W>) {
    st.ledger == OwedBy(host, st.trace) && OnTop(host, w0, st.trace, st.world)
  }

  /** How a rollback left the world, in terms of what was owed. */
  ghost predicate Unwound<W>(owed: seq<Inverse>, marks: seq<W>, w: W, unwind: Unwind)
    requires |marks| == |owed| + 1
  {
    match unwind
    case Undone(uris) => uris == Reversed(Uris(owed)) && w == marks[0]
    case Stuck(uris, at, _) =>
      |uris| < |owed| &&
      var k := |owed| - |uris|;
      uris == Reversed(Uris(owed[k..])) && at == owed[k - 1].uri && w == marks[k]
  }

  /** What a finished run looks like, by how it ended. */
  ghost predicate Settled<W>(host: Host<W>, w0: W, st: State<W>, v: Verdict) {
    AllDisciplined(host, st.trace) ==>
      var owed := OwedBy(host, st.trace);
      var marks := Checkpoints(host, w0, st.trace);
      && marks[0] == w0
      && if !v.RolledBack? then st.world == marks[|owed|]
         else if v.rollback.None? then owed == [] && st.world == w0
         else Unwound(owed, marks, st.world, v.rollback.value)
  }

  lemma {:induction false} TraceGrows<W>(host: Host<W>, w0: W, trace: seq<Call<W>>, c: Call<W>)
    ensures OwedBy(host, trace + [c]) == OwedBy(host, trace) + Owed(host, c)
    ensures Checkpoints(host, w0, trace + [c]) ==
            Checkpoints(host, w0, trace) + (if Owed(host, c) == [] then [] else [c.after])
    ensures AllDisciplined(host, trace + [c]) <==> AllDisciplined(host, trace) && Disciplined(host, c)
  {
    assert (trace + [c])[..|trace|] == trace;
    assert forall d :: d in trace + [c] <==> d in trace || d == c;
  }

  lemma {:induction false} RungAdded<W>(host: Host<W>, ledger: seq<Inverse>, marks: seq<W>, inv: Inverse, top: W)
    requires Ladder(host, ledger, marks) && inv.uri != "" && Undoes(host, top, inv, marks[|ledger|])
    ensures Ladder(host, ledger + [inv], marks + [top])
  {
    hide Undoes;
  }

  lemma {:induction false} CallKeepsOnTop<W>(host: Host<W>, w0: W, trace: seq<Call<W>>, c: Call<W>)
    requires OnTop(host, w0, trace, c.before) && !c.role.Undoing?
    ensures OnTop(host, w0, trace + [c], c.after)
  {
    hide Owed, OwedBy, Checkpoints, Undoes, Ladder, AllDisciplined;
    TraceGrows(host, w0, trace, c);
    OwedOnce(host, c);
    if AllDisciplined(host, trace + [c]) {
      if Owed(host, c) == [] {
        assert OwedBy(host, trace) + [] == OwedBy(host, trace);
        assert Checkpoints(host, w0, trace) + [] == Checkpoints(host, w0, trace);
      } else {
        assert Ladder(host, OwedBy(host, trace), Checkpoints(host, w0, trace));
        RungAdded(host, OwedBy(host, trace), Checkpoints(host, w0, trace), Owed(host, c)[0], c.after);
      }
    }
  }

  lemma {:induction false} OwedOnce<W>(host: Host<W>, c: Call<W>)
    ensures Owed(host, c) != [] ==> Owed(host, c) == [Owed(host, c)[0]] && Owed(host, c)[0].uri != ""
  {
  }

  lemma {:induction false} SendKeeps<W>(host: Host<W>, w0: W, st: State<W>, role: Role, uri: string, payload: Payload)
    requires !role.Undoing? && Forward(host, w0, st)
    ensures var (st1, r) := Send(host, st, role, uri, payload);
            && OnTop(host, w0, st1.trace, st1.world)
            && OwedBy(host, st1.trace) ==
                 st.ledger + if role.First? then LedgerDelta(uri, FoldInnerOk(host, r)) else []
  {
    var (w, r) := host.dispatch(st.world, uri, payload);
    var c := Call(role, uri, payload, st.world, w, r);
    CallKeepsOnTop(host, w0, st.trace, c);
    TraceGrows(host, w0, st.trace, c);
  }

  // -------------------------------------------------------------- a rollback

  lemma {:induction false} OneRungDown(ledger: seq<Inverse>, n: nat)
    requires |ledger| == n + 1
    ensures Reversed(Uris(ledger)) == [ledger[n].uri] + Reversed(Uris(ledger[..n]))
  {
  }

  /** Unwinding the ladder below the top rung, then counting the top rung in. */
  lemma {:induction false} UnwoundFromBelow<W>(ledger: seq<Inverse>, n: nat, marks: seq<W>, w: W, below: Unwind, all: Unwind)
    requires |ledger| == n + 1 && |marks| == n + 2
    requires Unwound(ledger[..n], marks[..n + 1], w, below)
    requires all == below.(uris := [ledger[n].uri] + below.uris)
    ensures Unwound(ledger, marks, w, all)
  {
    if below.Stuck? {
      var k := n - |below.uris|;
      assert ledger[k..][..n - k] == ledger[..n][k..];
      OneRungDown(ledger[k..], n - k);
    } else {
      OneRungDown(ledger, n);
    }
  }

  /** The list of undone URIs is only carried along. */
  lemma {:induction false} UndoCarries<W>(host: Host<W>, st: State<W>, ledger: seq<Inverse>, undone: seq<string>)
    ensures var (st1, u1) := Undo(host, st, ledger, undone);
            var (st2, u2) := Undo(host, st, ledger, []);
            st1 == st2 && u1 == u2.(uris := undone + u2.uris)
    decreases |ledger|
  {
    if ledger == [] {
    } else {
      var e, rest := ledger[|ledger| - 1], ledger[..|ledger| - 1];
      if e.uri == "" {
        UndoCarries(host, st, rest, undone);
      } else {
        var (st1, rb) := UndoOne(host, st, e);
        if IsOk(rb) {
          UndoCarries(host, st1, rest, undone + [e.uri]);
          UndoCarries(host, st1, rest, [] + [e.uri]);
          var u := Undo(host, st1, rest, []).1.uris;
          assert undone + [e.uri] + u == undone + ([] + [e.uri] + u);
        }
      }
    }
  }

  /** Undoing a ladder from its top reaches the bottom, or stops on a rung. */
  lemma {:induction false} UndoLadder<W>(host: Host<W>, st: State<W>, ledger: seq<Inverse>, marks: seq<W>)
    requires Ladder(host, ledger, marks) && st.world == marks[|ledger|]
    ensures var (st1, unwind) := Undo(host, st, ledger, []);
            Unwound(ledger, marks, st1.world, unwind)
    decreases |ledger|
  {
    if ledger == [] {
    } else {
      var n := |ledger| - 1;
      var e, rest := ledger[n], ledger[..n];
      TopRung(host, st, ledger, marks);
      var (st1, rb) := UndoOne(host, st, e);
      if IsOk(rb) {
        UndoLadder(host, st1, rest, marks[..n + 1]);
        UndoCarries(host, st1, rest, [e.uri]);
        var (st2, below) := Undo(host, st1, rest, []);
        UnwoundFromBelow(ledger, n, marks, st2.world, below, below.(uris := [e.uri] + below.uris));
        assert [] + [e.uri] == [e.uri];
      } else {
        assert Reversed(Uris(ledger[n + 1..])) == [];
      }
    }
  }

  lemma {:induction false} TopRung<W>(host: Host<W>, st: State<W>, ledger: seq<Inverse>, marks: seq<W>)
    requires ledger != [] && Ladder(host, ledger, marks) && st.world == marks[|ledger|]
    ensures var n := |ledger| - 1;
            var (st1, rb) := UndoOne(host, st, ledger[n]);
            && ledger[n].uri != ""
            && st1.world == (if IsOk(rb) then marks[n] else marks[n + 1])
            && Ladder(host, ledger[..n], marks[..n + 1])
  {
    assert Undoes(host, marks[|ledger|], ledger[|ledger| - 1], marks[|ledger| - 1]);
  }

  /** Inverse calls owe nothing, so a rollback leaves the accounts as they were. */
  lemma {:induction false} UndoOwesNothing<W>(host: Host<W>, w0: W, st: State<W>, ledger: seq<Inverse>, undone: seq<string>)
    ensures var st1 := Undo(host, st, ledger, undone).0;
            && OwedBy(host, st1.trace) == OwedBy(host, st.trace)
            && Checkpoints(host, w0, st1.trace) == Checkpoints(host, w0, st.trace)
            && (AllDisciplined(host, st1.trace) <==> AllDisciplined(host, st.trace))
    decreases |ledger|
  {
    if ledger != [] {
      var e, rest := ledger[|ledger| - 1], ledger[..|ledger| - 1];
      if e.uri == "" {
        UndoOwesNothing(host, w0, st, rest, undone);
      } else {
        var (st1, rb) := UndoOne(host, st, e);
        TraceGrows(host, w0, st.trace, st1.trace[|st.trace|]);
        if IsOk(rb) {
          UndoOwesNothing(host, w0, st1, rest, undone + [e.uri]);
        }
      }
    }
  }

  lemma {:induction false} CheckpointsStart<W>(host: Host<W>, w0: W, trace: seq<Call<W>>)
    ensures Checkpoints(host, w0, trace)[0] == w0
    decreases |trace|
  {
    if trace != [] {
      CheckpointsStart(host, w0, trace[..|trace| - 1]);
    }
  }

  lemma {:induction false} RollbackSettles<W>(host: Host<W>, w0: W, st: State<W>, kind: string, error: Value, explicit: bool)
    requires Forward(host, w0, st)
    ensures var (st1, v) := Rollback(host, st, kind, error, explicit);
            Settled(host, w0, st1, v)
  {
    UndoOwesNothing(host, w0, st, st.ledger, []);
    CheckpointsStart(host, w0, st.trace);
    if AllDisciplined(host, st.trace) {
      UndoLadder(host, st, st.ledger, Checkpoints(host, w0, st.trace));
      if st.ledger != [] {
        assert st.ledger[0] in st.ledger;
      }
    }
  }

  // --------------------------------------------------------------- whole run

  ghost predicate Kept<W>(host: Host<W>, w0: W, st: State<W>, outcome: Outcome) {
    if outcome.Return? then Settled(host, w0, st, outcome.verdict) else Forward(host, w0, st)
  }

  /** A run stopped without a rollback stands on the last checkpoint. */
  lemma {:induction false} StoppedSettles<W>(host: Host<W>, w0: W, st: State<W>, v: Verdict)
    requires Forward(host, w0, st) && !v.RolledBack?
    ensures Settled(host, w0, st, v)
  {
    CheckpointsStart(host, w0, st.trace);
  }

  lemma {:induction false} RetryKeeps<W>(host: Host<W>, w0: W, st: State<W>, step: Step, payload: Dict, healed: bool,
                                         precondition: Option<Value>, target: string)
    requires Forward(host, w0, st)
    ensures var (st1, outcome) := RetryOnce(host, st, step, payload, healed, precondition, target);
            Kept(host, w0, st1, outcome)
  {
    hide Settled, Rollback, NextKind, Put, OnTop;
    var st0 := st.(retries := st.retries + 1,
                   remediations := st.remediations + (if healed then 1 else 0));
    SendKeeps(host, w0, st0, Retry(step), step.uri, Args(payload));
    var st1 := CallAgain(host, st, step, payload, healed, precondition, target).0;
    RollbackSettles(host, w0, st1, "failed", Null, false);
  }

  lemma {:induction false} FollowKeeps<W>(host: Host<W>, w0: W, st: State<W>, step: Step, payload: Dict, r: Dict, kind: Value)
    requires Forward(host, w0, st)
    ensures var (st1, outcome) := FollowIntent(host, st, step, payload, r, kind);
            Kept(host, w0, st1, outcome)
  {
    if kind == Str("retry") {
      RetryKeeps(host, w0, st, step, payload, Truthy(Get(r, "healed")), None, host.target(step.uri));
    } else if kind == Str("acquire") {
      AcquireKeeps(host, w0, st, step, payload, r);
    } else if kind == Str("rollback") {
      RollbackSettles(host, w0, st, "failed", ErrorDict(r), NextField(r) == Str("rollback"));
    }
  }

  lemma {:induction false} AcquireKeeps<W>(host: Host<W>, w0: W, st: State<W>, step: Step, payload: Dict, r: Dict)
    requires Forward(host, w0, st)
    ensures var (st1, outcome) := Acquire(host, st, step, payload, r);
            Kept(host, w0, st1, outcome)
  {
    var node, need := AcquireNode(host, step), AcquireNeed(r);
    SendKeeps(host, w0, st, Ensure(step), EnsureUri(node), Precondition(need));
    var (st1, er) := Send(host, st, Ensure(step), EnsureUri(node), Precondition(need));
    if Acquired(er) {
      RetryKeeps(host, w0, st1, step, payload, true, Some(need), node);
    } else {
      var (st2, outcome) := Acquire(host, st, step, payload, r);
      StoppedSettles(host, w0, st2, outcome.verdict);
    }
  }

  lemma {:induction false} FirstKeeps<W>(host: Host<W>, w0: W, st: State<W>, step: Step, payload: Dict)
    requires Forward(host, w0, st)
    ensures Forward(host, w0, CallFirst(host, st, step, payload).0)
  {
    var st0 := st.(events := st.events + [Sent(step.uri, st.position)]);
    SendKeeps(host, w0, st0, First(step), step.uri, Args(payload));
  }

  lemma {:induction false} OptionalKeeps<W>(host: Host<W>, w0: W, st: State<W>, step: Step, payload: Dict)
    requires Forward(host, w0, st)
    ensures Forward(host, w0, CallOptional(host, st, step, payload))
  {
    var st0 := st.(events := st.events + [Sent(step.uri, st.position)]);
    SendKeeps(host, w0, st0, Optional(step), step.uri, Args(payload));
  }

  lemma {:induction false} AttemptKeeps<W>(host: Host<W>, w0: W, st: State<W>, step: Step, payload: Dict)
    requires Forward(host, w0, st)
    ensures var (st1, outcome) := Attempt(host, st, step, payload);
            Kept(host, w0, st1, outcome)
  {
    if step.optional {
      OptionalKeeps(host, w0, st, step, payload);
    } else {
      FirstKeeps(host, w0, st, step, payload);
      var (st1, r) := CallFirst(host, st, step, payload);
      if NextKind(r) != Str("continue") {
        FollowKeeps(host, w0, st1, step, payload, r, NextKind(r));
      } else if !IsOk(r) {
        StoppedSettles(host, w0, st1, ActionFailed(StepError(step.uri, r)));
      }
    }
  }

  lemma {:induction false} StepKeeps<W>(host: Host<W>, w0: W, st: State<W>, step: Step)
    requires Forward(host, w0, st)
    ensures var (st1, outcome) := DispatchStep(host, st, step);
            Kept(host, w0, st1, outcome)
  {
    var missing := MissingDeps(st.results, step.dependsOn);
    var (st1, outcome) := DispatchStep(host, st, step);
    if missing != [] {
      StoppedSettles(host, w0, st1, MissingDependencies(step.Sid(), missing));
    } else if step.Irreversible() && FirstDegraded(st.results).Some? {
    } else {
      match host.prepare(step, st.results, st.timeline)
      case None => StoppedSettles(host, w0, st, Raised);
      case Some(payload) => AttemptKeeps(host, w0, st, step, payload);
    }
  }

  lemma {:induction false} LoopKeeps<W>(host: Host<W>, w0: W, st: State<W>, steps: seq<Step>, pos: nat, lim: Limits)
    requires Forward(host, w0, st)
    ensures var (st1, end) := Loop(host, st, steps, pos, lim);
            if end.Ended? then Settled(host, w0, st1, end.verdict) else Forward(host, w0, st1)
    decreases |steps|
  {
    if steps == [] {
    } else if Breaker(st, lim, pos).Some? {
      StoppedSettles(host, w0, st, CircuitBroken(Breaker(st, lim, pos).value));
    } else {
      StepKeeps(host, w0, st.(position := pos), steps[0]);
      var (st1, outcome) := DispatchStep(host, st.(position := pos), steps[0]);
      if outcome.Continue? {
        LoopKeeps(host, w0, st1, steps[1..], pos + 1, lim);
      }
    }
  }

  lemma {:induction false} CloseSettles<W>(host: Host<W>, w0: W, st: State<W>, execute: bool)
    requires Forward(host, w0, st)
    ensures var (st1, v) := Close(host, st, execute);
            Settled(host, w0, st1, v)
  {
    var (st1, v) := Close(host, st, execute);
    if execute {
      var st0 := st.(events := st.events + [Sent(GOAL_URI, st.position)]);
      SendKeeps(host, w0, st0, Goal, GOAL_URI, GoalCheck(host.goal, st.results));
      var (st2, r) := CallGoal(host, st);
      if !IsOk(r) {
        RollbackSettles(host, w0, st2, "goal-failed", Null, false);
      }
    }
    if v.Finished? {
      StoppedSettles(host, w0, st1, v);
    }
  }

  /**
   Saga correctness of a whole run.  If every call of the run kept the discipline:
   a rollback reported complete has restored the initial world and undone every
   inverse owed, in reverse; a stuck one stands on the checkpoint whose inverse
   failed; any other ending, stops without rollback included, stands on the last
   checkpoint.
   */
  lemma {:induction false} SagaCorrect<W>(host: Host<W>, w0: W, steps: seq<Step>, execute: bool, lim: Limits)
    ensures var (st, v) := Drive(host, Fresh(w0), steps, execute, lim);
            Settled(host, w0, st, v)
  {
    LoopKeeps(host, w0, Fresh(w0), steps, 0, lim);
    var (st1, end) := Loop(host, Fresh(w0), steps, 0, lim);
    if !end.Ended? {
      CloseSettles(host, w0, st1, execute);
    }
  }

  // ------------------------------------------ the discipline is really needed

  function Answer(next: string, inverse: bool): Dict {
    map["ok" := Bool(true), "next" := Obj(map["kind" := Str(next)])] +
    (if inverse then map["inverse" := Obj(map["uri" := Str("doc://n/undo")])] else map[])
  }

  /**
   A document counting its edits.  The first attempt edits it, returns an inverse
   and asks for a retry; the retry edits it again and returns an inverse too.
   */
  function EditTwice(w: int, uri: string, payload: Payload): (int, Dict) {
    if uri == "doc://n/edit" then (w + 1, Answer(if w == 0 then "retry" else "continue", true))
    else if uri == "doc://n/undo" then (w - 1, Answer("continue", false))
    else (w, map["ok" := Bool(false)])
  }

  const EDIT := Step("edit", "doc://n/edit", map[], [], false, None)

  const EDITOR: Host<int> := Host(EditTwice, (step, results, timeline) => Some(map[]), uri => "n", text => None, map[])

  const UNDO_EDIT := Inverse("doc://n/edit", "doc://n/undo", map[], "", "")

  lemma {:induction false} FirstEdit()
    ensures var (st1, r) := CallFirst(EDITOR, Fresh(0), EDIT, map[]);
            && st1.ledger == [UNDO_EDIT] && st1.world == 1 && r == Answer("retry", true)
            && st1.retries == 0 && st1.remediations == 0
            && |st1.trace| == 1 && st1.trace[0].role == First(EDIT) && Disciplined(EDITOR, st1.trace[0])
  {
    var r := Answer("retry", true);
    assert Get(r, "result") == Null && ActionOk(EDITOR, r);
    assert LedgerDelta(EDIT.uri, r) == [UNDO_EDIT];
  }

  lemma {:induction false} SecondEdit(st: State<int>)
    requires st.world == 1 && st.ledger == [UNDO_EDIT]
    ensures var (st1, outcome) := RetryOnce(EDITOR, st, EDIT, map[], false, None, "n");
            && outcome == Continue && st1.ledger == [UNDO_EDIT] && st1.world == 2
            && |st1.trace| == |st.trace| + 1 && st1.trace[..|st.trace|] == st.trace
            && st1.trace[|st.trace|].role.Retry? && !Disciplined(EDITOR, st1.trace[|st.trace|])
  {
    assert NextKind(Answer("continue", true)) == Str("continue");
  }

  lemma {:induction false} GoalCalled(st: State<int>)
    ensures var (st1, r) := CallGoal(EDITOR, st);
            && !IsOk(r) && st1.world == st.world && st1.ledger == st.ledger
            && |st1.trace| == |st.trace| + 1 && st1.trace[..|st.trace|] == st.trace
            && st1.trace[|st.trace|].role.Goal? && Disciplined(EDITOR, st1.trace[|st.trace|])
  {
  }

  lemma {:induction false} EditUndone(st: State<int>)
    ensures var (st1, r) := UndoOne(EDITOR, st, UNDO_EDIT);
            && IsOk(r) && st1.world == st.world - 1
            && |st1.trace| == |st.trace| + 1 && st1.trace[..|st.trace|] == st.trace
            && st1.trace[|st.trace|].role.Undoing? && Disciplined(EDITOR, st1.trace[|st.trace|])
  {
  }

  lemma {:induction false} GoalFails(st: State<int>)
    requires st.world == 2 && st.ledger == [UNDO_EDIT]
    ensures var (st1, v) := Close(EDITOR, st, true);
            && v.RolledBack? && v.rollback == Some(Undone(["doc://n/undo"])) && st1.world == 1
            && |st1.trace| == |st.trace| + 2 && st1.trace[..|st.trace|] == st.trace
            && st1.trace[|st.trace|].role.Goal? && Disciplined(EDITOR, st1.trace[|st.trace|])
            && st1.trace[|st.trace| + 1].role.Undoing? && Disciplined(EDITOR, st1.trace[|st.trace| + 1])
  {
    hide CallGoal, UndoOne, Disciplined, IsOk;
    GoalCalled(st);
    var st1 := CallGoal(EDITOR, st).0;
    EditUndone(st1);
    var st2 := UndoOne(EDITOR, st1, UNDO_EDIT).0;
    assert [UNDO_EDIT][..0] == [] && [] + [UNDO_EDIT.uri] == [UNDO_EDIT.uri];
    assert Undo(EDITOR, st1, [UNDO_EDIT], []) == (st2, Undone([UNDO_EDIT.uri]));
    assert HasInverses(st1.ledger) by { assert UNDO_EDIT in st1.ledger; }
    assert st2.trace[|st.trace|] == st2.trace[..|st1.trace|][|st.trace|];
    assert st2.trace[..|st.trace|] == st2.trace[..|st1.trace|][..|st.trace|];
  }

  lemma {:induction false} BothEdits()
    ensures var (st, outcome) := Attempt(EDITOR, Fresh(0), EDIT, map[]);
            && outcome == Continue && st.ledger == [UNDO_EDIT] && st.world == 2 && |st.trace| == 2
            && Disciplined(EDITOR, st.trace[0]) && !st.trace[0].role.Retry?
            && !Disciplined(EDITOR, st.trace[1]) && st.trace[1].role.Retry?
  {
    hide CallFirst, RetryOnce, Disciplined;
    FirstEdit();
    var (st1, r) := CallFirst(EDITOR, Fresh(0), EDIT, map[]);
    assert NextKind(r) == Str("retry") && !Truthy(Get(r, "healed"));
    SecondEdit(st1);
    var (st2, outcome) := RetryOnce(EDITOR, st1, EDIT, map[], false, None, "n");
    assert st2.trace[0] == st2.trace[..1][0];
  }

  lemma {:induction false} EditLoop(lim: Limits)
    requires lim.maxRetries >= 0 && lim.maxRemediations >= 0 && !lim.late(0)
    ensures Loop(EDITOR, Fresh(0), [EDIT], 0, lim) == (Attempt(EDITOR, Fresh(0), EDIT, map[]).0, FellThrough)
  {
    NoSuffix();
    BothEdits();
    var st: State<int> := Fresh(0);
    assert st.(position := 0) == st;
    assert DispatchStep(EDITOR, st, EDIT) == Attempt(EDITOR, st, EDIT, map[]);
    assert [EDIT][1..] == [];
  }

  /**
   An inverse returned by a retry never enters the ledger: the run below reports a
   complete rollback although the retry's edit is still there.  Only its retry
   breaks the discipline.
   */
  lemma {:induction false} RetryEscapesRollback(lim: Limits)
    requires lim.maxRetries >= 0 && lim.maxRemediations >= 0 && !lim.late(0)
    ensures var (st, v) := Drive(EDITOR, Fresh(0), [EDIT], true, lim);
            && v.RolledBack? && v.rollback == Some(Undone(["doc://n/undo"]))
            && st.world == 1
            && forall c :: c in st.trace ==> (Disciplined(EDITOR, c) <==> !c.role.Retry?)
  {
    hide Loop, Close, Attempt, Disciplined;
    EditLoop(lim);
    BothEdits();
    var st := Attempt(EDITOR, Fresh(0), EDIT, map[]).0;
    GoalFails(st);
    var st1 := Close(EDITOR, st, true).0;
    assert st1.trace == st.trace + st1.trace[2..] == [st.trace[0], st.trace[1], st1.trace[2], st1.trace[3]];
  }

  lemma {:induction false} NoSuffix()
    ensures !EDIT.Irreversible()
  {
    forall suffix | suffix in IRREVERSIBLE_SUFFIXES
      ensures !Contains(EDIT.uri, suffix)
    {
      assert |suffix| > |EDIT.uri|;
    }
  }
}
