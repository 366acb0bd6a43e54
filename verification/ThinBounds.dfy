/**
 Every run of the thin driver is bounded, whatever the dispatcher answers.
 */
module ThinBounds {
  import opened Text
  import opened Json
  import opened ThinModel

  function Max(a: int, b: int): int { if a < b then b else a }

  /** The calls made since `st` and the inverses gained, for one piece of the run. */
  ghost predicate Within<W>(st: State<W>, st1: State<W>, calls: nat, inverses: nat) {
    && |st.trace| <= |st1.trace| <= |st.trace| + calls
    && |st.ledger| <= |st1.ledger| <= |st.ledger| + inverses
  }

  /** Counters only grow, by at most one retry and one remediation. */
  ghost predicate CountedOnce<W>(st: State<W>, st1: State<W>) {
    && st.retries <= st1.retries <= st.retries + 1
    && st.remediations <= st1.remediations <= st.remediations + 1
  }

  lemma {:induction false} UndoBound<W>(host: Host<W>, st: State<W>, ledger: seq<Inverse>, undone: seq<string>)
    ensures var st1 := Undo(host, st, ledger, undone).0;
            && Within(st, st1, |ledger|, 0) && st1.ledger == st.ledger
            && st1.retries == st.retries && st1.remediations == st.remediations
    decreases |ledger|
  {
    if ledger != [] {
      var e, rest := ledger[|ledger| - 1], ledger[..|ledger| - 1];
      if e.uri == "" {
        UndoBound(host, st, rest, undone);
      } else if IsOk(UndoOne(host, st, e).1) {
        UndoBound(host, UndoOne(host, st, e).0, rest, undone + [e.uri]);
      }
    }
  }

  /** After `calls` calls a piece may end in a rollback of the ledger it has by then. */
  ghost predicate PieceBound<W>(st: State<W>, st1: State<W>, outcome: Outcome, calls: nat, inverses: nat) {
    && Within(st, st1, calls + if outcome.Return? then |st.ledger| + inverses else 0, inverses)
    && CountedOnce(st, st1)
  }

  lemma {:induction false} RetryBound<W>(host: Host<W>, st: State<W>, step: Step, payload: Dict, healed: bool,
                                         precondition: Option<Value>, target: string)
    ensures var (st1, outcome) := RetryOnce(host, st, step, payload, healed, precondition, target);
            PieceBound(st, st1, outcome, 1, 0)
  {
    var (st1, r) := CallAgain(host, st, step, payload, healed, precondition, target);
    UndoBound(host, st1, st1.ledger, []);
  }

  lemma {:induction false} FollowBound<W>(host: Host<W>, st: State<W>, step: Step, payload: Dict, r: Dict, kind: Value)
    ensures var (st1, outcome) := FollowIntent(host, st, step, payload, r, kind);
            PieceBound(st, st1, outcome, 2, 0)
  {
    hide RetryOnce, Undo, Acquired, ErrorDict;
    if kind == Str("retry") {
      RetryBound(host, st, step, payload, Truthy(Get(r, "healed")), None, host.target(step.uri));
    } else if kind == Str("acquire") {
      var node, need := AcquireNode(host, step), AcquireNeed(r);
      var (st1, er) := Send(host, st, Ensure(step), EnsureUri(node), Precondition(need));
      RetryBound(host, st1, step, payload, true, Some(need), node);
    } else if kind == Str("rollback") {
      UndoBound(host, st, st.ledger, []);
    }
  }

  lemma {:induction false} AttemptBound<W>(host: Host<W>, st: State<W>, step: Step, payload: Dict)
    ensures var (st1, outcome) := Attempt(host, st, step, payload);
            PieceBound(st, st1, outcome, 3, 1)
  {
    hide FollowIntent, Put, MakeStepEntry, FoldInnerOk, NextKind, OkField, StepError;
    if !step.optional {
      var (st1, r) := CallFirst(host, st, step, payload);
      assert Within(st, st1, 1, 1);
      FollowBound(host, st1, step, payload, r, NextKind(r));
    }
  }

  lemma {:induction false} StepBound<W>(host: Host<W>, st: State<W>, step: Step)
    ensures var (st1, outcome) := DispatchStep(host, st, step);
            PieceBound(st, st1, outcome, 3, 1)
  {
    hide Attempt, Put, MakeStepEntry, MissingDeps, FirstDegraded;
    match host.prepare(step, st.results, st.timeline)
    case None =>
    case Some(payload) => AttemptBound(host, st, step, payload);
  }

  lemma {:induction false} LoopBound<W>(host: Host<W>, st: State<W>, steps: seq<Step>, pos: nat, lim: Limits)
    ensures var (st1, end) := Loop(host, st, steps, pos, lim);
            && Within(st, st1, 3 * |steps| + if end.Ended? then |st.ledger| + |steps| else 0, |steps|)
            && st1.retries <= Max(st.retries, lim.maxRetries + 1)
            && st1.remediations <= Max(st.remediations, lim.maxRemediations + 1)
    decreases |steps|
  {
    if steps != [] && Breaker(st, lim, pos).None? {
      StepBound(host, st.(position := pos), steps[0]);
      var (st1, outcome) := DispatchStep(host, st.(position := pos), steps[0]);
      if outcome.Continue? {
        LoopBound(host, st1, steps[1..], pos + 1, lim);
      }
    }
  }

  /**
   From a fresh envelope a plan of n steps makes at most 4n + 1 dispatches, one
   fewer without the goal check, and overruns a budget by at most one.
   */
  lemma {:induction false} RunBound<W>(host: Host<W>, w0: W, steps: seq<Step>, execute: bool, lim: Limits)
    ensures var (st, v) := Drive(host, Fresh(w0), steps, execute, lim);
            && |st.trace| <= 4 * |steps| + (if execute then 1 else 0)
            && st.retries <= Max(0, lim.maxRetries + 1)
            && st.remediations <= Max(0, lim.maxRemediations + 1)
  {
    LoopBound(host, Fresh(w0), steps, 0, lim);
    var (st1, end) := Loop(host, Fresh(w0), steps, 0, lim);
    if !end.Ended? && execute {
      var (st2, r) := CallGoal(host, st1);
      UndoBound(host, st2, st2.ledger, []);
    }
  }

  // ------------------------------------------------------ the bound is attained

  const WORK := Step("", "x://n/work", map[], [], false, None)
  const UNDO_WORK := Inverse("x://n/work", "x://n/undo", map[], "", "")

  function Needy(): Dict {
    map["ok" := Bool(true), "next" := Obj(map["kind" := Str("acquire")]),
        "inverse" := Obj(map["uri" := Str("x://n/undo")])]
  }

  function Content(): Dict {
    map["ok" := Bool(true), "satisfied" := Bool(true), "next" := Obj(map["kind" := Str("continue")])]
  }

  /** Work first asks for a precondition; whether it has just asked is the world. */
  function AskFirst(asked: bool, uri: string, payload: Payload): (bool, Dict) {
    if uri == WORK.uri then (!asked, if asked then Content() else Needy())
    else if uri == GOAL_URI then (asked, map["ok" := Bool(false)])
    else (asked, Content())
  }

  const DEMANDING: Host<bool> :=
    Host(AskFirst, (step, results, timeline) => Some(map[]), uri => "n", text => None, map[])

  lemma {:induction false} WorkIsReversible()
    ensures !WORK.Irreversible()
  {
    forall suffix | suffix in IRREVERSIBLE_SUFFIXES
      ensures !Contains(WORK.uri, suffix)
    {
      assert |suffix| > |WORK.uri|;
    }
  }

  lemma {:induction false} WorkAsks(st: State<bool>)
    requires !st.world
    ensures var (st1, r) := CallFirst(DEMANDING, st, WORK, map[]);
            && st1.world && |st1.trace| == |st.trace| + 1 && st1.ledger == st.ledger + [UNDO_WORK]
            && st1.retries == st.retries && st1.remediations == st.remediations && r == Needy()
  {
    assert Get(Needy(), "result") == Null && ActionOk(DEMANDING, Needy());
    assert LedgerDelta(WORK.uri, Needy()) == [UNDO_WORK];
  }

  lemma {:induction false} WorkAcquires(st: State<bool>)
    requires st.world
    ensures var (st1, outcome) := FollowIntent(DEMANDING, st, WORK, map[], Needy(), Str("acquire"));
            && !st1.world && |st1.trace| == |st.trace| + 2 && st1.ledger == st.ledger && outcome == Continue
            && st1.retries == st.retries + 1 && st1.remediations == st.remediations + 1
  {
    hide Put;
    var node, need := AcquireNode(DEMANDING, WORK), AcquireNeed(Needy());
    assert EnsureUri(node)[0] == 'r' && GOAL_URI[0] == 't' && WORK.uri[0] == 'x';
    var (st1, er) := Send(DEMANDING, st, Ensure(WORK), EnsureUri(node), Precondition(need));
    assert er == Content() && Acquired(er) && st1.world;
    assert NextKind(Content()) == Str("continue");
  }

  lemma {:induction false} WorkTurn(st: State<bool>)
    requires !st.world
    ensures var (st1, outcome) := DispatchStep(DEMANDING, st, WORK);
            && !st1.world && |st1.trace| == |st.trace| + 3 && st1.ledger == st.ledger + [UNDO_WORK] && outcome == Continue
            && st1.retries == st.retries + 1 && st1.remediations == st.remediations + 1
  {
    WorkIsReversible();
    WorkAsks(st);
    var (st1, r) := CallFirst(DEMANDING, st, WORK, map[]);
    assert NextKind(r) == Str("acquire");
    WorkAcquires(st1);
    assert Attempt(DEMANDING, st, WORK, map[]) == FollowIntent(DEMANDING, st1, WORK, map[], r, Str("acquire"));
  }

  function Repeated<T>(x: T, n: nat): (r: seq<T>)
    ensures |r| == n && forall i :: 0 <= i < n ==> r[i] == x
  {
    seq(n, i => x)
  }

  predicate Generous(lim: Limits, turns: nat) {
    lim.maxRetries >= turns && lim.maxRemediations >= turns && forall i :: 0 <= i < turns ==> !lim.late(i)
  }

  lemma {:induction false} WorkLoop(st: State<bool>, n: nat, pos: nat, lim: Limits)
    requires !st.world && st.retries == st.remediations == pos
    requires st.ledger == Repeated(UNDO_WORK, pos) && Generous(lim, pos + n)
    ensures var (st1, end) := Loop(DEMANDING, st, Repeated(WORK, n), pos, lim);
            && end == FellThrough && |st1.trace| == |st.trace| + 3 * n
            && !st1.world && st1.ledger == Repeated(UNDO_WORK, pos + n)
    decreases n
  {
    hide DispatchStep;
    var steps := Repeated(WORK, n);
    if n > 0 {
      var st0 := st.(position := pos);
      WorkTurn(st0);
      assert Breaker(st, lim, pos).None?;
      assert steps[1..] == Repeated(WORK, n - 1);
      WorkLoop(DispatchStep(DEMANDING, st0, WORK).0, n - 1, pos + 1, lim);
    }
  }

  lemma {:induction false} UndoAllWork(st: State<bool>, n: nat, undone: seq<string>)
    ensures |Undo(DEMANDING, st, Repeated(UNDO_WORK, n), undone).0.trace| == |st.trace| + n
    decreases n
  {
    if n > 0 {
      var ledger := Repeated(UNDO_WORK, n);
      assert ledger[..n - 1] == Repeated(UNDO_WORK, n - 1);
      var (st1, rb) := UndoOne(DEMANDING, st, UNDO_WORK);
      assert IsOk(rb);
      UndoAllWork(st1, n - 1, undone + [UNDO_WORK.uri]);
    }
  }

  /** The bound cannot be improved: for every n some plan of n steps makes exactly 4n + 1 calls. */
  lemma {:induction false} RunBoundAttained(n: nat, lim: Limits)
    requires Generous(lim, n)
    ensures |Drive(DEMANDING, Fresh(false), Repeated(WORK, n), true, lim).0.trace| == 4 * n + 1
  {
    hide Loop, Undo;
    WorkLoop(Fresh(false), n, 0, lim);
    var (st, end) := Loop(DEMANDING, Fresh(false), Repeated(WORK, n), 0, lim);
    var (st1, r) := CallGoal(DEMANDING, st);
    assert !IsOk(r);
    UndoAllWork(st1, n, []);
  }
}
