/**
 The thin flow driver as a function of an arbitrary dispatcher.

 A flow is a list of URI steps.  Each step is dispatched and the `next.kind` of
 its result says how to go on.  Successful steps may return an inverse, which
 goes into a ledger; a rollback dispatches the ledger's inverses last-in
 first-out.  The dispatcher is any function from a world, a URI and a payload to
 a new world and a result, so every statement about runs holds for every
 connector behaviour.
 */
module ThinModel {
  import opened Text
  import opened Json

  const GOAL_URI := "twin://host/flow/goal/query/verify"

  const IRREVERSIBLE_SUFFIXES: seq<string> := [
    "/session/command/write",
    "/log/command/write",
    "/notes/command/write",
    "/memory/command/write"
  ]

  // ---------------------------------------------------------------- entities

  /** One plan step; an absent id is the empty string. */
  datatype Step = Step(
    id: string,
    uri: string,
    payload: Dict,
    dependsOn: seq<string>,
    optional: bool,
    reversible: Option<bool>)
  {
    function Sid(): string { if id == "" then uri else id }

    predicate Irreversible() {
      || reversible == Some(false)
      || exists suffix :: suffix in IRREVERSIBLE_SUFFIXES && Contains(uri, suffix)
    }
  }

  /** The result dictionary, in insertion order. */
  type Results = seq<(string, Dict)>

  predicate Recorded(results: Results, sid: string) {
    exists i :: 0 <= i < |results| && results[i].0 == sid
  }

  /** `results[sid] = r`: an existing key keeps its place. */
  function Put(results: Results, sid: string, r: Dict): Results {
    if results == [] then [(sid, r)]
    else if results[0].0 == sid then [(sid, r)] + results[1..]
    else [results[0]] + Put(results[1..], sid, r)
  }

  datatype Inverse = Inverse(forward: string, uri: string, args: Dict, before: string, after: string)

  datatype Event =
    | Sent(uri: string, pos: nat)
    | Returned(uri: string, pos: nat, ok: Value, next: Option<Value>, retry: bool)

  datatype Entry =
    | StepEntry(id: string, uri: string, result: Dict, target: string,
                reversible: bool, inverse: Option<Inverse>)
    | RetryEntry(id: string, uri: string, ok: Value, target: string, precondition: Option<Value>)
    | BlockedEntry(id: string, uri: string, target: string, blocked: Value, error: Value)
    | MissingEntry(id: string, uri: string, missing: seq<string>, target: string)
    | RollbackEntry(uri: string, ok: Value)

  /** What a call carries: step arguments, a precondition to acquire, or a goal check. */
  datatype Payload =
    | Args(args: Dict)
    | Precondition(what: Value)
    | GoalCheck(goal: Dict, results: Results)

  /** Why the driver made a call. */
  datatype Role =
    | First(step: Step)
    | Optional(step: Step)
    | Retry(step: Step)
    | Ensure(step: Step)
    | Undoing
    | Goal

  datatype Call<W> = Call(role: Role, uri: string, payload: Payload, before: W, after: W, result: Dict)

  /** Everything the driver is given and does not decide. */
  datatype Host<!W> = Host(
    dispatch: (W, string, Payload) -> (W, Dict),
    // payload resolution (`_from` references, remember enrichment); None when it raises
    prepare: (Step, Results, seq<Entry>) -> Option<Dict>,
    // the node a URI addresses
    target: string -> string,
    // what a non-blank stdout of a shell executor decodes to
    stdout: string -> Option<Value>,
    goal: Dict)

  datatype Limits = Limits(maxRetries: int, maxRemediations: int, late: nat -> bool)

  datatype State<W> = State(
    world: W,
    trace: seq<Call<W>>,
    position: nat,
    ledger: seq<Inverse>,
    events: seq<Event>,
    retries: nat,
    remediations: nat,
    timeline: seq<Entry>,
    results: Results)

  function Fresh<W>(w: W): State<W> {
    State(w, [], 0, [], [], 0, 0, [], [])
  }

  datatype Unwind =
    | Undone(uris: seq<string>)
    | Stuck(uris: seq<string>, at: string, reason: Value)

  datatype Budget = RetryBudget | HealBudget | WallClock

  /** What the driver returns, next to the timeline and the results. */
  datatype Verdict =
    | Finished(degraded: bool, reason: Value)
    | RolledBack(kind: string, rollback: Option<Unwind>, error: Value)
    | CircuitBroken(budget: Budget)
    | MissingDependencies(sid: string, missing: seq<string>)
    | Blocked(what: Value, error: Value)
    | ActionFailed(error: Value)
    | Raised

  datatype Outcome = Continue | Break | Return(verdict: Verdict)

  datatype LoopEnd = FellThrough | Broke | Ended(verdict: Verdict)

  // ---------------------------------------------------- reading a result

  function OkField(r: Dict): Value { GetOr(r, "ok", Bool(true)) }

  predicate IsOk(r: Dict) { Truthy(OkField(r)) }

  function NextField(r: Dict): Value { Get(Fields(Get(r, "next")), "kind") }

  /** The intent of a result; without one, ok means continue and not ok means rollback. */
  function NextKind(r: Dict): Value {
    Or(NextField(r), Str(if IsOk(r) then "continue" else "rollback"))
  }

  /** The connector's own result inside a run envelope. */
  function ResultData<W>(host: Host<W>, r: Dict): Value {
    var res := Get(r, "result");
    if !res.Obj? then
      if res.Null? then Obj(r) else res
    else if "value" in res.fields then res.fields["value"]
    else
      var out := Get(res.fields, "stdout");
      if out.Str? && host.stdout(out.s).Some? then host.stdout(out.s).value else res
  }

  /** Transport ok and the action's own result not explicitly failed. */
  predicate ActionOk<W>(host: Host<W>, r: Dict) {
    Truthy(Get(r, "ok")) &&
    var v := ResultData(host, r);
    !(v.Obj? && GetOr(v.fields, "ok", Bool(true)) == Bool(false))
  }

  /** Fold an inner failure into the transport envelope. */
  function FoldInnerOk<W>(host: Host<W>, r: Dict): Dict {
    if IsOk(r) && !ActionOk(host, r) then
      var inner := Get(Fields(ResultData(host, r)), "error");
      r["ok" := Bool(false)]
       ["error" := Obj(map["message" := Or(inner, Str("inner result reported ok=False")),
                           "category" := Str("ACTION_FAILED")])]
    else r
  }

  /** The inverse a result carries, directly or inside its run envelope. */
  function ExtractInverse(r: Dict): Option<Dict> {
    var res := Get(r, "result");
    var val := Get(Fields(res), "value");
    if Get(r, "inverse").Obj? then Some(Get(r, "inverse").fields)
    else if Get(Fields(val), "inverse").Obj? then Some(Get(Fields(val), "inverse").fields)
    else if Get(Fields(res), "inverse").Obj? then Some(Get(Fields(res), "inverse").fields)
    else None
  }

  /** A full inverse URI, or a node-less path rebased onto the forward step's node. */
  function ResolveInverseUri(forward: string, inv: Dict): Option<string> {
    var uri, path := AsText(Get(inv, "uri")), AsText(Get(inv, "path"));
    if uri != "" then Some(uri)
    else if path != "" then
      match SchemeEnd(forward)
      case None => None
      case Some(i) =>
        var node := Split(forward[i + 3..], '/')[0];
        Some(forward[..i] + "://" + node + "/" + StripLeft(path, '/'))
    else None
  }

  /** The part of a URI that says which node serves it: scheme and node. */
  function Authority(uri: string): Option<(string, string)> {
    match SchemeEnd(uri)
    case None => None
    case Some(i) => Some((uri[..i], Split(uri[i + 3..], '/')[0]))
  }

  lemma {:induction false} SameMark(s: string, t: string, i: nat)
    requires SchemeEnd(s) == Some(i) && i + 3 <= |t| && t[..i + 3] == s[..i + 3]
    ensures SchemeEnd(t) == Some(i)
  {
    forall k: nat | k <= i ensures MarkAt(t, k) <==> MarkAt(s, k) {
      assert t[k] == t[..i + 3][k] && t[k + 1] == t[..i + 3][k + 1] && t[k + 2] == t[..i + 3][k + 2];
    }
    hide SchemeEnd;
  }

  lemma {:induction false} FirstPiece(node: string, more: string)
    requires '/' !in node
    ensures Split(node + "/" + more, '/')[0] == node
  {
    var s := node + "/" + more;
    assert s[|node|] == '/' && forall j :: 0 <= j < |node| ==> s[j] == node[j];
    hide Split;
    assert IndexOf(s, '/') == |node|;
    assert Split(s, '/')[0] == s[..|node|] by { FirstOfSplit(s, '/'); }
    assert s[..|node|] == node;
  }

  lemma {:induction false} FirstOfSplit(s: string, c: char)
    ensures Split(s, c)[0] == s[..IndexOf(s, c)] && c !in Split(s, c)[0]
  {
    hide IndexOf;
    assert s[..|s|] == s;
  }

  /** A node-less inverse stays on the scheme and node of its forward step. */
  lemma {:induction false} InverseStaysOnNode(forward: string, inv: Dict)
    requires AsText(Get(inv, "uri")) == ""
    ensures ResolveInverseUri(forward, inv).Some? <==> Authority(forward).Some? && AsText(Get(inv, "path")) != ""
    ensures ResolveInverseUri(forward, inv).Some? ==>
              Authority(ResolveInverseUri(forward, inv).value) == Authority(forward)
  {
    hide AsText, Get, SchemeEnd, Split, StripLeft;
    if ResolveInverseUri(forward, inv).Some? {
      var i, r := SchemeEnd(forward).value, ResolveInverseUri(forward, inv).value;
      var node, more := Split(forward[i + 3..], '/')[0], StripLeft(AsText(Get(inv, "path")), '/');
      assert r[..i] == forward[..i] && r[..i + 3] == forward[..i + 3];
      assert r[i + 3..] == node + "/" + more;
      SameMark(forward, r, i);
      FirstOfSplit(forward[i + 3..], '/');
      FirstPiece(node, more);
    }
  }

  function InverseOf(uri: string, r: Dict): (inv: Option<Inverse>)
    ensures inv.Some? ==> inv.value.uri != ""
  {
    match ExtractInverse(r)
    case None => None
    case Some(d) =>
      match ResolveInverseUri(uri, d)
      case None => None
      case Some(u) => Some(Inverse(uri, u, Fields(Get(d, "args")), AsText(Get(r, "stateBefore")), AsText(Get(r, "stateAfter"))))
  }

  /** What a successful step adds to the ledger. */
  function LedgerDelta(uri: string, r: Dict): seq<Inverse> {
    if !IsOk(r) then []
    else
      match InverseOf(uri, r)
      case None => []
      case Some(inv) => [inv]
  }

  /** Where the degraded flag of a result is read: its inner value, else the result itself. */
  function QualityFields(r: Dict): Dict {
    var val := Get(Fields(Get(r, "result")), "value");
    if val.Obj? then val.fields else r
  }

  predicate IsDegraded(r: Dict) { Truthy(Get(QualityFields(r), "degraded")) }

  /** The reason of the first degraded result, scanning in insertion order. */
  function FirstDegraded(results: Results): Option<Value> {
    if results == [] then None
    else if IsDegraded(results[0].1) then
      Some(Or(Get(QualityFields(results[0].1), "degradedReason"), Null))
    else FirstDegraded(results[1..])
  }

  function ErrorDict(r: Dict): Value {
    var e := Get(r, "error");
    if e.Obj? && Truthy(e) then e else Null
  }

  function MakeStepEntry<W>(host: Host<W>, sid: string, uri: string, r: Dict): Entry {
    var inv := InverseOf(uri, r);
    StepEntry(sid, uri, r, host.target(uri), inv.Some? || Contains(uri, "/query/"), inv)
  }

  // --------------------------------------------------------------- rollback

  function Send<W>(host: Host<W>, st: State<W>, role: Role, uri: string, payload: Payload): (State<W>, Dict) {
    var (w, r) := host.dispatch(st.world, uri, payload);
    (st.(world := w, trace := st.trace + [Call(role, uri, payload, st.world, w, r)]), r)
  }

  /** Dispatch one inverse and record it. */
  function UndoOne<W>(host: Host<W>, st: State<W>, e: Inverse): (State<W>, Dict) {
    var st1 := st.(events := st.events + [Sent(e.uri, st.position)]);
    var (st2, rb) := Send(host, st1, Undoing, e.uri, Args(e.args));
    (st2.(events := st2.events + [Returned(e.uri, st.position, OkField(rb), None, false)],
          timeline := st2.timeline + [RollbackEntry(e.uri, OkField(rb))]), rb)
  }

  /** Dispatch the ledger's inverses, last first, until one fails. */
  function Undo<W>(host: Host<W>, st: State<W>, ledger: seq<Inverse>, undone: seq<string>): (State<W>, Unwind)
    decreases |ledger|
  {
    if ledger == [] then (st, Undone(undone))
    else
      var e, rest := ledger[|ledger| - 1], ledger[..|ledger| - 1];
      if e.uri == "" then Undo(host, st, rest, undone)
      else
        var (st1, rb) := UndoOne(host, st, e);
        if !IsOk(rb) then (st1, Stuck(undone, e.uri, GetOr(rb, "error", Str("inverse failed"))))
        else Undo(host, st1, rest, undone + [e.uri])
  }

  predicate HasInverses(ledger: seq<Inverse>) {
    exists e :: e in ledger && e.uri != ""
  }

  function Rollback<W>(host: Host<W>, st: State<W>, kind: string, error: Value, explicit: bool): (State<W>, Verdict) {
    var (st1, unwind) := Undo(host, st, st.ledger, []);
    var shown := if unwind.Stuck? || HasInverses(st.ledger) || explicit then Some(unwind) else None;
    (st1, RolledBack(kind, shown, error))
  }

  // -------------------------------------------------------- one step's calls

  /** Dispatch a step again; the result replaces the recorded one, unfolded and off the ledger. */
  function CallAgain<W>(host: Host<W>, st: State<W>, step: Step, payload: Dict, healed: bool,
                        precondition: Option<Value>, target: string): (State<W>, Dict)
  {
    var st0 := st.(retries := st.retries + 1,
                   remediations := st.remediations + (if healed then 1 else 0));
    var (st1, r) := Send(host, st0, Retry(step), step.uri, Args(payload));
    (st1.(events := st1.events + [Returned(step.uri, st1.position, OkField(r), Some(NextKind(r)), true)],
          timeline := st1.timeline +
            [RetryEntry(step.Sid() + ":retry", step.uri, OkField(r), target, precondition)],
          results := Put(st1.results, step.Sid(), r)), r)
  }

  function RetryOnce<W>(host: Host<W>, st: State<W>, step: Step, payload: Dict, healed: bool,
                        precondition: Option<Value>, target: string): (State<W>, Outcome)
  {
    var (st1, r) := CallAgain(host, st, step, payload, healed, precondition, target);
    if NextKind(r) == Str("continue") || NextKind(r) == Str("done") then (st1, Continue)
    else
      var (st2, v) := Rollback(host, st1, "failed", Null, false);
      (st2, Return(v))
  }

  function EnsureUri(node: string): string {
    "ready://" + node + "/ready/command/ensure"
  }

  function AcquireNode<W>(host: Host<W>, step: Step): string {
    if host.target(step.uri) == "" then "host" else host.target(step.uri)
  }

  function AcquireNeed(r: Dict): Value {
    Or(Get(Fields(Get(r, "acquire")), "precondition"), Str(""))
  }

  predicate Acquired(er: Dict) {
    Truthy(Get(er, "ok")) && (Truthy(Get(er, "satisfied")) || Truthy(Get(er, "acquired")))
  }

  /** Have the precondition ensured, then try again; a refusal blocks the flow. */
  function Acquire<W>(host: Host<W>, st: State<W>, step: Step, payload: Dict, r: Dict): (State<W>, Outcome) {
    var node := AcquireNode(host, step);
    var (st1, er) := Send(host, st, Ensure(step), EnsureUri(node), Precondition(AcquireNeed(r)));
    if Acquired(er) then RetryOnce(host, st1, step, payload, true, Some(AcquireNeed(r)), node)
    else
      var blocked := Or(Get(er, "acquire"), Obj(Fields(Get(r, "acquire"))));
      (st1.(timeline := st1.timeline +
              [BlockedEntry(step.Sid() + ":blocked", step.uri, node, blocked, ErrorDict(r))]),
       Return(Blocked(blocked, ErrorDict(r))))
  }

  /** Follow an intent other than continue. */
  function FollowIntent<W>(host: Host<W>, st: State<W>, step: Step, payload: Dict, r: Dict, kind: Value): (State<W>, Outcome) {
    if kind == Str("retry") then
      RetryOnce(host, st, step, payload, Truthy(Get(r, "healed")), None, host.target(step.uri))
    else if kind == Str("acquire") then Acquire(host, st, step, payload, r)
    else if kind == Str("rollback") then
      var (st1, v) := Rollback(host, st, "failed", ErrorDict(r), NextField(r) == Str("rollback"));
      (st1, Return(v))
    else (st, if kind == Str("done") then Break else Continue)
  }

  function MissingDeps(results: Results, deps: seq<string>): seq<string> {
    if deps == [] then []
    else (if Recorded(results, deps[0]) then [] else [deps[0]]) + MissingDeps(results, deps[1..])
  }

  function SkipResult(reason: Value): Dict {
    map["ok" := Bool(true), "skipped" := Bool(true),
        "skippedReason" := Str("prior step degraded: " + if reason.Str? then reason.s else "None"),
        "next" := Obj(map["kind" := Str("continue")])]
  }

  function Record<W>(host: Host<W>, st: State<W>, step: Step, r: Dict): State<W> {
    st.(timeline := st.timeline + [MakeStepEntry(host, step.Sid(), step.uri, r)],
        results := Put(st.results, step.Sid(), r))
  }

  /** Dispatch an optional step: whatever comes back is recorded and nothing else. */
  function CallOptional<W>(host: Host<W>, st: State<W>, step: Step, payload: Dict): State<W> {
    var st0 := st.(events := st.events + [Sent(step.uri, st.position)]);
    var (st1, r) := Send(host, st0, Optional(step), step.uri, Args(payload));
    Record(host, st1, step, r)
  }

  /** Dispatch a step for the first time; an inverse it returns enters the ledger. */
  function CallFirst<W>(host: Host<W>, st: State<W>, step: Step, payload: Dict): (State<W>, Dict) {
    var st0 := st.(events := st.events + [Sent(step.uri, st.position)]);
    var (st1, raw) := Send(host, st0, First(step), step.uri, Args(payload));
    var r := FoldInnerOk(host, raw);
    (Record(host,
            st1.(events := st1.events + [Returned(step.uri, st.position, OkField(r), Some(NextKind(r)), false)],
                 ledger := st1.ledger + LedgerDelta(step.uri, r)),
            step, r), r)
  }

  function StepError(uri: string, r: Dict): Value {
    Or(Get(r, "error"), Obj(map["message" := Str("step " + uri + " failed"), "category" := Str("ACTION_FAILED")]))
  }

  /** The first attempt at a step, and acting on what came back. */
  function Attempt<W>(host: Host<W>, st: State<W>, step: Step, payload: Dict): (State<W>, Outcome) {
    if step.optional then (CallOptional(host, st, step, payload), Continue)
    else
      var (st1, r) := CallFirst(host, st, step, payload);
      if NextKind(r) != Str("continue") then FollowIntent(host, st1, step, payload, r, NextKind(r))
      else (st1, if IsOk(r) then Continue else Return(ActionFailed(StepError(step.uri, r))))
  }

  /** One turn of the loop after the circuit breaker. */
  function DispatchStep<W>(host: Host<W>, st: State<W>, step: Step): (State<W>, Outcome) {
    var missing := MissingDeps(st.results, step.dependsOn);
    var degraded := FirstDegraded(st.results);
    if missing != [] then
      (st.(timeline := st.timeline + [MissingEntry(step.Sid(), step.uri, missing, host.target(step.uri))]),
       Return(MissingDependencies(step.Sid(), missing)))
    else if step.Irreversible() && degraded.Some? then
      (Record(host, st, step, SkipResult(degraded.value)), Continue)
    else
      match host.prepare(step, st.results, st.timeline)
      case None => (st, Return(Raised))
      case Some(payload) => Attempt(host, st, step, payload)
  }

  // -------------------------------------------------------------- whole run

  /** Which safety budget is exceeded before turn `pos`, the first one that is. */
  function Breaker<W>(st: State<W>, lim: Limits, pos: nat): Option<Budget> {
    if st.retries > lim.maxRetries then Some(RetryBudget)
    else if st.remediations > lim.maxRemediations then Some(HealBudget)
    else if lim.late(pos) then Some(WallClock)
    else None
  }

  function Loop<W>(host: Host<W>, st: State<W>, steps: seq<Step>, pos: nat, lim: Limits): (State<W>, LoopEnd)
    decreases |steps|
  {
    if steps == [] then (st, FellThrough)
    else if Breaker(st, lim, pos).Some? then (st, Ended(CircuitBroken(Breaker(st, lim, pos).value)))
    else
      var (st1, outcome) := DispatchStep(host, st.(position := pos), steps[0]);
      match outcome
      case Continue => Loop(host, st1, steps[1..], pos + 1, lim)
      case Break => (st1, Broke)
      case Return(v) => (st1, Ended(v))
  }

  /** A goal check that no handler served counts as passed. */
  predicate GoalUnserved(r: Dict) {
    var e := Get(r, "error");
    && !IsOk(r)
    && (|| Get(Fields(e), "type") == Str("registry")
        || Get(Fields(e), "category") == Str("NOT_FOUND")
        || Get(Fields(e), "category") == Str("INVALID_ARGUMENT")
        || e.Str?)
  }

  const UNSERVED_GOAL: Dict :=
    map["ok" := Bool(true), "goalMet" := Bool(true), "skipped" := Str("no-verify-handler")]

  function CallGoal<W>(host: Host<W>, st: State<W>): (State<W>, Dict) {
    var st0 := st.(events := st.events + [Sent(GOAL_URI, st.position)]);
    var (st1, raw) := Send(host, st0, Goal, GOAL_URI, GoalCheck(host.goal, st.results));
    var r := if GoalUnserved(raw) then UNSERVED_GOAL else raw;
    (st1.(events := st1.events + [Returned(GOAL_URI, st.position, OkField(r), Some(NextKind(r)), false)]), r)
  }

  function VerifyGoal<W>(host: Host<W>, st: State<W>): (State<W>, Option<Verdict>) {
    var (st1, r) := CallGoal(host, st);
    if IsOk(r) then (st1, None)
    else
      var (st2, v) := Rollback(host, st1, "goal-failed", Null, false);
      (st2, Some(v))
  }

  function Close<W>(host: Host<W>, st: State<W>, execute: bool): (State<W>, Verdict) {
    var (st1, failed) := if execute then VerifyGoal(host, st) else (st, None);
    match failed
    case Some(v) => (st1, v)
    case None =>
      var degraded := FirstDegraded(st1.results);
      (st1, Finished(degraded.Some?, if degraded.Some? then degraded.value else Null))
  }

  function Drive<W>(host: Host<W>, st: State<W>, steps: seq<Step>, execute: bool, lim: Limits): (State<W>, Verdict) {
    var (st1, end) := Loop(host, st, steps, 0, lim);
    match end
    case Ended(v) => (st1, v)
    case _ => Close(host, st1, execute)
  }
}
