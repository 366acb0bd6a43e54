/**
 Running a flow with its resilience policy: retry, fallback, assertion, degrade,
 skip and abort.  What runs a URI is any function of a world.
 */
module FlowRun {
  import opened Text
  import opened Json
  import opened FlowGraph
  import opened FlowOrder

  const RETRYABLE: set<string> := {"UNAVAILABLE", "DEADLINE_EXCEEDED", "RESOURCE_EXHAUSTED", "ABORTED"}

  datatype Status = Succeeded | Failed | Skipped

  /** One URI run on behalf of a step, as a first choice or as its fallback. */
  datatype Call = Call(id: string, fallback: bool, uri: string, payload: Dict, result: Dict)

  datatype Host<!W> = Host(
    run: (W, string, Dict) -> (W, Dict),
    // payload resolution against prior results; None when it raises
    prepare: (Step, map<string, Dict>) -> Option<Dict>,
    // the category of an error that carries none
    classify: Dict -> Value)

  datatype State<W> = State(
    world: W,
    trace: seq<Call>,
    keys: seq<string>,
    results: map<string, Dict>,
    status: map<string, Status>,
    aborted: bool)

  function Fresh<W>(w: W): State<W> {
    State(w, [], [], map[], map[], false)
  }

  // ---------------------------------------------------------------- envelopes

  function ResultValue(env: Dict): Value {
    var result := Get(env, "result");
    if Get(Fields(result), "value").Obj? then Get(Fields(result), "value") else result
  }

  predicate SaysNotOk(v: Value) {
    v.Obj? && Get(v.fields, "ok") == Bool(false)
  }

  /** The run and the connector's own ok. */
  predicate EnvelopeOk(env: Dict) {
    Truthy(Get(env, "ok")) && !SaysNotOk(ResultValue(env)) && !SaysNotOk(Get(env, "result"))
  }

  function ErrorCategory<W>(host: Host<W>, env: Dict): Value {
    var err := Fields(Get(env, "error"));
    if err == map[] then Null
    else if Truthy(Get(err, "category")) then Get(err, "category")
    else host.classify(err)
  }

  function SkipEnvelope(step: Step, reason: string): Dict {
    map["uri" := Str(step.uri), "ok" := Bool(false), "skipped" := Bool(true),
        "error" := Obj(map["type" := Str("dependency"), "category" := Str("FAILED_PRECONDITION"),
                           "message" := Str(reason)])]
  }

  // ------------------------------------------------------------------ one step

  /** Numbers in policies are whole; anything else counts as zero. */
  function WholeNumber(v: Value): int {
    if !v.Num? then 0 else if v.n >= 0.0 then v.n.Floor else -((-v.n).Floor)
  }

  function MaxRetries(step: Step): nat {
    var n := if step.retry.Some? then WholeNumber(Get(step.retry.value, "max")) else 0;
    if n < 0 then 0 else n
  }

  function RetryOn(step: Step): set<string> {
    var on := if step.retry.Some? then Get(step.retry.value, "on") else Null;
    if on.Arr? && on.items != [] then set v | v in on.items && v.Str? :: v.s else RETRYABLE
  }

  /** A failure worth another try. */
  predicate WorthRetrying<W>(host: Host<W>, step: Step, env: Dict) {
    !EnvelopeOk(env) && ErrorCategory(host, env).Str? && ErrorCategory(host, env).s in RetryOn(step)
  }

  function RunUri<W>(host: Host<W>, st: State<W>, step: Step, fallback: bool, payload: Dict): (State<W>, Dict)
    requires fallback ==> Given(step.fallback)
  {
    var uri := if fallback then step.fallback.value else step.uri;
    var (w, env) := host.run(st.world, uri, payload);
    (st.(world := w, trace := st.trace + [Call(step.id, fallback, uri, payload, env)]), env)
  }

  /** Repeat while the failure is worth it and retries are left. */
  function Repeat<W>(host: Host<W>, st: State<W>, step: Step, payload: Dict, env: Dict, attempts: nat): (State<W>, Dict, nat)
    decreases MaxRetries(step) + 1 - attempts
  {
    if WorthRetrying(host, step, env) && attempts <= MaxRetries(step) then
      var (st1, env1) := RunUri(host, st, step, false, payload);
      Repeat(host, st1, step, payload, env1, attempts + 1)
    else (st, env, attempts)
  }

  function FallbackEnvelope(step: Step, primary: Dict, fb: Dict): Dict {
    fb["fallbackUsed" := Bool(true)]["fallbackFor" := Str(step.uri)] +
    (if Get(primary, "error").Null? then map[] else map["primaryError" := Get(primary, "error")])
  }

  /** An assertion passes only if its result does not say otherwise. */
  function GateAssertion(step: Step, env: Dict): Dict {
    var val := ResultValue(env);
    if step.kind == Some("assertion") && Truthy(Get(env, "ok")) && val.Obj? && Get(val.fields, "passed") == Bool(false)
    then env["ok" := Bool(false)]
            ["error" := Obj(map["type" := Str("assertion"), "category" := Str("FAILED_PRECONDITION"),
                                "message" := Str("assertion '" + step.id + "' did not pass")])]
    else env
  }

  function ResolveStep<W>(host: Host<W>, st: State<W>, step: Step, payload: Dict): (State<W>, Dict) {
    var (st1, env1) := RunUri(host, st, step, false, payload);
    var (st2, env2, attempts) := Repeat(host, st1, step, payload, env1, 1);
    var env3 := env2["attempts" := Num(attempts as real)];
    if !EnvelopeOk(env3) && Given(step.fallback) then
      var (st3, fb) := RunUri(host, st2, step, true, payload);
      (st3, GateAssertion(step, FallbackEnvelope(step, env3, fb)))
    else (st2, GateAssertion(step, env3))
  }

  // ------------------------------------------------------------------ the flow

  function Settle<W>(st: State<W>, id: string, env: Dict, status: Status): State<W> {
    st.(keys := st.keys + [id], results := st.results[id := env], status := st.status[id := status])
  }

  predicate IsOk(status: map<string, Status>, id: string) {
    id in status && status[id].Succeeded?
  }

  predicate DepsOk(status: map<string, Status>, step: Step) {
    forall dep :: dep in step.dependsOn ==> IsOk(status, dep)
  }

  /** The last good result of the degrade source, when there is one. */
  function DegradedEnvelope(status: map<string, Status>, results: map<string, Dict>, step: Step, env: Dict): Option<Dict> {
    if Given(step.degrade) && IsOk(status, step.degrade.value) && step.degrade.value in results then
      Some(map["uri" := Str(step.uri), "ok" := Bool(true), "degraded" := Bool(true),
               "degradedFrom" := Str(step.degrade.value), "primaryError" := Get(env, "error"),
               "result" := Get(results[step.degrade.value], "result"),
               "kind" := Str("degraded"), "live" := Bool(false)])
    else None
  }

  /** Record the outcome of a step that ran. */
  function Conclude<W>(st: State<W>, step: Step, env: Dict): State<W> {
    var degraded := DegradedEnvelope(st.status, st.results, step, env);
    if EnvelopeOk(env) then Settle(st, step.id, env, Succeeded)
    else if degraded.Some? then Settle(st, step.id, degraded.value, Succeeded)
    else
      var st1 := Settle(st, step.id, env, Failed);
      if step.catch_ == Some("abort") then st1.(aborted := true) else st1
  }

  const ABORT_REASON := "flow aborted by an upstream step (catch=abort)"
  const DEPENDENCY_REASON := "skipped: dependencies did not succeed"
  const PAYLOAD_REASON := "skipped: could not resolve payload"

  function Turn<W>(host: Host<W>, st: State<W>, step: Step): State<W> {
    if st.aborted then Settle(st, step.id, SkipEnvelope(step, ABORT_REASON), Skipped)
    else if !DepsOk(st.status, step) then Settle(st, step.id, SkipEnvelope(step, DEPENDENCY_REASON), Skipped)
    else
      match host.prepare(step, st.results)
      case None => Settle(st, step.id, SkipEnvelope(step, PAYLOAD_REASON), Skipped)
      case Some(payload) =>
        var (st1, env) := ResolveStep(host, st, step, payload);
        Conclude(st1, step, env)
  }

  function RunAll<W>(host: Host<W>, st: State<W>, order: seq<Step>): State<W>
    decreases |order|
  {
    if order == [] then st else RunAll(host, Turn(host, st, order[0]), order[1..])
  }

  // --------------------------------------------------------- calls of one step

  /** How many of these calls were first choices. */
  function Primaries(calls: seq<Call>): nat {
    if calls != [] && calls[|calls| - 1].fallback then |calls| - 1 else |calls|
  }

  predicate IsCall(step: Step, payload: Dict, c: Call, fallback: bool) {
    c.id == step.id && c.payload == payload && c.fallback == fallback &&
    if fallback then step.fallback == Some(c.uri) else c.uri == step.uri
  }

  /** The calls of one resolution: first choices, each but the last worth a retry, then perhaps the fallback. */
  ghost predicate Discipline<W>(host: Host<W>, step: Step, payload: Dict, calls: seq<Call>) {
    var n := Primaries(calls);
    && 1 <= n <= MaxRetries(step) + 1
    && (forall i :: 0 <= i < |calls| ==> IsCall(step, payload, calls[i], i >= n))
    && (forall i :: 0 <= i < n - 1 ==> WorthRetrying(host, step, calls[i].result))
    && (n <= MaxRetries(step) ==> !WorthRetrying(host, step, calls[n - 1].result))
    && (n < |calls| <==> !EnvelopeOk(calls[n - 1].result) && Given(step.fallback))
  }

  /** What the calls of one resolution come to. */
  function Answer(step: Step, calls: seq<Call>): Dict
    requires Primaries(calls) >= 1
  {
    var n := Primaries(calls);
    var primary := calls[n - 1].result["attempts" := Num(n as real)];
    GateAssertion(step, if n < |calls| then FallbackEnvelope(step, primary, calls[n].result) else primary)
  }

  /** The status and the envelope recorded for what a resolution came to. */
  predicate Concluded(status: map<string, Status>, results: map<string, Dict>, step: Step, env: Dict, outcome: Status, record: Dict) {
    var degraded := DegradedEnvelope(status, results, step, env);
    if EnvelopeOk(env) then outcome.Succeeded? && record == env
    else if degraded.Some? then outcome.Succeeded? && record == degraded.value
    else outcome.Failed? && record == env
  }

  lemma {:induction false} AttemptsKeepOk(env: Dict, n: nat)
    ensures EnvelopeOk(env["attempts" := Num(n as real)]) <==> EnvelopeOk(env)
  {
  }

  ghost predicate Repeating<W>(host: Host<W>, step: Step, payload: Dict, calls: seq<Call>, env: Dict) {
    && calls != [] && calls[|calls| - 1].result == env
    && (forall i :: 0 <= i < |calls| ==> IsCall(step, payload, calls[i], false))
    && (forall i :: 0 <= i < |calls| - 1 ==> WorthRetrying(host, step, calls[i].result))
  }

  lemma {:induction false} RepeatCalls<W>(host: Host<W>, st: State<W>, step: Step, payload: Dict, env: Dict, old_: seq<Call>, calls: seq<Call>)
    requires st.trace == old_ + calls && Repeating(host, step, payload, calls, env) && |calls| <= MaxRetries(step) + 1
    ensures var (st1, env1, attempts) := Repeat(host, st, step, payload, env, |calls|);
            && old_ + calls <= st1.trace
            && var all := st1.trace[|old_|..];
            && st1.trace == old_ + all && Repeating(host, step, payload, all, env1) && attempts == |all| <= MaxRetries(step) + 1
            && (|all| <= MaxRetries(step) ==> !WorthRetrying(host, step, env1))
            && st1 == st.(world := st1.world, trace := st1.trace)
    decreases MaxRetries(step) + 1 - |calls|
  {
    hide WorthRetrying, MaxRetries;
    if WorthRetrying(host, step, env) && |calls| <= MaxRetries(step) {
      var (st1, env1) := RunUri(host, st, step, false, payload);
      var calls1 := calls + [Call(step.id, false, step.uri, payload, env1)];
      assert st1.trace == old_ + calls1;
      RepeatCalls(host, st1, step, payload, env1, old_, calls1);
    }
  }

  lemma {:induction false} NoFallback<W>(host: Host<W>, step: Step, payload: Dict, all: seq<Call>, env: Dict)
    requires Repeating(host, step, payload, all, env) && |all| <= MaxRetries(step) + 1
    requires |all| <= MaxRetries(step) ==> !WorthRetrying(host, step, env)
    requires EnvelopeOk(env) || !Given(step.fallback)
    ensures Discipline(host, step, payload, all)
    ensures Answer(step, all) == GateAssertion(step, env["attempts" := Num(|all| as real)])
    ensures forall c :: c in all ==> c.id == step.id
  {
    hide EnvelopeOk, WorthRetrying, MaxRetries, GateAssertion;
  }

  lemma {:induction false} ThenFallback<W>(host: Host<W>, step: Step, payload: Dict, all: seq<Call>, env: Dict, fb: Dict)
    requires Repeating(host, step, payload, all, env) && |all| <= MaxRetries(step) + 1
    requires |all| <= MaxRetries(step) ==> !WorthRetrying(host, step, env)
    requires !EnvelopeOk(env) && Given(step.fallback)
    ensures var calls := all + [Call(step.id, true, step.fallback.value, payload, fb)];
            && Discipline(host, step, payload, calls)
            && Answer(step, calls) == GateAssertion(step, FallbackEnvelope(step, env["attempts" := Num(|all| as real)], fb))
            && forall c :: c in calls ==> c.id == step.id
  {
    hide EnvelopeOk, WorthRetrying, MaxRetries, GateAssertion, FallbackEnvelope;
    var calls := all + [Call(step.id, true, step.fallback.value, payload, fb)];
    assert forall i :: 0 <= i < |all| ==> calls[i] == all[i];
  }

  /** What one resolution calls and comes to, and that it leaves the records alone. */
  lemma {:induction false} ResolveCalls<W>(host: Host<W>, st: State<W>, step: Step, payload: Dict)
    ensures var (st1, env) := ResolveStep(host, st, step, payload);
            && st.trace <= st1.trace
            && var calls := st1.trace[|st.trace|..];
            && Discipline(host, step, payload, calls) && env == Answer(step, calls)
            && (forall c :: c in calls ==> c.id == step.id)
            && st1 == st.(world := st1.world, trace := st1.trace)
  {
    hide WorthRetrying, GateAssertion, FallbackEnvelope, EnvelopeOk, MaxRetries, Repeat, Discipline, Answer;
    var (st1, env1) := RunUri(host, st, step, false, payload);
    var calls := [Call(step.id, false, step.uri, payload, env1)];
    RepeatCalls(host, st1, step, payload, env1, st.trace, calls);
    var (st2, env2, attempts) := Repeat(host, st1, step, payload, env1, 1);
    AttemptsKeepOk(env2, attempts);
    var all := st2.trace[|st.trace|..];
    hide Repeating, IsCall, Primaries;
    if !EnvelopeOk(env2) && Given(step.fallback) {
      var (st3, fb) := RunUri(host, st2, step, true, payload);
      assert st3.trace[|st.trace|..] == all + [Call(step.id, true, step.fallback.value, payload, fb)];
      ThenFallback(host, step, payload, all, env2, fb);
    } else {
      NoFallback(host, step, payload, all, env2);
    }
  }

  // ---------------------------------------------------------- the whole flow

  /** The calls made for a step. */
  function CallsOf(trace: seq<Call>, id: string): seq<Call> {
    if trace == [] then []
    else CallsOf(trace[..|trace| - 1], id) + if trace[|trace| - 1].id == id then [trace[|trace| - 1]] else []
  }

  lemma {:induction false} CallsOfAppend(t: seq<Call>, u: seq<Call>, id: string)
    ensures CallsOf(t + u, id) == CallsOf(t, id) + CallsOf(u, id)
    decreases |u|
  {
    if u == [] {
      assert t + u == t;
    } else {
      assert (t + u)[..|t + u| - 1] == t + u[..|u| - 1];
      CallsOfAppend(t, u[..|u| - 1], id);
    }
  }

  lemma {:induction false} CallsOfUniform(t: seq<Call>, id: string, other: string)
    requires forall i :: 0 <= i < |t| ==> t[i].id == id
    ensures CallsOf(t, other) == if other == id then t else []
    decreases |t|
  {
    if t != [] {
      var init, last := t[..|t| - 1], t[|t| - 1];
      assert last.id == id && t == init + [last];
      CallsOfUniform(init, id, other);
      assert CallsOf(t, other) == CallsOf(init, other) + if last.id == other then [last] else [];
      hide CallsOf;
      if other != id {
        assert CallsOf(t, other) == [] + [];
      }
    }
  }

  /** Step `i` comes after a step that failed and was told to abort the flow. */
  ghost predicate AbortedBefore(order: seq<Step>, status: map<string, Status>, i: nat)
    requires i <= |order|
  {
    exists j :: 0 <= j < i && order[j].catch_ == Some("abort") && order[j].id in status && status[order[j].id].Failed?
  }

  function Earlier(results: map<string, Dict>, order: seq<Step>, i: nat): map<string, Dict>
    requires i <= |order|
  {
    map id | id in results && id in Ids(order[..i]) :: results[id]
  }

  /** What is settled about step `i` of the order. */
  ghost predicate Explained<W>(host: Host<W>, st: State<W>, order: seq<Step>, i: nat)
    requires i < |order|
  {
    var s := order[i];
    && s.id in st.status && s.id in st.results
    // skipped exactly when the flow was aborted before, a dependency is not ok, or the payload dangles
    && (st.status[s.id].Skipped? <==>
          AbortedBefore(order, st.status, i) || !DepsOk(st.status, s) ||
          host.prepare(s, Earlier(st.results, order, i)).None?)
    && (if st.status[s.id].Skipped? then Unrun(st, s)
        else RunAs(host, st, s, host.prepare(s, Earlier(st.results, order, i)).value))
  }

  /** Not called, and recorded as skipped. */
  ghost predicate Unrun<W>(st: State<W>, s: Step)
    requires s.id in st.results
  {
    CallsOf(st.trace, s.id) == [] && Get(st.results[s.id], "skipped") == Bool(true) && Get(st.results[s.id], "ok") == Bool(false)
  }

  /** Called within its policy; what is recorded follows from the calls and from the degrade source. */
  ghost predicate RunAs<W>(host: Host<W>, st: State<W>, s: Step, payload: Dict)
    requires s.id in st.status && s.id in st.results
  {
    var calls := CallsOf(st.trace, s.id);
    && Discipline(host, s, payload, calls)
    && Concluded(st.status, st.results, s, Answer(s, calls), st.status[s.id], st.results[s.id])
  }

  ghost predicate Progress<W>(host: Host<W>, st: State<W>, order: seq<Step>, i: nat)
    requires i <= |order|
  {
    && st.keys == Ids(order[..i])
    && (forall id :: id in st.status <==> id in st.keys)
    && (forall id :: id in st.results <==> id in st.keys)
    && (forall c :: c in st.trace ==> c.id in st.keys)
    && (st.aborted <==> AbortedBefore(order, st.status, i))
    && forall k :: 0 <= k < i ==> Explained(host, st, order, k)
  }

  lemma {:induction false} CallsOfAbsent(t: seq<Call>, id: string)
    requires forall c :: c in t ==> c.id != id
    ensures CallsOf(t, id) == []
    decreases |t|
  {
    if t != [] {
      assert t[|t| - 1] in t;
      CallsOfAbsent(t[..|t| - 1], id);
    }
  }

  /** The shape of a turn: one more key, its own calls, everything else as it was. */
  ghost predicate OneMore<W>(host: Host<W>, st: State<W>, st1: State<W>, step: Step, calls: seq<Call>) {
    && st1.trace == st.trace + calls
    && (forall c :: c in calls ==> c.id == step.id)
    && st1.keys == st.keys + [step.id]
    && step.id in st1.status && step.id in st1.results
    && st1.status == st.status[step.id := st1.status[step.id]]
    && st1.results == st.results[step.id := st1.results[step.id]]
    && st1.aborted == (st.aborted || (step.catch_ == Some("abort") && st1.status[step.id].Failed?))
    && (st1.status[step.id].Skipped? <==>
          st.aborted || !DepsOk(st.status, step) || host.prepare(step, st.results).None?)
    && (if st1.status[step.id].Skipped? then
          calls == [] && Get(st1.results[step.id], "skipped") == Bool(true) && Get(st1.results[step.id], "ok") == Bool(false)
        else
          && Discipline(host, step, host.prepare(step, st.results).value, calls)
          && Concluded(st.status, st.results, step, Answer(step, calls), st1.status[step.id], st1.results[step.id]))
  }

  lemma {:induction false} SkipReads(step: Step, reason: string)
    ensures var env := SkipEnvelope(step, reason);
            Get(env, "skipped") == Bool(true) && Get(env, "ok") == Bool(false)
  {
  }

  lemma {:induction false} ConcludeShape<W>(st: State<W>, step: Step, env: Dict)
    ensures var st1 := Conclude(st, step, env);
            && step.id in st1.status && step.id in st1.results
            && st1 == Settle(st, step.id, st1.results[step.id], st1.status[step.id]).(aborted := st1.aborted)
            && st1.aborted == (st.aborted || (step.catch_ == Some("abort") && st1.status[step.id].Failed?))
            && !st1.status[step.id].Skipped?
            && Concluded(st.status, st.results, step, env, st1.status[step.id], st1.results[step.id])
  {
    hide EnvelopeOk, DegradedEnvelope;
  }

  lemma {:induction false} TurnShape<W>(host: Host<W>, st: State<W>, step: Step) returns (calls: seq<Call>)
    ensures OneMore(host, st, Turn(host, st, step), step, calls)
  {
    hide Discipline, ResolveStep, Answer, Conclude, Concluded, DepsOk;
    calls := [];
    if !st.aborted && DepsOk(st.status, step) && host.prepare(step, st.results).Some? {
      var payload := host.prepare(step, st.results).value;
      ResolveCalls(host, st, step, payload);
      var (st1, env) := ResolveStep(host, st, step, payload);
      ConcludeShape(st1, step, env);
      calls := st1.trace[|st.trace|..];
    } else {
      SkipReads(step, ABORT_REASON);
      SkipReads(step, DEPENDENCY_REASON);
      SkipReads(step, PAYLOAD_REASON);
    }
  }

  /** An order the flow can run in: distinct ids, edges lead backwards. */
  ghost predicate Runnable(order: seq<Step>) {
    Distinct(Ids(order)) && EdgesBefore(order)
  }

  lemma {:induction false} EarlierIds(order: seq<Step>, i: nat)
    requires Runnable(order) && i < |order|
    ensures order[i].id !in Ids(order[..i])
    ensures forall dep :: dep in order[i].dependsOn ==> dep in Ids(order[..i])
    ensures Given(order[i].degrade) ==> order[i].degrade.value in Ids(order[..i])
    ensures forall k, id :: 0 <= k <= i && id in Ids(order[..k]) ==> id in Ids(order[..i])
    ensures forall k :: 0 <= k < i ==> order[k].id in Ids(order[..i])
  {
    var s := order[i];
    forall j | 0 <= j < i ensures Ids(order[..i])[j] != s.id {
      assert Ids(order)[j] != Ids(order)[i];
    }
    forall dep | dep in s.dependsOn ensures dep in Ids(order[..i]) {
      assert dep in s.Edges();
    }
    if Given(s.degrade) {
      assert s.degrade.value in s.Edges();
    }
    forall k, id | 0 <= k <= i && id in Ids(order[..k]) ensures id in Ids(order[..i]) {
      var j :| 0 <= j < k && Ids(order[..k])[j] == id;
      assert Ids(order[..i])[j] == id;
    }
    forall k | 0 <= k < i ensures order[k].id in Ids(order[..i]) {
      assert Ids(order[..i])[k] == order[k].id;
    }
  }

  /** One more id settled, with its own calls. */
  ghost predicate SettlesOne<W>(st: State<W>, st1: State<W>, id: string, calls: seq<Call>) {
    && st1.trace == st.trace + calls
    && (forall c :: c in calls ==> c.id == id)
    && st1.keys == st.keys + [id]
    && id in st1.status && id in st1.results
    && st1.status == st.status[id := st1.status[id]]
    && st1.results == st.results[id := st1.results[id]]
  }

  lemma {:induction false} SameCalls<W>(st: State<W>, st1: State<W>, id: string, calls: seq<Call>, other: string)
    requires SettlesOne(st, st1, id, calls) && other != id
    ensures CallsOf(st1.trace, other) == CallsOf(st.trace, other)
  {
    CallsOfAppend(st.trace, calls, other);
    CallsOfAbsent(calls, other);
  }

  /** Settling one more id changes nothing that was said about earlier steps. */
  lemma {:induction false} StillExplained<W>(host: Host<W>, st: State<W>, st1: State<W>, order: seq<Step>, i: nat, calls: seq<Call>, k: nat)
    requires Runnable(order) && k < i < |order| && Explained(host, st, order, k)
    requires SettlesOne(st, st1, order[i].id, calls)
    ensures Explained(host, st1, order, k)
  {
    hide Discipline, CallsOf, Runnable, Answer, EnvelopeOk;
    var s, id := order[k], order[i].id;
    EarlierIds(order, i);
    EarlierIds(order, k);
    SameCalls(st, st1, id, calls, s.id);
    forall j | 0 <= j < k ensures order[j].id != id {
    }
    assert AbortedBefore(order, st1.status, k) <==> AbortedBefore(order, st.status, k);
    assert DepsOk(st1.status, s) <==> DepsOk(st.status, s);
    assert Earlier(st1.results, order, k) == Earlier(st.results, order, k);
    assert Given(s.degrade) ==> s.degrade.value != id;
  }

  lemma {:induction false} NowExplained<W>(host: Host<W>, st: State<W>, st1: State<W>, order: seq<Step>, i: nat, calls: seq<Call>)
    requires Runnable(order) && i < |order| && Progress(host, st, order, i)
    requires OneMore(host, st, st1, order[i], calls)
    ensures Explained(host, st1, order, i)
  {
    hide Discipline, CallsOf, Runnable, Answer, Concluded, RunAs;
    var s, id := order[i], order[i].id;
    EarlierIds(order, i);
    forall j | 0 <= j < i ensures order[j].id != id {
    }
    assert AbortedBefore(order, st1.status, i) <==> AbortedBefore(order, st.status, i);
    assert DepsOk(st1.status, s) <==> DepsOk(st.status, s);
    assert Earlier(st1.results, order, i) == st.results;
    CallsOfAppend(st.trace, calls, id);
    CallsOfAbsent(st.trace, id);
    forall j | 0 <= j < |calls| ensures calls[j].id == id {
      assert calls[j] in calls;
    }
    CallsOfUniform(calls, id, id);
    assert CallsOf(st1.trace, id) == calls;
    if !st1.status[id].Skipped? {
      NowRun(host, st, st1, s, host.prepare(s, st.results).value, calls);
    }
  }

  lemma {:induction false} NowRun<W>(host: Host<W>, st: State<W>, st1: State<W>, s: Step, payload: Dict, calls: seq<Call>)
    requires SettlesOne(st, st1, s.id, calls) && CallsOf(st1.trace, s.id) == calls && Discipline(host, s, payload, calls)
    requires Concluded(st.status, st.results, s, Answer(s, calls), st1.status[s.id], st1.results[s.id])
    requires Given(s.degrade) ==> s.degrade.value != s.id
    ensures RunAs(host, st1, s, payload)
  {
    hide CallsOf, Answer, EnvelopeOk, Discipline;
  }

  lemma {:induction false} TurnProgress<W>(host: Host<W>, st: State<W>, order: seq<Step>, i: nat)
    requires Runnable(order) && i < |order| && Progress(host, st, order, i)
    ensures Progress(host, Turn(host, st, order[i]), order, i + 1)
  {
    hide Turn, Explained, Discipline, Runnable, Concluded, Answer, DepsOk, AbortedBefore;
    var st1 := Turn(host, st, order[i]);
    var calls := TurnShape(host, st, order[i]);
    forall k | 0 <= k < i + 1 ensures Explained(host, st1, order, k) {
      if k < i {
        StillExplained(host, st, st1, order, i, calls, k);
      } else {
        NowExplained(host, st, st1, order, i, calls);
      }
    }
    EarlierIds(order, i);
    assert order[..i + 1] == order[..i] + [order[i]];
    assert Ids(order[..i + 1]) == Ids(order[..i]) + [order[i].id];
    AbortedAfter(order, st.status, st1.status, i);
  }

  lemma {:induction false} AbortedAfter(order: seq<Step>, status: map<string, Status>, status1: map<string, Status>, i: nat)
    requires Runnable(order) && i < |order| && order[i].id in status1
    requires status1 == status[order[i].id := status1[order[i].id]]
    ensures AbortedBefore(order, status1, i + 1) <==>
            AbortedBefore(order, status, i) || (order[i].catch_ == Some("abort") && status1[order[i].id].Failed?)
  {
    EarlierIds(order, i);
    forall j | 0 <= j < i ensures order[j].id != order[i].id {
      assert order[j].id in Ids(order[..i]);
    }
    hide Runnable;
  }

  lemma {:induction false} RunProgress<W>(host: Host<W>, st: State<W>, order: seq<Step>, i: nat)
    requires Runnable(order) && i <= |order| && Progress(host, st, order, i)
    ensures Progress(host, RunAll(host, st, order[i..]), order, |order|)
    decreases |order| - i
  {
    hide Progress, Turn;
    if i < |order| {
      TurnProgress(host, st, order, i);
      assert order[i..][1..] == order[i + 1..];
      RunProgress(host, Turn(host, st, order[i]), order, i + 1);
    }
  }

  /**
   Run semantics.  Every step gets exactly one envelope, in order; it is skipped
   exactly when an abort came before, a dependency did not succeed or its payload
   dangles; otherwise it is called within its retry policy.
   */
  lemma {:induction false} RunSemantics<W>(host: Host<W>, w: W, order: seq<Step>)
    requires Runnable(order)
    ensures Progress(host, RunAll(host, Fresh(w), order), order, |order|)
    ensures RunAll(host, Fresh(w), order).keys == Ids(order)
  {
    assert order[0..] == order && order[..|order|] == order;
    RunProgress(host, Fresh(w), order, 0);
  }

  /** A chain of dependencies. */
  ghost predicate Chain(order: seq<Step>, p: seq<Step>) {
    && p != [] && (forall s :: s in p ==> s in order)
    && forall k :: 0 <= k < |p| - 1 ==> p[k].id in p[k + 1].dependsOn
  }

  /** Every transitive dependent of a step that failed or was skipped is skipped. */
  lemma {:induction false} DependentsSkip<W>(host: Host<W>, w: W, order: seq<Step>, p: seq<Step>)
    requires Runnable(order) && Chain(order, p) && |p| >= 2
    requires !IsOk(RunAll(host, Fresh(w), order).status, p[0].id)
    ensures var st := RunAll(host, Fresh(w), order);
            && p[|p| - 1].id in st.status && st.status[p[|p| - 1].id].Skipped?
            && CallsOf(st.trace, p[|p| - 1].id) == []
    decreases |p|
  {
    hide Turn, Discipline;
    RunSemantics(host, w, order);
    var st := RunAll(host, Fresh(w), order);
    var s, before := p[|p| - 1], p[|p| - 2];
    if |p| > 2 {
      var q := p[..|p| - 1];
      forall x | x in q ensures x in order {
        assert x in p;
      }
      assert Chain(order, q);
      DependentsSkip(host, w, order, q);
    }
    assert before.id in s.dependsOn && !IsOk(st.status, before.id);
    assert s in p;
    var i :| 0 <= i < |order| && order[i] == s;
    assert Explained(host, st, order, i);
  }

  // ------------------------------------------------------------------ summary

  /** Where a flow first went wrong. */
  datatype FirstError = FirstError(step: string, uri: Value, category: Value, error: Value)

  datatype Summary = Summary(kind: string, live: bool, ok: bool, steps: nat, succeeded: seq<string>, degraded: seq<string>, failed: seq<string>, skipped: seq<string>)

  datatype Bucket = InSucceeded | InDegraded | InFailed | InSkipped

  function BucketOf(env: Dict): Bucket {
    if Truthy(Get(env, "skipped")) then InSkipped
    else if Truthy(Get(env, "degraded")) then InDegraded
    else if EnvelopeOk(env) then InSucceeded
    else InFailed
  }

  /** The ids of a bucket, in order. */
  function Pick(keys: seq<string>, results: map<string, Dict>, b: Bucket): seq<string>
    requires forall id :: id in keys ==> id in results
  {
    if keys == [] then []
    else
      var init, id := keys[..|keys| - 1], keys[|keys| - 1];
      Pick(init, results, b) + if BucketOf(results[id]) == b then [id] else []
  }

  function ErrorOf<W>(host: Host<W>, id: string, env: Dict): FirstError {
    FirstError(id, Get(env, "uri"), ErrorCategory(host, env), Get(env, "error"))
  }

  /** `flow_summary`: the first error is that of the first id in the failed bucket. */
  method FlowSummary<W>(host: Host<W>, keys: seq<string>, results: map<string, Dict>)
    returns (s: Summary, firstError: Option<FirstError>)
    requires forall id :: id in keys ==> id in results
    ensures s.steps == |keys| && (s.ok <==> s.failed == [])
    ensures !s.live && s.kind == if exists id :: id in keys && BucketOf(results[id]) == InFailed then "flow-failure" else "flow-result"
    ensures s.succeeded == Pick(keys, results, InSucceeded) && s.degraded == Pick(keys, results, InDegraded)
    ensures s.failed == Pick(keys, results, InFailed) && s.skipped == Pick(keys, results, InSkipped)
    ensures s.failed == [] ==> firstError == None
    ensures s.failed != [] ==> s.failed[0] in results && firstError == Some(ErrorOf(host, s.failed[0], results[s.failed[0]]))
  {
    s, firstError := Summary("", false, true, |keys|, [], [], [], []), None;
    for i := 0 to |keys|
      invariant s.steps == |keys| && (s.ok <==> s.failed == []) && !s.live
      invariant s.succeeded == Pick(keys[..i], results, InSucceeded) && s.degraded == Pick(keys[..i], results, InDegraded)
      invariant s.failed == Pick(keys[..i], results, InFailed) && s.skipped == Pick(keys[..i], results, InSkipped)
      invariant s.failed == [] ==> firstError == None
      invariant s.failed != [] ==> s.failed[0] in results && firstError == Some(ErrorOf(host, s.failed[0], results[s.failed[0]]))
    {
      var id := keys[i];
      var env := results[id];
      assert keys[..i + 1][..i] == keys[..i];
      if Truthy(Get(env, "skipped")) {
        s := s.(skipped := s.skipped + [id]);
      } else if Truthy(Get(env, "degraded")) {
        s := s.(degraded := s.degraded + [id]);
      } else if EnvelopeOk(env) {
        s := s.(succeeded := s.succeeded + [id]);
      } else {
        s := s.(ok := false, failed := s.failed + [id]);
        if firstError.None? {
          firstError := Some(ErrorOf(host, id, env));
        }
      }
    }
    assert keys[..|keys|] == keys;
    PickMembers(keys, results, InFailed);
    assert s.failed != [] ==> s.failed[0] in s.failed;
    s := s.(kind := if s.failed != [] then "flow-failure" else "flow-result");
  }

  lemma {:induction false} PickMembers(keys: seq<string>, results: map<string, Dict>, b: Bucket)
    requires forall id :: id in keys ==> id in results
    ensures forall id :: id in Pick(keys, results, b) <==> id in keys && BucketOf(results[id]) == b
    decreases |keys|
  {
    if keys != [] {
      var init, last := keys[..|keys| - 1], keys[|keys| - 1];
      assert keys == init + [last];
      PickMembers(init, results, b);
    }
  }

  /** The summary files an id under the status the run recorded for it. */
  predicate FiledAsRecorded(status: Status, env: Dict) {
    match BucketOf(env)
    case InSkipped => status.Skipped?
    case InFailed => status.Failed?
    case InSucceeded => status.Succeeded?
    case InDegraded => status.Succeeded?
  }

  /** What a status says about the envelope it was recorded with. */
  ghost predicate StatusFits(status: Status, env: Dict) {
    match status
    case Skipped => Truthy(Get(env, "skipped"))
    case Succeeded => EnvelopeOk(env) || (Truthy(Get(env, "degraded")) && !Truthy(Get(env, "skipped")))
    case Failed => !EnvelopeOk(env)
  }

  lemma {:induction false} ConcludedFits(status: map<string, Status>, results: map<string, Dict>, step: Step, env: Dict,
                                         outcome: Status, record: Dict)
    requires Concluded(status, results, step, env, outcome, record)
    ensures StatusFits(outcome, record)
  {
    hide EnvelopeOk;
  }

  lemma {:induction false} TurnFits<W>(host: Host<W>, st: State<W>, step: Step)
    requires forall id :: id in st.status ==> id in st.results && StatusFits(st.status[id], st.results[id])
    ensures var st1 := Turn(host, st, step);
            forall id :: id in st1.status ==> id in st1.results && StatusFits(st1.status[id], st1.results[id])
  {
    hide Turn, Answer, Concluded, WorthRetrying, MaxRetries, IsCall;
    var st1 := Turn(host, st, step);
    var calls := TurnShape(host, st, step);
    if !st1.status[step.id].Skipped? {
      ConcludedFits(st.status, st.results, step, Answer(step, calls), st1.status[step.id], st1.results[step.id]);
    }
    assert StatusFits(st1.status[step.id], st1.results[step.id]);
    hide StatusFits;
  }

  lemma {:induction false} RunFits<W>(host: Host<W>, st: State<W>, order: seq<Step>)
    requires forall id :: id in st.status ==> id in st.results && StatusFits(st.status[id], st.results[id])
    ensures var st1 := RunAll(host, st, order);
            forall id :: id in st1.status ==> id in st1.results && StatusFits(st1.status[id], st1.results[id])
    decreases |order|
  {
    if order != [] {
      hide Turn, StatusFits;
      TurnFits(host, st, order[0]);
      var st1 := Turn(host, st, order[0]);
      RunFits(host, st1, order[1..]);
      assert RunAll(host, st, order) == RunAll(host, st1, order[1..]);
    }
  }

  /**
   The summary agrees with the recorded status of an id if and only if no connector
   put a `skipped` of its own into the envelope of a step that ran, nor a `degraded`
   into one that failed.
   */
  lemma {:induction false} SummaryAgrees<W>(host: Host<W>, w: W, order: seq<Step>, id: string)
    requires Runnable(order) && id in Ids(order)
    ensures var st := RunAll(host, Fresh(w), order);
            && id in st.status && id in st.results
            && (FiledAsRecorded(st.status[id], st.results[id]) <==>
                  (!st.status[id].Skipped? ==> !Truthy(Get(st.results[id], "skipped"))) &&
                  (st.status[id].Failed? ==> !Truthy(Get(st.results[id], "degraded"))))
  {
    hide Turn, EnvelopeOk;
    RunSemantics(host, w, order);
    assert order[..|order|] == order;
    RunFits(host, Fresh(w), order);
  }

  /** The four buckets hold every id of the run, each in exactly one. */
  lemma {:induction false} SummaryPartitions<W>(host: Host<W>, w: W, order: seq<Step>, id: string)
    requires Runnable(order)
    ensures var st := RunAll(host, Fresh(w), order);
            && (forall k :: k in st.keys ==> k in st.results)
            && (id in Ids(order) <==> exists b :: id in Pick(st.keys, st.results, b))
            && forall b, c :: id in Pick(st.keys, st.results, b) && id in Pick(st.keys, st.results, c) ==> b == c
  {
    hide Turn, BucketOf;
    RunSemantics(host, w, order);
    assert order[..|order|] == order;
    var st := RunAll(host, Fresh(w), order);
    forall b ensures id in Pick(st.keys, st.results, b) <==> id in st.keys && BucketOf(st.results[id]) == b {
      PickMembers(st.keys, st.results, b);
    }
    if id in st.keys {
      assert id in Pick(st.keys, st.results, BucketOf(st.results[id]));
    }
  }

  /** A connector that succeeds and puts a `skipped` of its own into its envelope. */
  const CLAIMANT: Host<int> := Host(
    (w: int, uri: string, p: Dict) => (w, map["ok" := Bool(true), "skipped" := Bool(true)]),
    (step: Step, results: map<string, Dict>) => Some(map[]),
    (err: Dict) => Null)

  const PLAIN := Step("a", "x://n/r", None, None, map[], [], None, None, None, None, None)

  /** Its step is recorded as succeeded and filed as skipped. */
  lemma {:induction false} MisfiledExample()
    ensures var st := RunAll(CLAIMANT, Fresh(0), [PLAIN]);
            && Runnable([PLAIN]) && st.status == map["a" := Succeeded] && "a" in st.results
            && BucketOf(st.results["a"]) == InSkipped && !FiledAsRecorded(st.status["a"], st.results["a"])
  {
    assert Ids([PLAIN]) == ["a"] && PLAIN.Edges() == [];
    var st := Fresh(0);
    ClaimantAnswers(st);
    assert Turn(CLAIMANT, st, PLAIN) == Conclude(ResolveStep(CLAIMANT, st, PLAIN, map[]).0, PLAIN, CLAIMED);
    assert [PLAIN][1..] == [];
    hide ResolveStep;
    assert RunAll(CLAIMANT, st, [PLAIN]) == RunAll(CLAIMANT, Turn(CLAIMANT, st, PLAIN), []);
  }

  const CLAIMED: Dict := map["ok" := Bool(true), "skipped" := Bool(true), "attempts" := Num(1.0)]

  lemma {:induction false} ClaimantAnswers(st: State<int>)
    ensures var (st1, env) := ResolveStep(CLAIMANT, st, PLAIN, map[]);
            env == CLAIMED && st1 == st.(trace := st1.trace) && EnvelopeOk(env)
  {
    var (st1, env1) := RunUri(CLAIMANT, st, PLAIN, false, map[]);
    assert EnvelopeOk(env1) && Repeat(CLAIMANT, st1, PLAIN, map[], env1, 1) == (st1, env1, 1);
    assert env1["attempts" := Num(1 as real)] == CLAIMED;
    assert GateAssertion(PLAIN, CLAIMED) == CLAIMED;
  }

  // -------------------------------------------------------------- the methods

  class Runner<W> {
    const host: Host<W>
    var world: W
    ghost var trace: seq<Call>
    var keys: seq<string>
    var results: map<string, Dict>
    var status: map<string, Status>
    var aborted: bool

    constructor (host: Host<W>, world: W)
      ensures this.host == host && Now() == Fresh(world)
    {
      this.host, this.world := host, world;
      trace, keys, results, status, aborted := [], [], map[], map[], false;
    }

    ghost function Now(): State<W>
      reads this
    {
      State(world, trace, keys, results, status, aborted)
    }

    method RunCall(step: Step, fallback: bool, payload: Dict) returns (env: Dict)
      requires fallback ==> Given(step.fallback)
      modifies this
      ensures (Now(), env) == RunUri(host, old(Now()), step, fallback, payload)
    {
      var uri := if fallback then step.fallback.value else step.uri;
      var (w, e) := host.run(world, uri, payload);
      world, env := w, e;
      trace := trace + [Call(step.id, fallback, uri, payload, env)];
    }

    method Resolve(step: Step, payload: Dict) returns (env: Dict)
      modifies this
      ensures (Now(), env) == ResolveStep(host, old(Now()), step, payload)
    {
      env := RunCall(step, false, payload);
      ghost var st1, env1 := Now(), env;
      var attempts := 1;
      while WorthRetrying(host, step, env) && attempts <= MaxRetries(step)
        invariant Repeat(host, Now(), step, payload, env, attempts) == Repeat(host, st1, step, payload, env1, 1)
        decreases MaxRetries(step) + 1 - attempts
      {
        env := RunCall(step, false, payload);
        attempts := attempts + 1;
      }
      env := env["attempts" := Num(attempts as real)];
      if !EnvelopeOk(env) && Given(step.fallback) {
        var fb := RunCall(step, true, payload);
        env := FallbackEnvelope(step, env, fb);
      }
      env := GateAssertion(step, env);
    }

    method Store(id: string, env: Dict, s: Status)
      modifies this
      ensures Now() == Settle(old(Now()), id, env, s)
    {
      keys, results, status := keys + [id], results[id := env], status[id := s];
    }

    /** Record a skip and say so when the step must not run. */
    method PrereqSkip(step: Step) returns (skip: bool)
      modifies this
      ensures skip <==> old(aborted) || !DepsOk(old(status), step)
      ensures Now() ==
              if old(aborted) then Settle(old(Now()), step.id, SkipEnvelope(step, ABORT_REASON), Skipped)
              else if skip then Settle(old(Now()), step.id, SkipEnvelope(step, DEPENDENCY_REASON), Skipped)
              else old(Now())
    {
      if aborted {
        Store(step.id, SkipEnvelope(step, ABORT_REASON), Skipped);
        return true;
      }
      if !DepsOk(status, step) {
        Store(step.id, SkipEnvelope(step, DEPENDENCY_REASON), Skipped);
        return true;
      }
      return false;
    }

    method RunStep(step: Step)
      modifies this
      ensures Now() == Turn(host, old(Now()), step)
    {
      var skip := PrereqSkip(step);
      if skip {
        return;
      }
      var payload := host.prepare(step, results);
      if payload.None? {
        Store(step.id, SkipEnvelope(step, PAYLOAD_REASON), Skipped);
        return;
      }
      var env := Resolve(step, payload.value);
      var ok := EnvelopeOk(env);
      var degraded: Option<Dict> := None;
      if !ok && Given(step.degrade) && IsOk(status, step.degrade.value) && step.degrade.value in results {
        env := map["uri" := Str(step.uri), "ok" := Bool(true), "degraded" := Bool(true),
                   "degradedFrom" := Str(step.degrade.value), "primaryError" := Get(env, "error"),
                   "result" := Get(results[step.degrade.value], "result"),
                   "kind" := Str("degraded"), "live" := Bool(false)];
        ok := true;
      }
      Store(step.id, env, if ok then Succeeded else Failed);
      if !ok && step.catch_ == Some("abort") {
        aborted := true;
      }
    }

    /** `run_flow`: order the flow, then one turn for each step. */
    method RunFlow(steps: seq<Step>) returns (ghost order: seq<Step>)
      requires Valid(steps)
      modifies this
      ensures Topological(steps, order)
      ensures Now() == RunAll(host, old(Now()), order)
    {
      var todo := Order(steps);
      order := todo;
      ghost var st0 := Now();
      for i := 0 to |todo|
        invariant RunAll(host, Now(), todo[i..]) == RunAll(host, st0, todo)
      {
        assert todo[i..][1..] == todo[i + 1..];
        RunStep(todo[i]);
      }
    }
  }
}
