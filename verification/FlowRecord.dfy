/**
 What a run of a flow records, read off the answers in its trace: fields of the last
 call's answer, and what the runner itself writes.
 */
module FlowRecord {
  import opened Text
  import opened Json
  import opened FlowGraph
  import opened FlowRun

  // ------------------------------------------------------ fields of an answer

  /** The connector's value in an answer: under `result.value` if that is an object. */
  predicate Wrapped(r: Dict) {
    "result" in r && r["result"].Obj? && "value" in r["result"].fields && r["result"].fields["value"].Obj?
  }

  /** The answer is ok, and neither its result nor the value in it says otherwise. */
  predicate WentWell(r: Dict) {
    && "ok" in r && !Falsy(r["ok"])
    && ("result" in r ==> !Has(r["result"], "ok", Bool(false)))
    && (Wrapped(r) ==> !Has(r["result"].fields["value"], "ok", Bool(false)))
  }

  /** The value says that an assertion did not pass. */
  predicate NotPassed(r: Dict) {
    if Wrapped(r) then Has(r["result"].fields["value"], "passed", Bool(false))
    else "result" in r && Has(r["result"], "passed", Bool(false))
  }

  /** An assertion that ran, and whose value says it did not pass. */
  predicate Gated(s: Step, r: Dict) {
    s.kind == Some("assertion") && "ok" in r && !Falsy(r["ok"]) && NotPassed(r)
  }

  lemma {:induction false} OkReads(r: Dict)
    ensures EnvelopeOk(r) <==> WentWell(r)
  {
    if "ok" in r {
      FalsyIsFalse(r["ok"]);
    }
    hide Truthy, Falsy;
    assert !Truthy(Null) by { FalsyIsFalse(Null); assert Falsy(Null); }
  }

  /** The record is the answer, but for what the runner writes. */
  predicate Keeps(record: Dict, answer: Dict, written: set<string>) {
    forall k :: k in record.Keys + answer.Keys && k !in written ==> k in record && k in answer && record[k] == answer[k]
  }

  /** The last call of a resolution is the fallback's. */
  predicate FellBack(calls: seq<Call>) { calls != [] && calls[|calls| - 1].fallback }

  function LastResult(calls: seq<Call>): Dict
    requires calls != []
  {
    calls[|calls| - 1].result
  }

  const FALLBACK_FIELDS: set<string> := {"fallbackUsed", "fallbackFor", "primaryError"}

  predicate HasError(r: Dict) { "error" in r && r["error"] != Null }

  /** What the runner writes into the answer of a fallback: that it is one, for which step, and why. */
  predicate FallbackRecorded(s: Step, primary: Dict, answer: Dict, record: Dict) {
    && Keeps(record, answer, if HasError(primary) then FALLBACK_FIELDS else FALLBACK_FIELDS - {"primaryError"})
    && "fallbackUsed" in record && record["fallbackUsed"] == Bool(true)
    && "fallbackFor" in record && record["fallbackFor"] == Str(s.uri)
    && (HasError(primary) ==> "primaryError" in record && record["primaryError"] == primary["error"])
  }

  /** And into the answer of the step's own URI: how often it was called. */
  predicate PlainRecorded(n: nat, answer: Dict, record: Dict) {
    Keeps(record, answer, {"attempts"}) && "attempts" in record && record["attempts"] == Num(n as real)
  }

  /** The answer of the last call, with what the runner writes into it. */
  predicate Recorded(s: Step, calls: seq<Call>, record: Dict) {
    if FellBack(calls) then
      |calls| >= 2 && FallbackRecorded(s, calls[|calls| - 2].result, LastResult(calls), record)
    else calls != [] && PlainRecorded(|calls|, LastResult(calls), record)
  }

  /** An assertion turned down: `record` but for ok and error. */
  predicate TurnedDown(s: Step, record: Dict, down: Dict) {
    && Keeps(down, record, {"ok", "error"})
    && "ok" in down && down["ok"] == Bool(false)
    && "error" in down && Has(down["error"], "category", Str("FAILED_PRECONDITION")) && Has(down["error"], "type", Str("assertion"))
    && Has(down["error"], "message", Str("assertion '" + s.id + "' did not pass"))
  }

  /** A resolution comes to the answer of its last call, which only an assertion turns down. */
  ghost predicate ComesTo(s: Step, calls: seq<Call>, env: Dict) {
    && calls != []
    && exists record :: Recorded(s, calls, record) && if Gated(s, LastResult(calls)) then TurnedDown(s, record, env) else env == record
  }

  lemma {:induction false} AnswerComesTo<W>(host: Host<W>, s: Step, payload: Dict, calls: seq<Call>)
    requires Discipline(host, s, payload, calls)
    ensures ComesTo(s, calls, Answer(s, calls))
    ensures EnvelopeOk(Answer(s, calls)) <==> WentWell(LastResult(calls)) && !Gated(s, LastResult(calls))
  {
    hide WorthRetrying, MaxRetries, EnvelopeOk, Recorded, Gated, WentWell, TurnedDown, GateAssertion, FallbackEnvelope;
    var n := Primaries(calls);
    var primary := calls[n - 1].result["attempts" := Num(n as real)];
    var record := if n < |calls| then FallbackEnvelope(s, primary, calls[n].result) else primary;
    RecordReads(host, s, payload, calls, record);
    GateReads(s, record);
    SameReading(s, record, LastResult(calls));
    GateComesTo(s, record);
  }

  lemma {:induction false} RecordReads<W>(host: Host<W>, s: Step, payload: Dict, calls: seq<Call>, record: Dict)
    requires Discipline(host, s, payload, calls)
    requires var n := Primaries(calls);
             var primary := calls[n - 1].result["attempts" := Num(n as real)];
             record == if n < |calls| then FallbackEnvelope(s, primary, calls[n].result) else primary
    ensures Recorded(s, calls, record) && Keeps(record, LastResult(calls), FALLBACK_FIELDS + {"attempts"})
  {
    hide WorthRetrying, MaxRetries, EnvelopeOk;
    var n := Primaries(calls);
    assert n < |calls| ==> IsCall(s, payload, calls[n], true) && |calls| == n + 1;
    assert IsCall(s, payload, calls[n - 1], false);
    hide IsCall, Discipline;
    if n < |calls| {
      FallbackReads(s, calls[n - 1].result, n, calls[n].result);
    }
  }

  lemma {:induction false} FallbackReads(s: Step, primary: Dict, n: nat, answer: Dict)
    ensures FallbackRecorded(s, primary, answer, FallbackEnvelope(s, primary["attempts" := Num(n as real)], answer))
  {
  }

  /** The gate turns an answer down exactly when it is gated. */
  lemma {:induction false} GateReads(s: Step, env: Dict)
    ensures Gated(s, env) ==> TurnedDown(s, env, GateAssertion(s, env))
    ensures !Gated(s, env) ==> GateAssertion(s, env) == env
  {
    if "ok" in env {
      FalsyIsFalse(env["ok"]);
    }
    assert !Truthy(Null);
    hide Falsy, Truthy;
  }

  /** Fields the runner does not write are read alike. */
  lemma {:induction false} SameReading(s: Step, a: Dict, b: Dict)
    requires Keeps(a, b, FALLBACK_FIELDS + {"attempts"})
    ensures WentWell(a) <==> WentWell(b)
    ensures Gated(s, a) <==> Gated(s, b)
  {
    assert forall k :: k in {"ok", "result"} ==> ((k in a <==> k in b) && (k in a ==> a[k] == b[k]));
    hide Falsy;
  }

  lemma {:induction false} GateComesTo(s: Step, env: Dict)
    ensures EnvelopeOk(GateAssertion(s, env)) <==> WentWell(env) && !Gated(s, env)
  {
    OkReads(GateAssertion(s, env));
    GateReads(s, env);
    assert Falsy(Bool(false));
    hide EnvelopeOk, GateAssertion, Falsy;
    if Gated(s, env) {
      assert !WentWell(GateAssertion(s, env));
    } else {
      OkReads(env);
    }
  }

  // ------------------------------------------------------------ the policy

  /** The category of a failed answer: the one it names, else what its error is classified as. */
  predicate Category<W>(host: Host<W>, r: Dict, category: string) {
    && "error" in r && r["error"].Obj? && r["error"].fields != map[]
    && var err := r["error"].fields;
       if "category" in err && !Falsy(err["category"]) then err["category"] == Str(category) else host.classify(err) == Str(category)
  }

  /** What a step may be tried again for. */
  predicate Listed(s: Step, category: string) {
    if s.retry.Some? && "on" in s.retry.value && s.retry.value["on"].Arr? && s.retry.value["on"].items != []
    then Str(category) in s.retry.value["on"].items
    else category in {"UNAVAILABLE", "DEADLINE_EXCEEDED", "RESOURCE_EXHAUSTED", "ABORTED"}
  }

  lemma {:induction false} WorthReads<W>(host: Host<W>, s: Step, r: Dict)
    ensures WorthRetrying(host, s, r) <==> !WentWell(r) && exists category :: Category(host, r, category) && Listed(s, category)
  {
    OkReads(r);
    hide EnvelopeOk, WentWell;
    CategoryReads(host, r);
    ListedReads(s);
    hide ErrorCategory, RetryOn, Category, Listed;
    if ErrorCategory(host, r).Str? {
      assert Category(host, r, ErrorCategory(host, r).s);
    }
  }

  lemma {:induction false} CategoryReads<W>(host: Host<W>, r: Dict)
    ensures forall category :: Category(host, r, category) <==> ErrorCategory(host, r) == Str(category)
  {
    if "error" in r && r["error"].Obj? && "category" in r["error"].fields {
      FalsyIsFalse(r["error"].fields["category"]);
    }
    FalsyIsFalse(Null);
    hide Falsy, Truthy;
  }

  lemma {:induction false} ListedReads(s: Step)
    ensures forall category :: Listed(s, category) <==> category in RetryOn(s)
  {
  }

  /** The number under `max` is `n`, or less than one more. */
  predicate Between(retry: Dict, n: int) {
    "max" in retry && retry["max"].Num? && n >= 0 && n as real <= retry["max"].n < (n + 1) as real
  }

  /** How often at most a step is tried again. */
  lemma {:induction false} MaxReads(s: Step, n: int)
    ensures s.retry.None? || "max" !in s.retry.value ==> MaxRetries(s) == 0
    ensures s.retry.Some? && "max" in s.retry.value && s.retry.value["max"] == Num(n as real) ==>
              MaxRetries(s) == if n < 0 then 0 else n
    ensures s.retry.Some? && Between(s.retry.value, n) ==> MaxRetries(s) == n
  {
  }

  // ----------------------------------------------------------- over a flow
  // ----------------------------------------------------------- over a flow

  /** The envelope a degrade source gives in place of a failed one. */
  predicate Degraded(s: Step, source: Dict, env: Dict, record: Dict) {
    && s.degrade.Some?
    && "ok" in record && record["ok"] == Bool(true) && "degraded" in record && record["degraded"] == Bool(true)
    && "degradedFrom" in record && record["degradedFrom"] == Str(s.degrade.value)
    && "uri" in record && record["uri"] == Str(s.uri)
    && "kind" in record && record["kind"] == Str("degraded") && "live" in record && record["live"] == Bool(false)
    && "result" in record && record["result"] == (if "result" in source then source["result"] else Null)
    && "primaryError" in record && record["primaryError"] == (if "error" in env then env["error"] else Null)
  }

  /** The step names a degrade source that succeeded before it. */
  predicate CanDegrade(status: map<string, Status>, results: map<string, Dict>, s: Step) {
    && s.degrade.Some? && s.degrade.value != ""
    && s.degrade.value in status && status[s.degrade.value] == Succeeded && s.degrade.value in results
  }

  /** What is settled for a step whose calls came to `env`. */
  ghost predicate SettledAs(status: map<string, Status>, results: map<string, Dict>, s: Step, calls: seq<Call>, env: Dict)
    requires s.id in status && s.id in results && calls != []
  {
    if WentWell(LastResult(calls)) && !Gated(s, LastResult(calls)) then status[s.id] == Succeeded && results[s.id] == env
    else if CanDegrade(status, results, s) then
      status[s.id] == Succeeded && Degraded(s, results[s.degrade.value], env, results[s.id])
    else status[s.id] == Failed && results[s.id] == env
  }

  ghost predicate Settled(status: map<string, Status>, results: map<string, Dict>, s: Step, calls: seq<Call>)
    requires s.id in status && s.id in results
  {
    calls != [] && exists env :: ComesTo(s, calls, env) && SettledAs(status, results, s, calls, env)
  }

  lemma {:induction false} ConcludedSettles(status: map<string, Status>, results: map<string, Dict>, s: Step, calls: seq<Call>, env: Dict)
    requires s.id in status && s.id in results && calls != [] && ComesTo(s, calls, env)
    requires EnvelopeOk(env) <==> WentWell(LastResult(calls)) && !Gated(s, LastResult(calls))
    requires Concluded(status, results, s, env, status[s.id], results[s.id])
    ensures Settled(status, results, s, calls)
  {
    hide EnvelopeOk, ComesTo, WentWell, Gated;
    DegradeReads(status, results, s, env);
    assert SettledAs(status, results, s, calls, env);
  }

  lemma {:induction false} DegradeReads(status: map<string, Status>, results: map<string, Dict>, s: Step, env: Dict)
    ensures DegradedEnvelope(status, results, s, env).Some? <==> CanDegrade(status, results, s)
    ensures CanDegrade(status, results, s) ==>
              Degraded(s, results[s.degrade.value], env, DegradedEnvelope(status, results, s, env).value)
  {
  }

  /**
   Over every flow: a step that was called is settled by the answer of its last call, be
   it the step's own or its fallback's.  It has succeeded exactly when that answer went
   well and no assertion turned it down, or a degrade source stands in for it; and its
   record is that answer with what the runner writes, or the source's.
   */
  lemma {:induction false} LastAnswerSettles<W>(host: Host<W>, w: W, order: seq<Step>, i: nat)
    requires Runnable(order) && i < |order|
    ensures var st, s := RunAll(host, Fresh(w), order), order[i];
            && s.id in st.status && s.id in st.results
            && (!st.status[s.id].Skipped? ==> Settled(st.status, st.results, s, CallsOf(st.trace, s.id)))
  {
    hide RunAll, Settled, Concluded, Discipline, Answer;
    RunSemantics(host, w, order);
    var st, s := RunAll(host, Fresh(w), order), order[i];
    assert Explained(host, st, order, i);
    if !st.status[s.id].Skipped? {
      var calls := CallsOf(st.trace, s.id);
      AnswerComesTo(host, s, host.prepare(s, Earlier(st.results, order, i)).value, calls);
      ConcludedSettles(st.status, st.results, s, calls, Answer(s, calls));
    }
  }

  /** In particular without assertion and degrade source: succeeded if and only if the last answer went well. */
  lemma {:induction false} SucceededExactly<W>(host: Host<W>, w: W, order: seq<Step>, i: nat)
    requires Runnable(order) && i < |order| && order[i].kind != Some("assertion") && order[i].degrade.None?
    ensures var st, s := RunAll(host, Fresh(w), order), order[i];
            s.id in st.status && s.id in st.results &&
            var calls := CallsOf(st.trace, s.id);
            !st.status[s.id].Skipped? ==>
              calls != [] && Recorded(s, calls, st.results[s.id]) &&
              (st.status[s.id] == Succeeded <==> WentWell(LastResult(calls)))
  {
    hide RunAll, Recorded, WentWell, TurnedDown;
    LastAnswerSettles(host, w, order, i);
  }

  /** The first choices among the calls of a step. */
  function FirstChoices(calls: seq<Call>): nat { if FellBack(calls) then |calls| - 1 else |calls| }

  /** The calls of a step follow its policy: whom they ask, with what, and when they are repeated. */
  ghost predicate FollowsPolicy<W>(host: Host<W>, s: Step, payload: Dict, calls: seq<Call>) {
    var n := FirstChoices(calls);
    && 1 <= n <= MaxRetries(s) + 1
    && (forall i :: 0 <= i < n ==> calls[i].uri == s.uri && !calls[i].fallback)
    && (forall i :: 0 <= i < |calls| ==> calls[i].payload == payload)
    && (forall i :: 0 <= i < n - 1 ==> Retriable(host, s, calls[i].result))
    && (n <= MaxRetries(s) ==> !Retriable(host, s, calls[n - 1].result))
    && (FellBack(calls) <==> !WentWell(calls[n - 1].result) && s.fallback.Some? && s.fallback.value != "")
    && (FellBack(calls) ==> s.fallback == Some(calls[n].uri))
  }

  ghost predicate Retriable<W>(host: Host<W>, s: Step, r: Dict) {
    !WentWell(r) && exists category :: Category(host, r, category) && Listed(s, category)
  }

  lemma {:induction false} DisciplineReads<W>(host: Host<W>, s: Step, payload: Dict, calls: seq<Call>)
    requires Discipline(host, s, payload, calls)
    ensures FollowsPolicy(host, s, payload, calls)
  {
    forall r ensures WorthRetrying(host, s, r) <==> Retriable(host, s, r) {
      WorthReads(host, s, r);
    }
    forall r ensures EnvelopeOk(r) <==> WentWell(r) {
      OkReads(r);
    }
    hide WorthRetrying, Retriable, EnvelopeOk, WentWell, MaxRetries;
    var n := Primaries(calls);
    assert forall i :: 0 <= i < |calls| ==> IsCall(s, payload, calls[i], i >= n);
  }

  /** Over every flow: each step that is called is called as its policy says. */
  lemma {:induction false} PolicyFollowed<W>(host: Host<W>, w: W, order: seq<Step>, i: nat)
    requires Runnable(order) && i < |order|
    ensures var st, s := RunAll(host, Fresh(w), order), order[i];
            && s.id in st.status
            && (!st.status[s.id].Skipped? ==>
                  host.prepare(s, Earlier(st.results, order, i)).Some? &&
                  FollowsPolicy(host, s, host.prepare(s, Earlier(st.results, order, i)).value, CallsOf(st.trace, s.id)))
  {
    hide RunAll, FollowsPolicy, Concluded, Discipline, Answer;
    RunSemantics(host, w, order);
    var st, s := RunAll(host, Fresh(w), order), order[i];
    assert Explained(host, st, order, i);
    if !st.status[s.id].Skipped? {
      DisciplineReads(host, s, host.prepare(s, Earlier(st.results, order, i)).value, CallsOf(st.trace, s.id));
    }
  }

  // -------------------------------------------------------------- the summary

  predicate Marked(r: Dict, k: string) { k in r && !Falsy(r[k]) }

  lemma {:induction false} BucketReads(r: Dict)
    ensures BucketOf(r) == if Marked(r, "skipped") then InSkipped else if Marked(r, "degraded") then InDegraded
                           else if WentWell(r) then InSucceeded else InFailed
  {
    OkReads(r);
    if "skipped" in r {
      FalsyIsFalse(r["skipped"]);
    }
    if "degraded" in r {
      FalsyIsFalse(r["degraded"]);
    }
    FalsyIsFalse(Null);
    hide Falsy, Truthy, EnvelopeOk, WentWell;
  }

  predicate FieldOr(r: Dict, k: string, x: Value) { x == if k in r then r[k] else Null }

  /** What the first error says. */
  lemma {:induction false} ErrorReads<W>(host: Host<W>, id: string, r: Dict)
    ensures var e := ErrorOf(host, id, r);
            && e.step == id && FieldOr(r, "uri", e.uri) && FieldOr(r, "error", e.error)
            && forall category :: Category(host, r, category) <==> e.category == Str(category)
  {
    CategoryReads(host, r);
    hide Category, ErrorCategory;
  }

  /** A skipped step's record says so, and is not ok. */
  lemma {:induction false} SkippedReads(s: Step, reason: string)
    ensures var env := SkipEnvelope(s, reason);
            && env.Keys == {"uri", "ok", "skipped", "error"}
            && env["uri"] == Str(s.uri) && env["ok"] == Bool(false) && env["skipped"] == Bool(true)
            && Has(env["error"], "category", Str("FAILED_PRECONDITION")) && Has(env["error"], "type", Str("dependency"))
            && Has(env["error"], "message", Str(reason))
  {
  }

  /** Why a step is skipped: an abort before it, a dependency that did not succeed, or a payload that dangles. */
  lemma {:induction false} SkipSays<W>(host: Host<W>, st: State<W>, step: Step)
    ensures var st1 := Turn(host, st, step);
            && step.id in st1.status && step.id in st1.results
            && (st1.status[step.id] == Skipped ==>
                  && st1.trace == st.trace && "error" in st1.results[step.id]
                  && Has(st1.results[step.id]["error"], "message",
                         if st.aborted then Str("flow aborted by an upstream step (catch=abort)")
                         else if exists dep :: dep in step.dependsOn && !(dep in st.status && st.status[dep] == Succeeded)
                         then Str("skipped: dependencies did not succeed")
                         else Str("skipped: could not resolve payload")))
  {
    hide ResolveStep, Answer, DegradedEnvelope, EnvelopeOk;
  }
}
