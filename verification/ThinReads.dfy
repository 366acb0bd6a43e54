/**
 The fields of an answer that the driver goes by, and what its verdict says about the
 calls behind it.
 */
module ThinReads {
  import opened Text
  import opened Json
  import opened ThinModel

  // ------------------------------------------------------ fields of an answer

  predicate Marked(r: Dict, k: string) { k in r && !Falsy(r[k]) }

  predicate MarkedIn(v: Value, k: string) { v.Obj? && Marked(v.fields, k) }

  /** An object under a name. */
  predicate Under(r: Dict, k: string, d: Dict) { k in r && r[k] == Obj(d) }

  predicate ObjectAt(r: Dict, k: string) { k in r && r[k].Obj? }

  /** The connector's value in a run envelope. */
  predicate Wrapped(r: Dict) { ObjectAt(r, "result") && ObjectAt(r["result"].fields, "value") }

  /** Nothing said counts as ok. */
  predicate WentOk(r: Dict) { "ok" !in r || !Falsy(r["ok"]) }

  predicate NamesKind(r: Dict) { ObjectAt(r, "next") && Marked(r["next"].fields, "kind") }

  lemma {:induction false} MarkedReads(r: Dict, k: string)
    ensures Truthy(Get(r, k)) <==> Marked(r, k)
  {
    if k in r {
      FalsyIsFalse(r[k]);
    }
    FalsyIsFalse(Null);
  }

  lemma {:induction false} OkReads(r: Dict)
    ensures IsOk(r) <==> WentOk(r)
  {
    if "ok" in r {
      FalsyIsFalse(r["ok"]);
    }
    FalsyIsFalse(Bool(true));
  }

  /** The intent: the kind named, else by ok. */
  lemma {:induction false} KindReads(r: Dict)
    ensures NextKind(r) == if NamesKind(r) then r["next"].fields["kind"] else Str(if WentOk(r) then "continue" else "rollback")
  {
    OkReads(r);
    if ObjectAt(r, "next") {
      MarkedReads(r["next"].fields, "kind");
    }
    FalsyIsFalse(Null);
    hide Truthy, Falsy, IsOk, WentOk;
  }

  /** Where an inverse is looked for: in the answer, in its value, in its result. */
  lemma {:induction false} InverseReads(r: Dict)
    ensures ExtractInverse(r) ==
            if ObjectAt(r, "inverse") then Some(r["inverse"].fields)
            else if Wrapped(r) && ObjectAt(r["result"].fields["value"].fields, "inverse")
            then Some(r["result"].fields["value"].fields["inverse"].fields)
            else if ObjectAt(r, "result") && ObjectAt(r["result"].fields, "inverse") then Some(r["result"].fields["inverse"].fields)
            else None
  {
  }

  predicate TextAt(d: Dict, k: string, s: string) {
    if k in d && d[k].Str? then s == d[k].s else s == ""
  }

  /** What an inverse becomes in the ledger. */
  lemma {:induction false} EntryReads(uri: string, r: Dict)
    ensures InverseOf(uri, r).Some? ==>
              var inv := InverseOf(uri, r).value;
              && ExtractInverse(r).Some?
              && var d := ExtractInverse(r).value;
              && inv.forward == uri && TextAt(r, "stateBefore", inv.before) && TextAt(r, "stateAfter", inv.after)
              && (if ObjectAt(d, "args") then Under(d, "args", inv.args) else inv.args == map[])
              && ("uri" in d && d["uri"].Str? && d["uri"].s != "" ==> inv.uri == d["uri"].s)
  {
    hide ExtractInverse, Authority, SchemeEnd, Split, StripLeft;
  }

  /** Degraded: the value says so if there is one, else the answer itself. */
  predicate Degraded(r: Dict) {
    if Wrapped(r) then MarkedIn(r["result"].fields["value"], "degraded") else Marked(r, "degraded")
  }

  lemma {:induction false} DegradedReads(r: Dict)
    ensures IsDegraded(r) <==> Degraded(r)
  {
    MarkedReads(QualityFields(r), "degraded");
    hide Truthy, Falsy;
  }

  /** Its reason stands beside it. */
  predicate Reason(r: Dict, reason: Value) {
    var d := if Wrapped(r) then r["result"].fields["value"].fields else r;
    reason == if Marked(d, "degradedReason") then d["degradedReason"] else Null
  }

  lemma {:induction false} ReasonReads(r: Dict)
    ensures Reason(r, Or(Get(QualityFields(r), "degradedReason"), Null))
  {
    MarkedReads(QualityFields(r), "degradedReason");
    hide Truthy, Falsy;
  }

  /** The first degraded result gives the reason. */
  lemma {:induction false} FirstDegradedReads(results: Results) returns (i: nat)
    ensures FirstDegraded(results).None? ==> i == |results|
    ensures FirstDegraded(results).Some? ==> i < |results| && Degraded(results[i].1) && Reason(results[i].1, FirstDegraded(results).value)
    ensures forall j :: 0 <= j < i ==> !Degraded(results[j].1)
    decreases |results|
  {
    hide IsDegraded, Degraded, Reason, QualityFields, Truthy;
    if results == [] {
      i := 0;
    } else {
      DegradedReads(results[0].1);
      ReasonReads(results[0].1);
      if IsDegraded(results[0].1) {
        i := 0;
      } else {
        var k := FirstDegradedReads(results[1..]);
        i := k + 1;
        assert forall j :: 1 <= j < i ==> results[j] == results[1..][j - 1];
      }
    }
  }

  /** The action's own result in an envelope. */
  lemma {:induction false} DataReads<W>(host: Host<W>, r: Dict)
    ensures ResultData(host, r) ==
            if "result" !in r || r["result"] == Null then Obj(r)
            else if !r["result"].Obj? then r["result"]
            else if "value" in r["result"].fields then r["result"].fields["value"]
            else if "stdout" in r["result"].fields && r["result"].fields["stdout"].Str? && host.stdout(r["result"].fields["stdout"].s).Some?
            then host.stdout(r["result"].fields["stdout"].s).value
            else r["result"]
  {
  }

  lemma {:induction false} ActionReads<W>(host: Host<W>, r: Dict)
    ensures ActionOk(host, r) <==> Marked(r, "ok") && !Has(ResultData(host, r), "ok", Bool(false))
  {
    MarkedReads(r, "ok");
    hide Truthy, Falsy, ResultData;
  }

  /** A folded failure: ok is taken back, the error names the action's own; nothing else changes. */
  predicate Folded(r: Dict, inner: Value, f: Dict) {
    && f.Keys == r.Keys + {"ok", "error"} && (forall k :: k in r && k !in {"ok", "error"} ==> f[k] == r[k])
    && f["ok"] == Bool(false) && f["error"].Obj? && f["error"].fields.Keys == {"message", "category"}
    && f["error"].fields["category"] == Str("ACTION_FAILED")
    && f["error"].fields["message"] ==
       if MarkedIn(inner, "error") then inner.fields["error"] else Str("inner result reported ok=False")
  }

  lemma {:induction false} FoldReads<W>(host: Host<W>, r: Dict)
    ensures if WentOk(r) && !ActionOk(host, r) then Folded(r, ResultData(host, r), FoldInnerOk(host, r)) else FoldInnerOk(host, r) == r
  {
    OkReads(r);
    MarkedReads(Fields(ResultData(host, r)), "error");
    hide Truthy, Falsy, ActionOk, ResultData, IsOk, WentOk;
  }

  /** No handler served the goal check. */
  predicate Unserved(r: Dict) {
    && !WentOk(r) && "error" in r
    && (|| r["error"].Str? || Has(r["error"], "type", Str("registry"))
        || Has(r["error"], "category", Str("NOT_FOUND")) || Has(r["error"], "category", Str("INVALID_ARGUMENT")))
  }

  lemma {:induction false} UnservedReads(r: Dict)
    ensures GoalUnserved(r) <==> Unserved(r)
  {
    OkReads(r);
    hide Truthy, Falsy, IsOk, WentOk;
  }

  predicate Provided(r: Dict) { Marked(r, "ok") && (Marked(r, "satisfied") || Marked(r, "acquired")) }

  lemma {:induction false} AcquiredReads(r: Dict)
    ensures Acquired(r) <==> Provided(r)
  {
    MarkedReads(r, "ok");
    MarkedReads(r, "satisfied");
    MarkedReads(r, "acquired");
    hide Truthy, Falsy;
  }

  /** What is to be provided. */
  predicate Needs(r: Dict, need: Value) {
    need == if ObjectAt(r, "acquire") && Marked(r["acquire"].fields, "precondition") then r["acquire"].fields["precondition"] else Str("")
  }

  lemma {:induction false} NeedReads(r: Dict)
    ensures Needs(r, AcquireNeed(r))
  {
    if ObjectAt(r, "acquire") {
      MarkedReads(r["acquire"].fields, "precondition");
    }
    FalsyIsFalse(Null);
    hide Truthy, Falsy;
  }

  /** The error of an answer, if it is an object with something in it. */
  predicate ErrorIs(r: Dict, error: Value) {
    error == if ObjectAt(r, "error") && r["error"].fields != map[] then r["error"] else Null
  }

  lemma {:induction false} ErrorReads(r: Dict)
    ensures ErrorIs(r, ErrorDict(r))
  {
  }

  /** The error of a failed action: its own, or one that names the step. */
  predicate FailureIs(uri: string, r: Dict, error: Value) {
    if Marked(r, "error") then error == r["error"]
    else error == Obj(map["message" := Str("step " + uri + " failed"), "category" := Str("ACTION_FAILED")])
  }

  lemma {:induction false} FailureReads(uri: string, r: Dict)
    ensures FailureIs(uri, r, StepError(uri, r))
  {
    MarkedReads(r, "error");
    hide Truthy, Falsy;
  }

  /** What is recorded for a step passed over: ok, skipped, why, and to continue. */
  lemma {:induction false} SkipReads(reason: Value)
    ensures var r := SkipResult(reason);
            && r.Keys == {"ok", "skipped", "skippedReason", "next"}
            && r["ok"] == Bool(true) && r["skipped"] == Bool(true) && r["next"] == Obj(map["kind" := Str("continue")])
            && r["skippedReason"] == Str("prior step degraded: " + if reason.Str? then reason.s else "None")
  {
  }

  /** What is asked of whom when a precondition is missing. */
  lemma {:induction false} AskReads<W>(host: Host<W>, step: Step)
    ensures EnsureUri(AcquireNode(host, step)) ==
            "ready://" + (if host.target(step.uri) == "" then "host" else host.target(step.uri)) + "/ready/command/ensure"
  {
  }

  /** The steps that cannot be undone. */
  lemma {:induction false} IrreversibleReads(step: Step)
    ensures step.Irreversible() <==>
            || step.reversible == Some(false)
            || exists a, b :: step.uri == a + "/session/command/write" + b || step.uri == a + "/log/command/write" + b
                              || step.uri == a + "/notes/command/write" + b || step.uri == a + "/memory/command/write" + b
  {
    ContainsReads(step.uri, "/session/command/write");
    ContainsReads(step.uri, "/log/command/write");
    ContainsReads(step.uri, "/notes/command/write");
    ContainsReads(step.uri, "/memory/command/write");
    hide Contains;
    assert forall suffix :: suffix in IRREVERSIBLE_SUFFIXES <==>
      suffix in {"/session/command/write", "/log/command/write", "/notes/command/write", "/memory/command/write"};
  }

  /** A step is sent what was prepared for it from the results and the timeline so far. */
  lemma {:induction false} PayloadIsPrepared<W>(host: Host<W>, st: State<W>, step: Step)
    ensures var t, u := st.trace, DispatchStep(host, st, step).0.trace;
            && t <= u
            && (|t| < |u| ==>
                  && host.prepare(step, st.results, st.timeline).Some?
                  && u[|t|].role == (if step.optional then Optional(step) else First(step))
                  && u[|t|].uri == step.uri && u[|t|].payload == Args(host.prepare(step, st.results, st.timeline).value))
  {
    hide FollowIntent, MissingDeps, FirstDegraded, Step.Irreversible, Put, MakeStepEntry, FoldInnerOk, LedgerDelta, NextKind, OkField;
    match host.prepare(step, st.results, st.timeline)
    case None =>
    case Some(payload) =>
      if !step.optional {
        var (st1, r) := CallFirst(host, st, step, payload);
        FollowGrows(host, st1, step, payload, r, NextKind(r));
      }
  }

  lemma {:induction false} FollowGrows<W>(host: Host<W>, st: State<W>, step: Step, payload: Dict, r: Dict, kind: Value)
    ensures st.trace <= FollowIntent(host, st, step, payload, r, kind).0.trace
  {
    hide Undo, NextKind, Put, OkField, Acquired, AcquireNeed, AcquireNode, ErrorDict;
    if kind == Str("retry") {
      AgainGrows(host, st, step, payload, Truthy(Get(r, "healed")), None, host.target(step.uri));
    } else if kind == Str("acquire") {
      var node, need := AcquireNode(host, step), AcquireNeed(r);
      AgainGrows(host, Send(host, st, Ensure(step), EnsureUri(node), Precondition(need)).0, step, payload, true, Some(need), node);
    } else if kind == Str("rollback") {
      UndoOnly(host, st, st.ledger, []);
    }
  }

  lemma {:induction false} AgainGrows<W>(host: Host<W>, st: State<W>, step: Step, payload: Dict, healed: bool,
                                         precondition: Option<Value>, target: string)
    ensures st.trace <= RetryOnce(host, st, step, payload, healed, precondition, target).0.trace
  {
    hide Undo, NextKind, Put, OkField;
    var (st1, r) := CallAgain(host, st, step, payload, healed, precondition, target);
    UndoOnly(host, st1, st1.ledger, []);
  }

  /** What the timeline says of a step: reversible when its answer carries an inverse, or when it only asks. */
  lemma {:induction false} StepEntryReads<W>(host: Host<W>, sid: string, uri: string, r: Dict)
    ensures var e := MakeStepEntry(host, sid, uri, r);
            && e.StepEntry? && e.id == sid && e.uri == uri && e.result == r && e.target == host.target(uri)
            && e.inverse == InverseOf(uri, r)
            && (e.reversible <==> e.inverse.Some? || exists a, b :: uri == a + "/query/" + b)
  {
    ContainsReads(uri, "/query/");
    hide Contains, InverseOf;
  }

  /** What the timeline says of the rest: each entry names its step, what came of it, and where. */
  lemma {:induction false} TimelineReads<W>(host: Host<W>, st: State<W>, step: Step, payload: Dict, healed: bool,
                                            precondition: Option<Value>, target: string, e: Inverse)
    ensures var (st1, r) := CallAgain(host, st, step, payload, healed, precondition, target);
            && |st1.timeline| == |st.timeline| + 1 && st1.timeline[..|st.timeline|] == st.timeline
            && OkValue(r, st1.timeline[|st.timeline|].ok)
            && st1.timeline[|st.timeline|] ==
               RetryEntry((if step.id == "" then step.uri else step.id) + ":retry", step.uri, st1.timeline[|st.timeline|].ok, target, precondition)
    ensures var (st1, r) := UndoOne(host, st, e);
            && |st1.timeline| == |st.timeline| + 1 && st1.timeline[..|st.timeline|] == st.timeline
            && st1.timeline[|st.timeline|].RollbackEntry? && st1.timeline[|st.timeline|].uri == e.uri
            && OkValue(r, st1.timeline[|st.timeline|].ok)
  {
    hide NextKind, Put;
  }

  /** The envelope's events: every call and every answer, at the current position. */
  lemma {:induction false} EventsRead<W>(host: Host<W>, st: State<W>, step: Step, payload: Dict, healed: bool,
                                         precondition: Option<Value>, target: string, e: Inverse)
    ensures var (st1, r) := CallFirst(host, st, step, payload);
            exists ok :: OkValue(r, ok) &&
              st1.events == st.events + [Sent(step.uri, st.position), Returned(step.uri, st.position, ok, Some(NextKind(r)), false)]
    ensures CallOptional(host, st, step, payload).events == st.events + [Sent(step.uri, st.position)]
    ensures var (st1, r) := CallAgain(host, st, step, payload, healed, precondition, target);
            exists ok :: OkValue(r, ok) && st1.events == st.events + [Returned(step.uri, st.position, ok, Some(NextKind(r)), true)]
    ensures var (st1, r) := UndoOne(host, st, e);
            exists ok :: OkValue(r, ok) && st1.events == st.events + [Sent(e.uri, st.position), Returned(e.uri, st.position, ok, None, false)]
    ensures var (st1, r) := CallGoal(host, st);
            exists ok :: OkValue(r, ok) &&
              st1.events == st.events + [Sent("twin://host/flow/goal/query/verify", st.position),
                                         Returned("twin://host/flow/goal/query/verify", st.position, ok, Some(NextKind(r)), false)]
  {
    hide FoldInnerOk, LedgerDelta, NextKind, MakeStepEntry, Put, GoalUnserved;
    var r1 := CallFirst(host, st, step, payload).1;
    var r2 := CallAgain(host, st, step, payload, healed, precondition, target).1;
    var r3 := UndoOne(host, st, e).1;
    var r4 := CallGoal(host, st).1;
    assert OkValue(r1, OkField(r1)) && OkValue(r2, OkField(r2)) && OkValue(r3, OkField(r3)) && OkValue(r4, OkField(r4));
  }

  predicate OkValue(r: Dict, v: Value) { v == if "ok" in r then r["ok"] else Bool(true) }

  /** A refusal is noted under the step, with what is asked for and the error that led to it. */
  lemma {:induction false} BlockedReads<W>(host: Host<W>, st: State<W>, step: Step, payload: Dict, r: Dict)
    ensures var (st1, o) := Acquire(host, st, step, payload, r);
            o.Return? && o.verdict.Blocked? ==>
              && |st1.timeline| == |st.timeline| + 1 && st1.timeline[..|st.timeline|] == st.timeline
              && st1.timeline[|st.timeline|] ==
                 BlockedEntry((if step.id == "" then step.uri else step.id) + ":blocked", step.uri,
                              if host.target(step.uri) == "" then "host" else host.target(step.uri), o.verdict.what, o.verdict.error)
  {
    hide RetryOnce, Acquired, AcquireNeed, ErrorDict, UndoneFor;
    var node, need := AcquireNode(host, step), AcquireNeed(r);
    RetrySays(host, Send(host, st, Ensure(step), EnsureUri(node), Precondition(need)).0, step, payload, true, Some(need), node);
  }

  /** Recording a result replaces that of its id in place, or adds it at the end. */
  lemma {:induction false} PutReads(results: Results, sid: string, r: Dict)
    ensures var after := Put(results, sid, r);
            if exists i :: FirstUnder(results, sid, i) then
              |after| == |results| && forall i :: 0 <= i < |results| ==>
                after[i] == if FirstUnder(results, sid, i) then (sid, r) else results[i]
            else after == results + [(sid, r)]
    decreases |results|
  {
    if results != [] && results[0].0 != sid {
      PutReads(results[1..], sid, r);
      var after, rest := Put(results, sid, r), Put(results[1..], sid, r);
      assert after == [results[0]] + rest;
      forall i: nat ensures FirstUnder(results, sid, i) <==> i > 0 && FirstUnder(results[1..], sid, i - 1) {
        FirstBehind(results, sid, i);
      }
      if j: nat :| FirstUnder(results[1..], sid, j) {
        assert FirstUnder(results, sid, j + 1);
      }
    } else if results != [] {
      assert FirstUnder(results, sid, 0);
    }
  }

  /** The first result under this id. */
  predicate FirstUnder(results: Results, sid: string, i: int) {
    0 <= i < |results| && results[i].0 == sid && forall j :: 0 <= j < i ==> results[j].0 != sid
  }

  lemma {:induction false} FirstBehind(results: Results, sid: string, i: nat)
    requires results != [] && results[0].0 != sid
    ensures FirstUnder(results, sid, i) <==> i > 0 && FirstUnder(results[1..], sid, i - 1)
  {
    if i > 0 && FirstUnder(results[1..], sid, i - 1) {
      assert forall j :: 1 <= j < i ==> results[j] == results[1..][j - 1];
    }
    if FirstUnder(results, sid, i) {
      assert forall j :: 0 <= j < i - 1 ==> results[1..][j] == results[j + 1];
    }
  }

  // ------------------------------------------------------------- the budgets

  /** How often a step was tried again. */
  function Retries<W>(trace: seq<Call<W>>): nat {
    if trace == [] then 0 else Retries(trace[..|trace| - 1]) + if trace[|trace| - 1].role.Retry? then 1 else 0
  }

  /** Tried again after something was provided, or because the answer said healed. */
  predicate HealedAt<W>(trace: seq<Call<W>>, i: nat) {
    && 0 < i < |trace| && trace[i].role.Retry?
    && (trace[i - 1].role.Ensure? || (trace[i - 1].role.First? && Marked(trace[i - 1].result, "healed")))
  }

  function Heals<W>(trace: seq<Call<W>>): nat {
    if trace == [] then 0 else Heals(trace[..|trace| - 1]) + if HealedAt(trace, |trace| - 1) then 1 else 0
  }

  /** The counters count the calls. */
  ghost predicate Counted<W>(st: State<W>) {
    st.retries == Retries(st.trace) && st.remediations == Heals(st.trace)
  }

  lemma {:induction false} OneMore<W>(t: seq<Call<W>>, c: Call<W>)
    ensures Retries(t + [c]) == Retries(t) + if c.role.Retry? then 1 else 0
    ensures Heals(t + [c]) == Heals(t) + if HealedAt(t + [c], |t|) then 1 else 0
  {
    assert (t + [c])[..|t|] == t;
  }

  lemma {:induction false} SendCounted<W>(host: Host<W>, st: State<W>, role: Role, uri: string, payload: Payload)
    requires Counted(st) && !role.Retry?
    ensures var (st1, r) := Send(host, st, role, uri, payload);
            Counted(st1) && |st1.trace| == |st.trace| + 1 && st1.trace[|st.trace|].role == role && st1.trace[|st.trace|].result == r
  {
    var (w, r) := host.dispatch(st.world, uri, payload);
    OneMore(st.trace, Call(role, uri, payload, st.world, w, r));
    hide Retries, Heals;
  }

  lemma {:induction false} UndoCounted<W>(host: Host<W>, st: State<W>, ledger: seq<Inverse>, undone: seq<string>)
    requires Counted(st)
    ensures Counted(Undo(host, st, ledger, undone).0)
    decreases |ledger|
  {
    hide Retries, Heals;
    if ledger != [] {
      var e, rest := ledger[|ledger| - 1], ledger[..|ledger| - 1];
      if e.uri == "" {
        UndoCounted(host, st, rest, undone);
      } else {
        var st0 := st.(events := st.events + [Sent(e.uri, st.position)]);
        SendCounted(host, st0, Undoing, e.uri, Args(e.args));
        var (st1, rb) := UndoOne(host, st, e);
        if IsOk(rb) {
          UndoCounted(host, st1, rest, undone + [e.uri]);
        }
      }
    }
  }

  lemma {:induction false} RetryCounted<W>(host: Host<W>, st: State<W>, step: Step, payload: Dict, healed: bool,
                                           precondition: Option<Value>, target: string)
    requires Counted(st) && st.trace != []
    requires healed <==> st.trace[|st.trace| - 1].role.Ensure? ||
                         (st.trace[|st.trace| - 1].role.First? && Marked(st.trace[|st.trace| - 1].result, "healed"))
    ensures Counted(RetryOnce(host, st, step, payload, healed, precondition, target).0)
  {
    hide Undo, NextKind, Put, OkField;
    var (st1, r) := CallAgain(host, st, step, payload, healed, precondition, target);
    var c := st1.trace[|st.trace|];
    assert st1.trace == st.trace + [c];
    OneMore(st.trace, c);
    hide Retries, Heals;
    UndoCounted(host, st1, st1.ledger, []);
  }

  lemma {:induction false} AcquireCounted<W>(host: Host<W>, st: State<W>, step: Step, payload: Dict, r: Dict)
    requires Counted(st)
    ensures Counted(Acquire(host, st, step, payload, r).0)
  {
    hide RetryOnce, Acquired, AcquireNode, AcquireNeed, ErrorDict, Retries, Heals;
    var node, need := AcquireNode(host, step), AcquireNeed(r);
    SendCounted(host, st, Ensure(step), EnsureUri(node), Precondition(need));
    var (st1, er) := Send(host, st, Ensure(step), EnsureUri(node), Precondition(need));
    if Acquired(er) {
      RetryCounted(host, st1, step, payload, true, Some(need), node);
    }
  }

  /** The last call is a first attempt at the step, with this answer once folded. */
  ghost predicate JustTried<W>(host: Host<W>, st: State<W>, step: Step, r: Dict) {
    st.trace != [] && var c := st.trace[|st.trace| - 1];
    c.role == First(step) && c.uri == step.uri && r == FoldInnerOk(host, c.result)
  }

  lemma {:induction false} FirstCounted<W>(host: Host<W>, st: State<W>, step: Step, payload: Dict)
    requires Counted(st)
    ensures var (st1, r) := CallFirst(host, st, step, payload);
            Counted(st1) && JustTried(host, st1, step, r)
  {
    hide FoldInnerOk, LedgerDelta, NextKind, OkField, MakeStepEntry, Put, Retries, Heals;
    SendCounted(host, st.(events := st.events + [Sent(step.uri, st.position)]), First(step), step.uri, Args(payload));
  }

  lemma {:induction false} FoldKeepsHealed<W>(host: Host<W>, r: Dict)
    ensures Truthy(Get(FoldInnerOk(host, r), "healed")) <==> Marked(r, "healed")
  {
    MarkedReads(r, "healed");
    FoldReads(host, r);
    hide ActionOk, ResultData, Truthy, Falsy, FoldInnerOk, WentOk;
    MarkedReads(FoldInnerOk(host, r), "healed");
  }

  lemma {:induction false} AttemptCounted<W>(host: Host<W>, st: State<W>, step: Step, payload: Dict)
    requires Counted(st)
    ensures Counted(Attempt(host, st, step, payload).0)
  {
    hide CallFirst, RetryOnce, Acquire, Undo, FoldInnerOk, Retries, Heals, NextKind, IsOk, StepError, ErrorDict, Put, MakeStepEntry;
    if step.optional {
      SendCounted(host, st.(events := st.events + [Sent(step.uri, st.position)]), Optional(step), step.uri, Args(payload));
    } else {
      FirstCounted(host, st, step, payload);
      var (st1, r) := CallFirst(host, st, step, payload);
      var kind := NextKind(r);
      if kind == Str("retry") {
        FoldKeepsHealed(host, st1.trace[|st1.trace| - 1].result);
        RetryCounted(host, st1, step, payload, Truthy(Get(r, "healed")), None, host.target(step.uri));
      } else if kind == Str("acquire") {
        AcquireCounted(host, st1, step, payload, r);
      } else if kind == Str("rollback") {
        UndoCounted(host, st1, st1.ledger, []);
      }
    }
  }

  lemma {:induction false} StepCounted<W>(host: Host<W>, st: State<W>, step: Step)
    requires Counted(st)
    ensures Counted(DispatchStep(host, st, step).0)
  {
    hide Attempt, Retries, Heals, MissingDeps, FirstDegraded, Step.Irreversible, Put, MakeStepEntry;
    match host.prepare(step, st.results, st.timeline)
    case None =>
    case Some(payload) => AttemptCounted(host, st, step, payload);
  }

  // ------------------------------------------------------------- the verdict

  /** The budget named is exceeded, and none that is looked at before it. */
  ghost predicate Exceeded<W>(st: State<W>, budget: Budget, lim: Limits) {
    match budget
    case RetryBudget => Retries(st.trace) > lim.maxRetries
    case HealBudget => Retries(st.trace) <= lim.maxRetries && Heals(st.trace) > lim.maxRemediations
    case WallClock =>
      Retries(st.trace) <= lim.maxRetries && Heals(st.trace) <= lim.maxRemediations && exists pos :: lim.late(pos)
  }

  predicate IsRecorded(results: Results, sid: string) { exists e :: e in results && e.0 == sid }

  /** A plan step with this id lacks exactly these of its dependencies. */
  ghost predicate Lacks(results: Results, steps: seq<Step>, sid: string, missing: seq<string>) {
    exists s :: s in steps && sid == (if s.id == "" then s.uri else s.id) && missing != [] &&
      forall dep :: dep in missing <==> dep in s.dependsOn && !IsRecorded(results, dep)
  }

  /** The node asked for what was missing refused; the verdict says what is to be acquired. */
  ghost predicate Refused<W>(host: Host<W>, trace: seq<Call<W>>, what: Value, error: Value) {
    var n := |trace|;
    && n >= 2 && trace[n - 1].role.Ensure? && trace[n - 2].role.First? && trace[n - 2].role.step == trace[n - 1].role.step
    && !Provided(trace[n - 1].result)
    && var first := FoldInnerOk(host, trace[n - 2].result);
    && ErrorIs(first, error)
    && (if Marked(trace[n - 1].result, "acquire") then what == trace[n - 1].result["acquire"]
        else if ObjectAt(first, "acquire") then what == first["acquire"] else what == Obj(map[]))
  }

  /** The last call is a first attempt that asked to continue, and failed. */
  ghost predicate Failed<W>(host: Host<W>, trace: seq<Call<W>>, error: Value) {
    && trace != [] && var c := trace[|trace| - 1];
    && c.role.First? && var r := FoldInnerOk(host, c.result);
    && !WentOk(r) && FailureIs(c.uri, r, error)
  }

  /** Call `i` is the last that is no undoing. */
  ghost predicate Turning<W>(trace: seq<Call<W>>, i: nat) {
    i < |trace| && !trace[i].role.Undoing? && forall j :: i < j < |trace| ==> trace[j].role.Undoing?
  }

  /** What a rollback was for: a goal check that failed, an answer with its error, or a retry that gave up. */
  ghost predicate UndoneFor<W>(host: Host<W>, trace: seq<Call<W>>, kind: string, error: Value) {
    exists i: nat :: Turning(trace, i) && Cause(host, trace[i], kind, error)
  }

  predicate Cause<W>(host: Host<W>, c: Call<W>, kind: string, error: Value) {
    || (kind == "goal-failed" && c.role.Goal? && !WentOk(c.result) && !Unserved(c.result) && error == Null)
    || (kind == "failed" && c.role.First? && ErrorIs(FoldInnerOk(host, c.result), error))
    || (kind == "failed" && c.role.Retry? && error == Null)
  }

  /** What a verdict says. */
  ghost predicate Says<W>(host: Host<W>, st: State<W>, v: Verdict, steps: seq<Step>, lim: Limits) {
    match v
    case Finished(degraded, reason) =>
      && (degraded <==> exists e :: e in st.results && Degraded(e.1))
      && (if degraded then FirstReason(st.results, reason) else reason == Null)
    case CircuitBroken(budget) => Exceeded(st, budget, lim)
    case MissingDependencies(sid, missing) => Lacks(st.results, steps, sid, missing)
    case Blocked(what, error) => Refused(host, st.trace, what, error)
    case ActionFailed(error) => Failed(host, st.trace, error)
    case RolledBack(kind, _, error) => UndoneFor(host, st.trace, kind, error)
    case Raised => true
  }

  /** The reason of the first degraded result. */
  predicate FirstReason(results: Results, reason: Value) {
    exists i :: 0 <= i < |results| && Degraded(results[i].1) && Reason(results[i].1, reason) && forall j :: 0 <= j < i ==> !Degraded(results[j].1)
  }

  lemma {:induction false} LacksReads(results: Results, deps: seq<string>)
    ensures forall dep :: dep in MissingDeps(results, deps) <==> dep in deps && !IsRecorded(results, dep)
    decreases |deps|
  {
    forall sid ensures Recorded(results, sid) <==> IsRecorded(results, sid) {
      if Recorded(results, sid) {
        var i :| 0 <= i < |results| && results[i].0 == sid;
        assert results[i] in results;
      }
    }
    hide Recorded, IsRecorded;
    if deps != [] {
      LacksReads(results, deps[1..]);
      assert deps == [deps[0]] + deps[1..];
    }
  }

  lemma {:induction false} UndoOnly<W>(host: Host<W>, st: State<W>, ledger: seq<Inverse>, undone: seq<string>)
    ensures var t, u := st.trace, Undo(host, st, ledger, undone).0.trace;
            t <= u && forall j :: |t| <= j < |u| ==> u[j].role.Undoing?
    decreases |ledger|
  {
    if ledger != [] {
      var e, rest := ledger[|ledger| - 1], ledger[..|ledger| - 1];
      if e.uri == "" {
        UndoOnly(host, st, rest, undone);
      } else {
        var (st1, rb) := UndoOne(host, st, e);
        if IsOk(rb) {
          UndoOnly(host, st1, rest, undone + [e.uri]);
        }
      }
    }
  }

  /** A rollback right after a call is for that call. */
  lemma {:induction false} RollbackSays<W>(host: Host<W>, st: State<W>, kind: string, error: Value, explicit: bool)
    requires st.trace != [] && !st.trace[|st.trace| - 1].role.Undoing?
    requires Cause(host, st.trace[|st.trace| - 1], kind, error)
    ensures var (st1, v) := Rollback(host, st, kind, error, explicit);
            v.RolledBack? && UndoneFor(host, st1.trace, v.kind, v.error)
  {
    hide Undo, Cause;
    UndoOnly(host, st, st.ledger, []);
    var st1 := Rollback(host, st, kind, error, explicit).0;
    assert Turning(st1.trace, |st.trace| - 1);
  }

  lemma {:induction false} RetrySays<W>(host: Host<W>, st: State<W>, step: Step, payload: Dict, healed: bool,
                                        precondition: Option<Value>, target: string)
    ensures var (st1, o) := RetryOnce(host, st, step, payload, healed, precondition, target);
            o.Return? ==> o.verdict.RolledBack? && UndoneFor(host, st1.trace, o.verdict.kind, o.verdict.error)
  {
    hide Rollback, NextKind, Put, OkField;
    var (st1, r) := CallAgain(host, st, step, payload, healed, precondition, target);
    RollbackSays(host, st1, "failed", Null, false);
  }

  lemma {:induction false} AttemptSays<W>(host: Host<W>, st: State<W>, step: Step, payload: Dict, steps: seq<Step>, lim: Limits)
    requires Counted(st)
    ensures var (st1, o) := Attempt(host, st, step, payload);
            o.Return? ==> !o.verdict.Finished? && Says(host, st1, o.verdict, steps, lim)
  {
    hide CallFirst, RetryOnce, Acquire, Rollback, UndoneFor, FoldInnerOk, Retries, Heals, NextKind, IsOk, WentOk, StepError, ErrorDict,
         Put, MakeStepEntry, Truthy, Falsy, Unserved, ErrorIs;
    if !step.optional {
      FirstCounted(host, st, step, payload);
      var (st1, r) := CallFirst(host, st, step, payload);
      OkReads(r);
      FailureReads(step.uri, r);
      ErrorReads(r);
      if NextKind(r) == Str("acquire") {
        AcquireSays(host, st1, step, payload, r);
      } else if NextKind(r) == Str("retry") {
        RetrySays(host, st1, step, payload, Truthy(Get(r, "healed")), None, host.target(step.uri));
      } else if NextKind(r) == Str("rollback") {
        RollbackSays(host, st1, "failed", ErrorDict(r), NextField(r) == Str("rollback"));
      }
    }
  }

  lemma {:induction false} AcquireSays<W>(host: Host<W>, st: State<W>, step: Step, payload: Dict, r: Dict)
    requires JustTried(host, st, step, r)
    ensures var (st1, o) := Acquire(host, st, step, payload, r);
            o.Return? ==>
              || (o.verdict.RolledBack? && UndoneFor(host, st1.trace, o.verdict.kind, o.verdict.error))
              || (o.verdict.Blocked? && Refused(host, st1.trace, o.verdict.what, o.verdict.error))
  {
    hide RetryOnce, UndoneFor, FoldInnerOk, NextKind, ErrorDict, Acquired, Provided, Falsy, Truthy;
    var node, need := AcquireNode(host, step), AcquireNeed(r);
    var (st1, er) := Send(host, st, Ensure(step), EnsureUri(node), Precondition(need));
    AcquiredReads(er);
    ErrorReads(r);
    MarkedReads(er, "acquire");
    if Acquired(er) {
      RetrySays(host, st1, step, payload, true, Some(need), node);
    } else {
      var t := st1.trace;
      assert t[|t| - 1].result == er && t[|t| - 2] == st.trace[|st.trace| - 1];
    }
  }

  lemma {:induction false} StepSays<W>(host: Host<W>, st: State<W>, step: Step, steps: seq<Step>, lim: Limits)
    requires Counted(st) && step in steps
    ensures var (st1, o) := DispatchStep(host, st, step);
            o.Return? ==> !o.verdict.Finished? && Says(host, st1, o.verdict, steps, lim)
  {
    hide Attempt, Retries, Heals, MissingDeps, FirstDegraded, Step.Irreversible, Put, MakeStepEntry, IsRecorded;
    LacksReads(st.results, step.dependsOn);
    match host.prepare(step, st.results, st.timeline)
    case None =>
    case Some(payload) => AttemptSays(host, st, step, payload, steps, lim);
  }

  lemma {:induction false} LoopSays<W>(host: Host<W>, st: State<W>, steps: seq<Step>, pos: nat, lim: Limits, plan: seq<Step>)
    requires Counted(st) && forall s :: s in steps ==> s in plan
    ensures var (st1, end) := Loop(host, st, steps, pos, lim);
            Counted(st1) && (end.Ended? ==> !end.verdict.Finished? && Says(host, st1, end.verdict, plan, lim))
    decreases |steps|
  {
    hide DispatchStep, Retries, Heals, Lacks, Refused, Failed, FirstReason, UndoneFor;
    if steps != [] && Breaker(st, lim, pos).None? {
      var st0 := st.(position := pos);
      StepCounted(host, st0, steps[0]);
      StepSays(host, st0, steps[0], plan, lim);
      var (st1, o) := DispatchStep(host, st0, steps[0]);
      if o.Continue? {
        LoopSays(host, st1, steps[1..], pos + 1, lim, plan);
      }
    }
  }

  lemma {:induction false} GoalCounted<W>(host: Host<W>, st: State<W>)
    requires Counted(st)
    ensures Counted(VerifyGoal(host, st).0)
  {
    hide Undo, GoalUnserved, IsOk, NextKind, OkField, Retries, Heals;
    SendCounted(host, st.(events := st.events + [Sent(GOAL_URI, st.position)]), Goal, GOAL_URI, GoalCheck(host.goal, st.results));
    var st1 := CallGoal(host, st).0;
    UndoCounted(host, st1, st1.ledger, []);
  }

  lemma {:induction false} CloseSays<W>(host: Host<W>, st: State<W>, execute: bool, steps: seq<Step>, lim: Limits)
    requires Counted(st)
    ensures var (st1, v) := Close(host, st, execute);
            Counted(st1) && Says(host, st1, v, steps, lim)
  {
    hide VerifyGoal, FirstDegraded, Retries, Heals, Degraded, Reason, UndoneFor;
    if execute {
      GoalCounted(host, st);
      GoalSays(host, st);
    }
    var st1 := if execute then VerifyGoal(host, st).0 else st;
    var i := FirstDegradedReads(st1.results);
    if i < |st1.results| {
      assert st1.results[i] in st1.results;
    }
  }

  /** A failed goal check is what its rollback is for. */
  lemma {:induction false} GoalSays<W>(host: Host<W>, st: State<W>)
    ensures var (st1, failed) := VerifyGoal(host, st);
            failed.Some? ==> failed.value.RolledBack? && UndoneFor(host, st1.trace, failed.value.kind, failed.value.error)
  {
    hide Rollback, GoalUnserved, IsOk, WentOk, Unserved, NextKind, UndoneFor;
    var (st1, r) := CallGoal(host, st);
    var raw := st1.trace[|st.trace|].result;
    UnservedReads(raw);
    OkReads(raw);
    assert IsOk(UNSERVED_GOAL) by { ServedOk(); }
    GoalRolledBack(host, st1, r, raw);
  }

  lemma {:induction false} ServedOk()
    ensures IsOk(UNSERVED_GOAL)
  {
  }

  lemma {:induction false} GoalRolledBack<W>(host: Host<W>, st: State<W>, r: Dict, raw: Dict)
    requires st.trace != [] && st.trace[|st.trace| - 1].role.Goal? && st.trace[|st.trace| - 1].result == raw
    requires !IsOk(r) ==> !WentOk(raw) && !Unserved(raw)
    ensures !IsOk(r) ==>
              var (st1, v) := Rollback(host, st, "goal-failed", Null, false);
              v.RolledBack? && UndoneFor(host, st1.trace, v.kind, v.error)
  {
    if !IsOk(r) {
      RollbackSays(host, st, "goal-failed", Null, false);
    }
  }

  /**
   What every verdict says holds of the run behind it: the counters are the retries and
   the heals in the trace, the budget named is the first one exceeded, missing
   dependencies are those of a plan step, a refusal and a failure are the last calls', a
   rollback is for the call before it, and a finished run is degraded exactly when a
   recorded result is.
   */
  lemma {:induction false} VerdictSays<W>(host: Host<W>, w0: W, steps: seq<Step>, execute: bool, lim: Limits)
    ensures var (st, v) := Drive(host, Fresh(w0), steps, execute, lim);
            Counted(st) && Says(host, st, v, steps, lim)
  {
    hide Loop, Close, Says;
    assert Counted(Fresh(w0));
    LoopSays(host, Fresh(w0), steps, 0, lim, steps);
    var (st1, end) := Loop(host, Fresh(w0), steps, 0, lim);
    if !end.Ended? {
      CloseSays(host, st1, execute, steps, lim);
    }
  }
}
