/** The plan handed to the thin driver: the user's steps with advisory steps around them. */
module ThinPlan {
  import opened Text
  import opened Json
  import opened ThinModel

  const PREFLIGHT_URI := "twin://host/flow/command/preflight"
  const REMEMBER_URI := "twin://host/memory/command/remember"
  const DRIFT_SUFFIX := "/env/query/drift"

  /** What a plan is built from besides its steps. */
  datatype PlanContext = PlanContext(target: string -> string, routes: Value, flowKey: string, record: Value)

  function StepDocument(s: Step): Value {
    Obj(map["id" := Str(s.id), "uri" := Str(s.uri), "payload" := Obj(s.payload),
            "depends_on" := Arr(seq(|s.dependsOn|, i requires 0 <= i < |s.dependsOn| => Str(s.dependsOn[i]))),
            "optional" := Bool(s.optional)])
  }

  predicate HasCdp(steps: seq<Step>) {
    exists s :: s in steps && Contains(s.uri, "/cdp/page/")
  }

  function PreflightStep(steps: seq<Step>): Step {
    Step("preflight", PREFLIGHT_URI,
         map["steps" := Arr(seq(|steps|, i requires 0 <= i < |steps| => StepDocument(steps[i])))],
         [], true, None)
  }

  /** Prepend a preflight step when an executed plan opens browser pages. */
  function PlanWithPreflight(steps: seq<Step>, execute: bool): seq<Step> {
    if execute && HasCdp(steps) then [PreflightStep(steps)] + steps else steps
  }

  predicate Before(a: string, b: string) {
    if a == "" then b != ""
    else if b == "" then false
    else a[0] < b[0] || (a[0] == b[0] && Before(a[1..], b[1..]))
  }

  /** Insert into an ascending list, unless present. */
  function InsertTarget(t: string, ts: seq<string>): seq<string> {
    if ts == [] then [t]
    else if t == ts[0] then ts
    else if Before(t, ts[0]) then [t] + ts
    else [ts[0]] + InsertTarget(t, ts[1..])
  }

  /** The sorted distinct non-empty nodes of the kvm steps. */
  function KvmStepTargets(ctx: PlanContext, steps: seq<Step>): seq<string> {
    if steps == [] then []
    else
      var rest := KvmStepTargets(ctx, steps[1..]);
      if StartsWith(steps[0].uri, "kvm://") && ctx.target(steps[0].uri) != ""
      then InsertTarget(ctx.target(steps[0].uri), rest)
      else rest
  }

  function DriftStepsFor(ctx: PlanContext, targets: seq<string>): seq<Step> {
    seq(|targets|, i requires 0 <= i < |targets| =>
      Step("twin:drift:" + targets[i], "twin://" + targets[i] + DRIFT_SUFFIX,
           map["node" := Str(targets[i]), "routes" := ctx.routes], [], true, None))
  }

  function RememberStep(ctx: PlanContext, targets: seq<string>): Step {
    Step("memory:remember", REMEMBER_URI,
         map["nodes" := Arr(seq(|targets|, i requires 0 <= i < |targets| => Str(targets[i]))),
             "routes" := ctx.routes, "flow_key" := Str(ctx.flowKey), "record" := ctx.record],
         [], true, None)
  }

  /** Drift checks, preflight, the user's steps, remember. */
  function BuildThinPlan(ctx: PlanContext, steps: seq<Step>, execute: bool): seq<Step> {
    var plan := PlanWithPreflight(steps, execute);
    var targets := KvmStepTargets(ctx, steps);
    if !execute || targets == [] then plan
    else DriftStepsFor(ctx, targets) + plan + [RememberStep(ctx, targets)]
  }

  /** The steps the builder puts before and after the user's in an executed plan. */
  function Lead(ctx: PlanContext, steps: seq<Step>): seq<Step> {
    DriftStepsFor(ctx, KvmStepTargets(ctx, steps)) + (if HasCdp(steps) then [PreflightStep(steps)] else [])
  }

  function Tail(ctx: PlanContext, steps: seq<Step>): seq<Step> {
    var targets := KvmStepTargets(ctx, steps);
    if targets == [] then [] else [RememberStep(ctx, targets)]
  }

  predicate Listed(v: Value, ts: seq<string>) {
    v.Arr? && |v.items| == |ts| && forall i :: 0 <= i < |ts| ==> v.items[i] == Str(ts[i])
  }

  /** The injected steps, field by field. */
  lemma {:induction false} InjectedRead(ctx: PlanContext, steps: seq<Step>, targets: seq<string>, i: nat)
    requires i < |targets|
    ensures var d := DriftStepsFor(ctx, targets)[i];
            && |DriftStepsFor(ctx, targets)| == |targets|
            && d.id == "twin:drift:" + targets[i] && d.uri == "twin://" + targets[i] + "/env/query/drift"
            && d.payload == map["node" := Str(targets[i]), "routes" := ctx.routes]
    ensures var m := RememberStep(ctx, targets);
            && m.id == "memory:remember" && m.uri == "twin://host/memory/command/remember"
            && m.payload.Keys == {"nodes", "routes", "flow_key", "record"}
            && Listed(m.payload["nodes"], targets) && m.payload["routes"] == ctx.routes
            && m.payload["flow_key"] == Str(ctx.flowKey) && m.payload["record"] == ctx.record
    ensures var q := PreflightStep(steps);
            && q.id == "preflight" && q.uri == "twin://host/flow/command/preflight"
            && q.payload.Keys == {"steps"} && q.payload["steps"].Arr? && |q.payload["steps"].items| == |steps|
            && forall j :: 0 <= j < |steps| ==> Documents(q.payload["steps"].items[j], steps[j])
  {
    hide Documents, StepDocument;
    forall j | 0 <= j < |steps| ensures Documents(PreflightStep(steps).payload["steps"].items[j], steps[j]) {
      DocumentReads(steps[j]);
    }
  }

  predicate Documents(v: Value, s: Step) {
    && v.Obj? && v.fields.Keys == {"id", "uri", "payload", "depends_on", "optional"}
    && v.fields["id"] == Str(s.id) && v.fields["uri"] == Str(s.uri) && v.fields["payload"] == Obj(s.payload)
    && Listed(v.fields["depends_on"], s.dependsOn) && v.fields["optional"] == Bool(s.optional)
  }

  lemma {:induction false} DocumentReads(s: Step)
    ensures Documents(StepDocument(s), s)
  {
  }

  /** A preflight step exactly when some step opens a browser page. */
  lemma {:induction false} CdpReads(steps: seq<Step>)
    ensures HasCdp(steps) <==> exists s, a, b :: s in steps && s.uri == a + "/cdp/page/" + b
  {
    forall s: Step ensures Contains(s.uri, "/cdp/page/") <==> exists a, b :: s.uri == a + "/cdp/page/" + b {
      ContainsReads(s.uri, "/cdp/page/");
    }
    hide Contains;
  }

  lemma {:induction false} AddedAreAdvisory(ctx: PlanContext, steps: seq<Step>)
    ensures forall s :: s in Lead(ctx, steps) + Tail(ctx, steps) ==> s.optional && s.dependsOn == []
  {
    hide KvmStepTargets, HasCdp, Step.Sid;
    forall s | s in DriftStepsFor(ctx, KvmStepTargets(ctx, steps)) ensures s.optional && s.dependsOn == [] {
    }
  }

  lemma {:induction false} PlanShape(ctx: PlanContext, steps: seq<Step>)
    ensures BuildThinPlan(ctx, steps, true) == Lead(ctx, steps) + (steps + Tail(ctx, steps))
    ensures steps == [] ==> Lead(ctx, steps) == []
    ensures |Tail(ctx, steps)| <= if steps == [] then 0 else 1
    ensures forall s :: s in Lead(ctx, steps) + Tail(ctx, steps) ==> s.optional && s.dependsOn == []
  {
    AddedAreAdvisory(ctx, steps);
    hide PreflightStep, RememberStep;
  }

  predicate Ascending(ts: seq<string>) {
    forall i, j :: 0 <= i < j < |ts| ==> Before(ts[i], ts[j])
  }

  lemma {:induction false} Inserted(t: string, ts: seq<string>)
    requires Ascending(ts)
    ensures var r := InsertTarget(t, ts);
            (forall x :: x in r <==> x == t || x in ts) && Ascending(r)
    decreases |ts|
  {
    if ts == [] || t == ts[0] {
    } else if Before(t, ts[0]) {
      forall j | 0 <= j < |ts| ensures Before(t, ts[j]) {
        if j > 0 {
          BeforeTransitive(t, ts[0], ts[j]);
        }
      }
    } else {
      Inserted(t, ts[1..]);
      BeforeTotal(t, ts[0]);
      var r := InsertTarget(t, ts[1..]);
      forall j | 0 <= j < |r| ensures Before(ts[0], r[j]) {
        assert r[j] in r;
        if r[j] != t {
          var k :| 0 <= k < |ts[1..]| && ts[1..][k] == r[j];
          assert ts[k + 1] == r[j];
        }
      }
      assert ts == [ts[0]] + ts[1..];
    }
  }

  lemma {:induction false} BeforeTransitive(a: string, b: string, c: string)
    requires Before(a, b) && Before(b, c)
    ensures Before(a, c)
    decreases |a|
  {
    if a != "" && a[0] == b[0] && b[0] == c[0] {
      BeforeTransitive(a[1..], b[1..], c[1..]);
    }
  }

  lemma {:induction false} BeforeTotal(a: string, b: string)
    ensures a == b || Before(a, b) || Before(b, a)
    decreases |a|
  {
    if a != "" && b != "" && a[0] == b[0] {
      BeforeTotal(a[1..], b[1..]);
      if a[1..] == b[1..] {
        assert a == [a[0]] + a[1..] && b == [b[0]] + b[1..];
      }
    }
  }

  predicate OnKvm(ctx: PlanContext, s: Step, t: string) {
    StartsWith(s.uri, "kvm://") && ctx.target(s.uri) == t
  }

  /** The drift checks cover every kvm node once, in ascending order. */
  lemma {:induction false} KvmStepTargetsSpec(ctx: PlanContext, steps: seq<Step>)
    ensures var ts := KvmStepTargets(ctx, steps);
            && (forall t :: t in ts <==>
                  t != "" && exists s :: s in steps && OnKvm(ctx, s, t))
            && Ascending(ts)
    decreases |steps|
  {
    if steps != [] {
      var first, rest := steps[0], KvmStepTargets(ctx, steps[1..]);
      KvmStepTargetsSpec(ctx, steps[1..]);
      Inserted(ctx.target(first.uri), rest);
      forall t: string
        ensures t in KvmStepTargets(ctx, steps) <==> t != "" && exists s :: s in steps && OnKvm(ctx, s, t)
      {
        assert t in KvmStepTargets(ctx, steps) <==> t in rest || (t != "" && OnKvm(ctx, first, t));
        if OnKvm(ctx, first, t) {
          assert first in steps;
        }
        forall s | s in steps[1..] ensures s in steps {
        }
      }
    }
  }
}
