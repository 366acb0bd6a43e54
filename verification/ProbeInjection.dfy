/**
 The planner's rewriting pass: a readiness probe goes between every step that
 launches a browser session and a following step that opens one of its pages.
 */
module ProbeInjection {
  import opened Text
  import opened Json

  const ENSURE_SUFFIX := "/cdp/session/command/ensure"
  const READY_SUFFIX := "/cdp/session/query/ready"
  const PAGE_PREFIX := "/cdp/page/"

  datatype Step = Step(id: string, uri: string, payload: Dict, dependsOn: seq<string>)

  /** What the pass is given: naming, addressing, and the payload schemas of the routes. */
  datatype Planner = Planner(
    allowed: set<string>,
    target: string -> string,
    slug: string -> string,
    decimal: nat -> string,
    // false when a route's input schema rejects the payload, which raises
    accepts: (string, Dict) -> bool)

  // -------------------------------------------------------------- availability

  function UriSegments(uri: string): (string, seq<string>) {
    match SchemeEnd(uri)
    case None => (uri, [""])
    case Some(i) => (uri[..i], Split(uri[i + 3..], '/'))
  }

  /** A URI is cut at its first "://", and what follows at its slashes. */
  lemma {:induction false} SegmentsRead(scheme: string, rest: string)
    requires forall k: nat :: k < |scheme| ==> !MarkAt(scheme + "://" + rest, k)
    ensures UriSegments(scheme + "://" + rest) == (scheme, Split(rest, '/'))
    ensures (forall k: nat :: !MarkAt(rest, k)) ==> UriSegments(rest) == (rest, [""])
  {
    var uri := scheme + "://" + rest;
    assert MarkAt(uri, |scheme|);
    hide SchemeEnd, Split;
    assert SchemeEnd(uri) == Some(|scheme|);
    assert uri[..|scheme|] == scheme && uri[|scheme| + 3..] == rest;
  }

  predicate IsParam(t: string) { StartsWith(t, "{") && EndsWith(t, "}") }

  /** A `{param}` segment of the template binds any one segment. */
  predicate MatchesTemplate(concrete: string, template: string) {
    var (cs, c) := UriSegments(concrete);
    var (ts, t) := UriSegments(template);
    cs == ts && |c| == |t| && forall i :: 0 <= i < |t| ==> t[i] == c[i] || IsParam(t[i])
  }

  /** A template with its parameters filled in. */
  function Filled(template: seq<string>, values: seq<string>): seq<string>
    requires |values| == |template|
  {
    seq(|template|, i requires 0 <= i < |template| => if IsParam(template[i]) then values[i] else template[i])
  }

  predicate FilledBy(concrete: seq<string>, template: seq<string>, values: seq<string>) {
    |values| == |template| && concrete == Filled(template, values)
  }

  /** A URI matches a template exactly when some values for its parameters give the URI. */
  lemma {:induction false} TemplateMeaning(concrete: string, template: string)
    ensures MatchesTemplate(concrete, template) <==>
            && UriSegments(concrete).0 == UriSegments(template).0
            && exists values :: FilledBy(UriSegments(concrete).1, UriSegments(template).1, values)
  {
    hide UriSegments, IsParam;
    var c, t := UriSegments(concrete).1, UriSegments(template).1;
    if MatchesTemplate(concrete, template) {
      assert c == Filled(t, c);
      assert FilledBy(c, t, c);
    }
  }

  predicate Available(p: Planner, uri: string) {
    uri in p.allowed || exists a :: a in p.allowed && '{' in a && MatchesTemplate(uri, a)
  }

  /** A parameter: a text in braces. */
  lemma {:induction false} ParamReads(t: string)
    ensures IsParam(t) <==> exists name :: t == "{" + name + "}"
  {
    if IsParam(t) {
      assert t[..1][0] == t[0] == '{' && t[|t| - 1..][0] == t[|t| - 1] == '}';
      var name := t[1..|t| - 1];
      assert t[..1] == "{" && t[|t| - 1..] == "}";
      assert t == "{" + name + "}";
    }
    if name: string :| t == "{" + name + "}" {
      assert t[|t| - 1..] == "}" && t[..1] == "{";
    }
  }

  /** The URI is allowed, or some allowed template with a brace in it can be filled in to give it. */
  lemma {:induction false} AvailableReads(p: Planner, uri: string)
    ensures Available(p, uri) <==>
            || uri in p.allowed
            || exists a, values :: a in p.allowed && '{' in a && UriSegments(uri).0 == UriSegments(a).0
                                   && FilledBy(UriSegments(uri).1, UriSegments(a).1, values)
  {
    hide UriSegments, FilledBy, MatchesTemplate;
    if Available(p, uri) && uri !in p.allowed {
      var a :| a in p.allowed && '{' in a && MatchesTemplate(uri, a);
      TemplateMeaning(uri, a);
    }
    if a, values :| a in p.allowed && '{' in a && UriSegments(uri).0 == UriSegments(a).0
                    && FilledBy(UriSegments(uri).1, UriSegments(a).1, values) {
      TemplateMeaning(uri, a);
    }
  }

  // -------------------------------------------------------------------- the pass

  /** The jump from an ensure to a page of the same target. */
  predicate NeedsProbe(p: Planner, prev: string, next: string) {
    && EndsWith(prev, ENSURE_SUFFIX)
    && !EndsWith(next, READY_SUFFIX)
    && Contains(next, PAGE_PREFIX) && p.target(next) == p.target(prev)
  }

  function ProbeUri(p: Planner, uri: string): string { "kvm://" + p.target(uri) + READY_SUFFIX }

  const PROBE_PAYLOAD: Dict := map["timeout" := Num(25.0)]

  function UniqueId(p: Planner, id: string, index: nat, used: set<string>): string {
    if p.slug(id) in used then p.slug(id) + "_" + p.decimal(index) else p.slug(id)
  }

  function ProbeFor(p: Planner, step: Step, index: nat, used: set<string>): Step {
    Step(UniqueId(p, step.id + "_await_ready", index, used), ProbeUri(p, step.uri), PROBE_PAYLOAD, [p.slug(step.id)])
  }

  function Replace(deps: seq<string>, old_: string, new_: string): seq<string> {
    seq(|deps|, i requires 0 <= i < |deps| => if deps[i] == old_ then new_ else deps[i])
  }

  /** Re-point a step at the probe. */
  function Repoint(step: Step, old_: string, probe: string): Step {
    var deps := Replace(step.dependsOn, old_, probe);
    step.(dependsOn := if probe in deps then deps else [probe] + deps)
  }

  /** A jump needs a probe from `…/cdp/session/command/ensure` to a page of the same target that is no probe itself. */
  lemma {:induction false} NeedsProbeReads(p: Planner, prev: string, next: string)
    ensures NeedsProbe(p, prev, next) <==>
            && (exists a :: prev == a + "/cdp/session/command/ensure")
            && (exists a, b :: next == a + "/cdp/page/" + b)
            && !(exists a :: next == a + "/cdp/session/query/ready")
            && p.target(next) == p.target(prev)
  {
    AffixReads(prev, "/cdp/session/command/ensure");
    AffixReads(next, "/cdp/session/query/ready");
    ContainsReads(next, "/cdp/page/");
    hide EndsWith, Contains;
  }

  /** What a probe asks, with which patience, and of whom. */
  lemma {:induction false} ProbeReads(p: Planner, step: Step, index: nat, used: set<string>)
    ensures var probe := ProbeFor(p, step, index, used);
            && probe.uri == "kvm://" + p.target(step.uri) + "/cdp/session/query/ready"
            && probe.payload == map["timeout" := Num(25.0)]
            && probe.dependsOn == [p.slug(step.id)]
            && var name := p.slug(step.id + "_await_ready");
               probe.id == if name in used then name + "_" + p.decimal(index) else name
  {
  }

  /** Is a probe due after step `k`? */
  predicate DueAt(p: Planner, steps: seq<Step>, k: nat) {
    k + 1 < |steps| && NeedsProbe(p, steps[k].uri, steps[k + 1].uri) && Available(p, ProbeUri(p, steps[k].uri))
  }

  /** The steps still to visit once a probe follows the first of these. */
  function Onward(steps: seq<Step>, probe: Step): seq<Step>
    requires |steps| >= 2
  {
    [Repoint(steps[1], steps[0].id, probe.id)] + steps[2..]
  }

  /** The rest of the pass, with `n` steps in all; none when a probe's payload is rejected. */
  function Inject(p: Planner, n: nat, steps: seq<Step>, out: seq<Step>, used: set<string>): Option<(seq<Step>, set<string>)>
    decreases |steps|
  {
    if steps == [] then Some((out, used))
    else if !DueAt(p, steps, 0) then Inject(p, n, steps[1..], out + [steps[0]], used)
    else if !p.accepts(ProbeUri(p, steps[0].uri), PROBE_PAYLOAD) then None
    else
      var probe := ProbeFor(p, steps[0], n + |out| + 1, used);
      Inject(p, n, Onward(steps, probe), out + [steps[0], probe], used + {probe.id})
  }

  function InjectAll(p: Planner, steps: seq<Step>, used: set<string>): Option<seq<Step>> {
    match Inject(p, |steps|, steps, [], used)
    case None => None
    case Some((out, _)) => Some(out)
  }

  method InjectCdpReadyProbes(p: Planner, steps: seq<Step>, used: set<string>) returns (r: Option<seq<Step>>)
    ensures r == InjectAll(p, steps, used)
  {
    hide NeedsProbe, Available, ProbeFor, Repoint;
    var work, out, taken := steps, [], used;
    assert steps[0..] == steps;
    for index := 0 to |steps|
      invariant |work| == |steps|
      invariant Inject(p, |steps|, work[index..], out, taken) == Inject(p, |steps|, steps, [], used)
    {
      var step := work[index];
      ghost var before, rest := out, work[index..];
      out := out + [step];
      assert rest[1..] == work[index + 1..];
      assert index + 1 < |work| ==> rest[1] == work[index + 1];
      if index + 1 < |work| && NeedsProbe(p, step.uri, work[index + 1].uri) && Available(p, ProbeUri(p, step.uri)) {
        assert DueAt(p, rest, 0);
        if !p.accepts(ProbeUri(p, step.uri), PROBE_PAYLOAD) {
          return None;
        }
        var probe := ProbeFor(p, step, |steps| + |out|, taken);
        taken := taken + {probe.id};
        out := out + [probe];
        assert out == before + [step, probe];
        work := work[index + 1 := Repoint(work[index + 1], step.id, probe.id)];
        assert work[index + 1..] == Onward(rest, probe);
      }
    }
    assert work[|steps|..] == [];
    return Some(out);
  }

  // ------------------------------------------------------ what the pass produces

  /** Where step `k` lands: every step takes one place, and two when a probe follows it. */
  function Place(p: Planner, steps: seq<Step>, k: nat): (i: nat)
    requires k <= |steps|
    ensures i >= k
  {
    if k == 0 then 0 else (if DueAt(p, steps, 0) then 2 else 1) + Place(p, steps[1..], k - 1)
  }

  /** The probe of an ensure step: it polls the same target and waits for the ensure. */
  predicate ProbeOf(p: Planner, ensure: Step, probe: Step) {
    probe.uri == ProbeUri(p, ensure.uri) && probe.payload == PROBE_PAYLOAD && probe.dependsOn == [p.slug(ensure.id)]
  }

  /** The dependencies of step `k`, the step before its place in `out` being a probe when one was due. */
  function NewDeps(p: Planner, steps: seq<Step>, out: seq<Step>, k: nat, i: nat): seq<string>
    requires k < |steps| && i < |out|
  {
    if k > 0 && i > 0 && DueAt(p, steps, k - 1)
    then Repoint(steps[k], steps[k - 1].id, out[i - 1].id).dependsOn
    else steps[k].dependsOn
  }

  /** Step `k` keeps its id, URI and payload, and is followed by its probe when one is due. */
  predicate PlacedAt(p: Planner, steps: seq<Step>, out: seq<Step>, k: nat, i: nat)
    requires k < |steps|
  {
    && i < |out|
    && out[i] == steps[k].(dependsOn := NewDeps(p, steps, out, k, i))
    && (DueAt(p, steps, k) ==> i + 1 < |out| && ProbeOf(p, steps[k], out[i + 1]))
  }

  /** `out` is exactly the steps in order, one probe after each step where one is due. */
  ghost predicate Rewritten(p: Planner, steps: seq<Step>, out: seq<Step>) {
    && |out| == Place(p, steps, |steps|)
    && forall k :: 0 <= k < |steps| ==> PlacedAt(p, steps, out, k, Place(p, steps, k))
  }

  /** No probe is due between any two adjacent steps. */
  ghost predicate Bridged(p: Planner, out: seq<Step>) {
    forall k: nat :: !DueAt(p, out, k)
  }

  lemma {:induction false} ProbeIsReady(p: Planner, uri: string)
    ensures EndsWith(ProbeUri(p, uri), READY_SUFFIX)
    ensures !EndsWith(ProbeUri(p, uri), ENSURE_SUFFIX)
  {
    var u := ProbeUri(p, uri);
    assert u[|u| - |READY_SUFFIX|..] == READY_SUFFIX;
    assert u[|u| - 1] == READY_SUFFIX[|READY_SUFFIX| - 1] == 'y';
    assert ENSURE_SUFFIX[|ENSURE_SUFFIX| - 1] == 'e';
    assert |ENSURE_SUFFIX| <= |u| ==> u[|u| - |ENSURE_SUFFIX|..][|ENSURE_SUFFIX| - 1] == 'y';
  }

  /** Whether a probe is due depends on the URIs only. */
  lemma {:induction false} DueByUri(p: Planner, a: seq<Step>, b: seq<Step>, k: nat)
    requires |a| == |b| && forall i :: 0 <= i < |a| ==> a[i].uri == b[i].uri
    ensures DueAt(p, a, k) <==> DueAt(p, b, k)
  {
  }

  lemma {:induction false} DueShift(p: Planner, steps: seq<Step>, k: nat)
    requires steps != []
    ensures DueAt(p, steps[1..], k) <==> DueAt(p, steps, k + 1)
  {
  }

  lemma {:induction false} PlaceByUri(p: Planner, a: seq<Step>, b: seq<Step>, k: nat)
    requires |a| == |b| && forall i :: 0 <= i < |a| ==> a[i].uri == b[i].uri
    requires k <= |a|
    ensures Place(p, a, k) == Place(p, b, k)
    decreases k
  {
    hide DueAt;
    if k > 0 {
      DueByUri(p, a, b, 0);
      PlaceByUri(p, a[1..], b[1..], k - 1);
    }
  }

  /** Consecutive steps land next to each other, or with one place between for the probe. */
  lemma {:induction false} PlaceNext(p: Planner, steps: seq<Step>, k: nat)
    requires k < |steps|
    ensures Place(p, steps, k + 1) == Place(p, steps, k) + if DueAt(p, steps, k) then 2 else 1
    decreases k
  {
    hide DueAt;
    if k > 0 {
      PlaceNext(p, steps[1..], k - 1);
      DueShift(p, steps, k - 1);
    }
  }

  lemma {:induction false} PlaceIncreases(p: Planner, steps: seq<Step>, j: nat, k: nat)
    requires j < k <= |steps|
    ensures Place(p, steps, j) < Place(p, steps, k)
    ensures DueAt(p, steps, j) ==> Place(p, steps, j) + 1 < Place(p, steps, k)
    decreases k
  {
    hide DueAt, Place;
    PlaceNext(p, steps, k - 1);
    if j < k - 1 {
      PlaceIncreases(p, steps, j, k - 1);
    }
  }

  /** Every place is a step's or, when a probe is due after it, the one behind it. */
  lemma {:induction false} Located(p: Planner, steps: seq<Step>, i: nat) returns (k: nat)
    requires i < Place(p, steps, |steps|)
    ensures k < |steps|
    ensures i == Place(p, steps, k) || (DueAt(p, steps, k) && i == Place(p, steps, k) + 1)
    decreases |steps|
  {
    hide DueAt;
    k := 0;
    if i >= (if DueAt(p, steps, 0) then 2 else 1) {
      var j := Located(p, steps[1..], i - if DueAt(p, steps, 0) then 2 else 1);
      DueShift(p, steps, j);
      k := j + 1;
    }
  }

  // ------------------------------------------------------------------ the result

  /** The output only grows, by what the remaining steps contribute. */
  lemma {:induction false} InjectGrows(p: Planner, n: nat, steps: seq<Step>, out: seq<Step>, used: set<string>)
    requires Inject(p, n, steps, out, used).Some?
    ensures out <= Inject(p, n, steps, out, used).value.0
    decreases |steps|
  {
    hide NeedsProbe, Available, ProbeFor, Repoint;
    if steps != [] {
      if !DueAt(p, steps, 0) {
        InjectGrows(p, n, steps[1..], out + [steps[0]], used);
      } else {
        var probe := ProbeFor(p, steps[0], n + |out| + 1, used);
        InjectGrows(p, n, Onward(steps, probe), out + [steps[0], probe], used + {probe.id});
      }
    }
  }

  function Added(p: Planner, n: nat, steps: seq<Step>, out: seq<Step>, used: set<string>): seq<Step>
    requires Inject(p, n, steps, out, used).Some?
  {
    InjectGrows(p, n, steps, out, used);
    Inject(p, n, steps, out, used).value.0[|out|..]
  }

  lemma {:induction false} AddedPlain(p: Planner, n: nat, steps: seq<Step>, out: seq<Step>, used: set<string>)
    requires Inject(p, n, steps, out, used).Some? && steps != [] && !DueAt(p, steps, 0)
    ensures Inject(p, n, steps[1..], out + [steps[0]], used).Some?
    ensures Added(p, n, steps, out, used) == [steps[0]] + Added(p, n, steps[1..], out + [steps[0]], used)
  {
    hide DueAt, ProbeFor, Onward;
    InjectGrows(p, n, steps[1..], out + [steps[0]], used);
  }

  lemma {:induction false} AddedProbe(p: Planner, n: nat, steps: seq<Step>, out: seq<Step>, used: set<string>, probe: Step)
    requires Inject(p, n, steps, out, used).Some? && |steps| >= 2 && DueAt(p, steps, 0)
    requires probe == ProbeFor(p, steps[0], n + |out| + 1, used)
    ensures Inject(p, n, Onward(steps, probe), out + [steps[0], probe], used + {probe.id}).Some?
    ensures Added(p, n, steps, out, used) ==
            [steps[0], probe] + Added(p, n, Onward(steps, probe), out + [steps[0], probe], used + {probe.id})
  {
    hide DueAt, ProbeFor, Onward;
    InjectGrows(p, n, Onward(steps, probe), out + [steps[0], probe], used + {probe.id});
  }

  lemma {:induction false} PlainRewritten(p: Planner, steps: seq<Step>, rest: seq<Step>)
    requires steps != [] && !DueAt(p, steps, 0) && Rewritten(p, steps[1..], rest)
    ensures Rewritten(p, steps, [steps[0]] + rest)
  {
    hide DueAt, ProbeOf, Repoint;
    var out := [steps[0]] + rest;
    forall k | 0 <= k < |steps| ensures PlacedAt(p, steps, out, k, Place(p, steps, k)) {
      if k > 0 {
        assert PlacedAt(p, steps[1..], rest, k - 1, Place(p, steps[1..], k - 1));
        DueShift(p, steps, k - 1);
        if k > 1 {
          DueShift(p, steps, k - 2);
        }
      }
    }
  }

  lemma {:induction false} RepointWork(step: Step, ensure: string, probe: string)
    ensures Repoint(step, ensure, probe) == step.(dependsOn := Repoint(step, ensure, probe).dependsOn)
  {
  }

  lemma {:induction false} ProbeOnward(steps: seq<Step>, probe: Step)
    requires |steps| >= 2
    ensures Onward(steps, probe) == [Repoint(steps[1], steps[0].id, probe.id)] + steps[2..]
  {
  }

  lemma {:induction false} FirstPlaced(p: Planner, steps: seq<Step>, probe: Step, rest: seq<Step>)
    requires |steps| >= 2 && ProbeOf(p, steps[0], probe)
    ensures PlacedAt(p, steps, [steps[0], probe] + rest, 0, 0)
  {
  }

  lemma {:induction false} ProbePlaced(p: Planner, steps: seq<Step>, probe: Step, rest: seq<Step>, k: nat, i: nat)
    requires |steps| >= 2 && DueAt(p, steps, 0) && 1 <= k < |steps| && k - 1 <= i
    requires k > 1 ==> i > 0
    requires k == 1 ==> i == 0
    requires PlacedAt(p, Onward(steps, probe), rest, k - 1, i)
    ensures PlacedAt(p, steps, [steps[0], probe] + rest, k, i + 2)
  {
    hide DueAt, ProbeUri, Repoint;
    var todo := Onward(steps, probe);
    RepointWork(steps[1], steps[0].id, probe.id);
    assert todo[k - 1].(dependsOn := []) == steps[k].(dependsOn := []);
    DueByUri(p, todo, steps[1..], k - 1);
    DueShift(p, steps, k - 1);
    if k > 1 {
      DueByUri(p, todo, steps[1..], k - 2);
      DueShift(p, steps, k - 2);
      assert todo[k - 1] == steps[k] && todo[k - 2].id == steps[k - 1].id;
    }
  }

  lemma {:induction false} ProbeRewritten(p: Planner, steps: seq<Step>, probe: Step, rest: seq<Step>)
    requires |steps| >= 2 && DueAt(p, steps, 0) && ProbeOf(p, steps[0], probe)
    requires Rewritten(p, Onward(steps, probe), rest)
    ensures Rewritten(p, steps, [steps[0], probe] + rest)
  {
    hide DueAt, ProbeOf, Repoint, PlacedAt, Onward;
    var todo, out := Onward(steps, probe), [steps[0], probe] + rest;
    assert |todo| == |steps| - 1 && forall k :: 0 <= k < |todo| ==> todo[k].uri == steps[k + 1].uri by {
      RepointWork(steps[1], steps[0].id, probe.id);
      assert todo == [Repoint(steps[1], steps[0].id, probe.id)] + steps[2..] by { ProbeOnward(steps, probe); }
    }
    PlaceByUri(p, todo, steps[1..], |todo|);
    forall k | 0 <= k < |steps| ensures PlacedAt(p, steps, out, k, Place(p, steps, k)) {
      if k > 0 {
        PlaceByUri(p, todo, steps[1..], k - 1);
        assert PlacedAt(p, todo, rest, k - 1, Place(p, todo, k - 1));
        ProbePlaced(p, steps, probe, rest, k, Place(p, todo, k - 1));
      } else {
        FirstPlaced(p, steps, probe, rest);
      }
    }
  }

  lemma {:induction false} AddedRewritten(p: Planner, n: nat, steps: seq<Step>, out: seq<Step>, used: set<string>)
    requires Inject(p, n, steps, out, used).Some?
    ensures Rewritten(p, steps, Added(p, n, steps, out, used))
    decreases |steps|
  {
    hide Rewritten, NeedsProbe, Available, Repoint;
    if steps == [] {
      assert Added(p, n, steps, out, used) == [];
      NothingRewritten(p);
    } else if !DueAt(p, steps, 0) {
      AddedPlain(p, n, steps, out, used);
      AddedRewritten(p, n, steps[1..], out + [steps[0]], used);
      PlainRewritten(p, steps, Added(p, n, steps[1..], out + [steps[0]], used));
    } else {
      var probe := ProbeFor(p, steps[0], n + |out| + 1, used);
      var todo := Onward(steps, probe);
      AddedProbe(p, n, steps, out, used, probe);
      AddedRewritten(p, n, todo, out + [steps[0], probe], used + {probe.id});
      ProbeRewritten(p, steps, probe, Added(p, n, todo, out + [steps[0], probe], used + {probe.id}));
    }
  }

  lemma {:induction false} NothingRewritten(p: Planner)
    ensures Rewritten(p, [], [])
  {
  }

  /** A rewritten plan needs no more probes. */
  lemma {:induction false} RewrittenBridged(p: Planner, steps: seq<Step>, out: seq<Step>)
    requires Rewritten(p, steps, out)
    ensures Bridged(p, out)
  {
    forall i: nat ensures !DueAt(p, out, i) {
      if i + 1 < |out| {
        NotDueIn(p, steps, out, i);
      }
    }
  }

  lemma {:induction false} NotDueIn(p: Planner, steps: seq<Step>, out: seq<Step>, i: nat)
    requires Rewritten(p, steps, out) && i + 1 < |out|
    ensures !DueAt(p, out, i)
  {
    hide Place, Available, Repoint, Contains, EndsWith;
    var k := Located(p, steps, i);
    PlaceNext(p, steps, k);
    assert PlacedAt(p, steps, out, k, Place(p, steps, k));
    ProbeIsReady(p, steps[k].uri);
    if i == Place(p, steps, k) && !DueAt(p, steps, k) {
      if k + 1 < |steps| {
        assert PlacedAt(p, steps, out, k + 1, Place(p, steps, k + 1));
      }
    }
  }

  lemma {:induction false} BridgedUnchanged(p: Planner, n: nat, steps: seq<Step>, out: seq<Step>, used: set<string>)
    requires Bridged(p, steps)
    ensures Inject(p, n, steps, out, used) == Some((out + steps, used))
    decreases |steps|
  {
    hide DueAt;
    if steps == [] {
      assert out + steps == out;
    } else {
      forall k: nat ensures !DueAt(p, steps[1..], k) {
        DueShift(p, steps, k);
      }
      BridgedUnchanged(p, n, steps[1..], out + [steps[0]], used);
      assert out + [steps[0]] + steps[1..] == out + steps;
    }
  }

  /**
   The rewrite is exact and idempotent: the original steps survive in order, with one
   probe exactly where one is due; no bridgeable jump is left; and a second pass changes
   nothing, whatever names are used by then.
   */
  lemma {:induction false} InjectSound(p: Planner, steps: seq<Step>, used: set<string>, later: set<string>)
    requires InjectAll(p, steps, used).Some?
    ensures var out := InjectAll(p, steps, used).value;
            Rewritten(p, steps, out) && Bridged(p, out) && InjectAll(p, out, later) == Some(out)
  {
    hide Inject, Bridged, Rewritten;
    AddedRewritten(p, |steps|, steps, [], used);
    var out := InjectAll(p, steps, used).value;
    assert Added(p, |steps|, steps, [], used) == out;
    RewrittenBridged(p, steps, out);
    BridgedUnchanged(p, |out|, out, [], later);
    assert [] + out == out;
  }

  /** A probe is due after step `k`, and its route rejects the payload. */
  predicate RejectedAt(p: Planner, steps: seq<Step>, k: nat) {
    && k < |steps| && DueAt(p, steps, k)
    && !p.accepts("kvm://" + p.target(steps[k].uri) + "/cdp/session/query/ready", map["timeout" := Num(25.0)])
  }

  /** The pass fails exactly when some probe is rejected. */
  lemma {:induction false} InjectFails(p: Planner, steps: seq<Step>, used: set<string>)
    ensures InjectAll(p, steps, used).None? <==> exists k :: RejectedAt(p, steps, k)
  {
    RestFails(p, |steps|, steps, [], used);
  }

  lemma {:induction false} RestFails(p: Planner, n: nat, steps: seq<Step>, out: seq<Step>, used: set<string>)
    ensures Inject(p, n, steps, out, used).None? <==> exists k :: RejectedAt(p, steps, k)
    decreases |steps|
  {
    hide NeedsProbe, Available, ProbeFor, Repoint;
    if steps != [] {
      if !DueAt(p, steps, 0) {
        RestFails(p, n, steps[1..], out + [steps[0]], used);
        RejectedBehind(p, steps, steps[1..]);
      } else if p.accepts(ProbeUri(p, steps[0].uri), PROBE_PAYLOAD) {
        var probe := ProbeFor(p, steps[0], n + |out| + 1, used);
        var rest := Onward(steps, probe);
        RestFails(p, n, rest, out + [steps[0], probe], used + {probe.id});
        assert rest[0].uri == steps[1].uri by { RepointKeepsUri(steps[1], steps[0].id, probe.id); }
        RejectedBehind(p, steps, rest);
      } else {
        assert RejectedAt(p, steps, 0);
      }
    }
  }

  lemma {:induction false} RepointKeepsUri(step: Step, old_: string, probe: string)
    ensures Repoint(step, old_, probe).uri == step.uri
  {
  }

  /** Behind a step with no rejected probe, what is rejected is rejected in the rest; only URIs count. */
  lemma {:induction false} RejectedBehind(p: Planner, steps: seq<Step>, rest: seq<Step>)
    requires steps != [] && !RejectedAt(p, steps, 0)
    requires |rest| == |steps| - 1 && forall k :: 0 <= k < |rest| ==> rest[k].uri == steps[k + 1].uri
    ensures (exists k :: RejectedAt(p, steps, k)) <==> exists k :: RejectedAt(p, rest, k)
  {
    hide NeedsProbe, Available;
    if k: nat :| RejectedAt(p, steps, k) {
      assert RejectedAt(p, rest, k - 1);
    }
    if k: nat :| RejectedAt(p, rest, k) {
      assert RejectedAt(p, steps, k + 1);
    }
  }

  // ---------------------------------------------------------------- dependencies

  predicate Earlier(steps: seq<Step>, k: nat, dep: string) {
    exists j :: 0 <= j < k && j < |steps| && steps[j].id == dep
  }

  /** Every dependency names an earlier step. */
  predicate DependsBack(steps: seq<Step>) {
    forall k, d :: 0 <= k < |steps| && d in steps[k].dependsOn ==> Earlier(steps, k, d)
  }

  /** The page reaches the ensure through the probe, and no longer directly. */
  predicate Chained(ensure: Step, probe: Step, page: Step) {
    && probe.dependsOn == [ensure.id] && probe.id in page.dependsOn
    && (probe.id != ensure.id ==> ensure.id !in page.dependsOn)
  }

  lemma {:induction false} RepointDeps(step: Step, ensure: string, probe: string)
    ensures var deps := Repoint(step, ensure, probe).dependsOn;
            && probe in deps && (probe != ensure ==> ensure !in deps)
            && forall d :: d in deps ==> d == probe || d in step.dependsOn
  {
    var deps := Replace(step.dependsOn, ensure, probe);
    forall d | d in deps ensures d == probe || (d != ensure && d in step.dependsOn) {
      var i :| 0 <= i < |deps| && deps[i] == d;
      assert step.dependsOn[i] in step.dependsOn;
    }
  }

  lemma {:induction false} StaysEarlier(p: Planner, steps: seq<Step>, out: seq<Step>, k: nat, d: string)
    requires Rewritten(p, steps, out) && k < |steps| && Earlier(steps, k, d)
    ensures Earlier(out, Place(p, steps, k), d)
  {
    hide Place, DueAt, NewDeps, ProbeOf;
    var j :| 0 <= j < k && steps[j].id == d;
    PlaceIncreases(p, steps, j, k);
    assert PlacedAt(p, steps, out, j, Place(p, steps, j));
    assert out[Place(p, steps, j)].id == d;
  }

  lemma {:induction false} DependsBackAt(p: Planner, steps: seq<Step>, out: seq<Step>, i: nat, d: string)
    requires Rewritten(p, steps, out) && DependsBack(steps) && i < |out| && d in out[i].dependsOn
    requires forall k :: 0 <= k < |steps| ==> p.slug(steps[k].id) == steps[k].id
    ensures Earlier(out, i, d)
  {
    hide Place, DueAt, Repoint;
    var k := Located(p, steps, i);
    assert PlacedAt(p, steps, out, k, Place(p, steps, k));
    if i == Place(p, steps, k) {
      if k > 0 && i > 0 && DueAt(p, steps, k - 1) {
        RepointDeps(steps[k], steps[k - 1].id, out[i - 1].id);
      }
      if d in steps[k].dependsOn {
        StaysEarlier(p, steps, out, k, d);
      } else {
        assert out[i - 1].id == d;
      }
    } else {
      assert out[i - 1].id == d;
    }
  }

  /**
   With ids short enough for `slug` to leave alone, dependencies that name earlier steps
   still do, and each page reaches its ensure through the probe.
   */
  lemma {:induction false} InjectKeepsDependencies(p: Planner, steps: seq<Step>, used: set<string>)
    requires InjectAll(p, steps, used).Some? && DependsBack(steps)
    requires forall k :: 0 <= k < |steps| ==> p.slug(steps[k].id) == steps[k].id
    ensures var out := InjectAll(p, steps, used).value;
            && DependsBack(out)
            && forall k :: 0 <= k < |steps| && DueAt(p, steps, k) ==>
                 var i := Place(p, steps, k);
                 i + 2 < |out| && Chained(out[i], out[i + 1], out[i + 2])
  {
    hide InjectAll, Earlier, Rewritten, DueAt, Place;
    InjectSound(p, steps, used, used);
    var out := InjectAll(p, steps, used).value;
    forall i, d | 0 <= i < |out| && d in out[i].dependsOn ensures Earlier(out, i, d) {
      DependsBackAt(p, steps, out, i, d);
    }
    forall k | 0 <= k < |steps| && DueAt(p, steps, k)
      ensures Place(p, steps, k) + 2 < |out|
      ensures Chained(out[Place(p, steps, k)], out[Place(p, steps, k) + 1], out[Place(p, steps, k) + 2])
    {
      ChainedAt(p, steps, out, k);
    }
  }

  lemma {:induction false} ChainedAt(p: Planner, steps: seq<Step>, out: seq<Step>, k: nat)
    requires Rewritten(p, steps, out) && k < |steps| && DueAt(p, steps, k) && p.slug(steps[k].id) == steps[k].id
    ensures var i := Place(p, steps, k);
            i + 2 < |out| && Chained(out[i], out[i + 1], out[i + 2])
  {
    hide Place, NeedsProbe, Available, Repoint;
    var i := Place(p, steps, k);
    PlaceNext(p, steps, k);
    assert PlacedAt(p, steps, out, k, i);
    assert PlacedAt(p, steps, out, k + 1, i + 2);
    RepointDeps(steps[k + 1], steps[k].id, out[i + 1].id);
  }

  // ------------------------------------------------------------------------ names

  predicate DistinctIds(steps: seq<Step>) {
    forall j, k :: 0 <= j < k < |steps| ==> steps[j].id != steps[k].id
  }

  function ProbeName(id: string): string { id + "_await_ready" }

  /** `slug` leaves the probe names alone, and no step has taken one. */
  predicate PlainNames(p: Planner, steps: seq<Step>, used: set<string>) {
    forall k :: 0 <= k < |steps| ==>
      && p.slug(ProbeName(steps[k].id)) == ProbeName(steps[k].id)
      && ProbeName(steps[k].id) !in used
  }

  ghost predicate NamedAfter(p: Planner, steps: seq<Step>, out: seq<Step>) {
    forall k :: 0 <= k < |steps| && DueAt(p, steps, k) ==> ProbeNamed(out, Place(p, steps, k) + 1, steps[k].id)
  }

  predicate ProbeNamed(out: seq<Step>, i: nat, id: string) {
    i < |out| && out[i].id == ProbeName(id)
  }

  lemma {:induction false} PlainNamed(p: Planner, steps: seq<Step>, rest: seq<Step>)
    requires steps != [] && !DueAt(p, steps, 0) && NamedAfter(p, steps[1..], rest)
    ensures NamedAfter(p, steps, [steps[0]] + rest)
  {
    hide DueAt;
    forall k | 0 <= k < |steps| && DueAt(p, steps, k)
      ensures ProbeNamed([steps[0]] + rest, Place(p, steps, k) + 1, steps[k].id)
    {
      DueShift(p, steps, k - 1);
      assert ProbeNamed(rest, Place(p, steps[1..], k - 1) + 1, steps[1..][k - 1].id);
    }
  }

  lemma {:induction false} ProbeNamedFirst(p: Planner, steps: seq<Step>, probe: Step, rest: seq<Step>)
    requires |steps| >= 2 && DueAt(p, steps, 0) && probe.id == ProbeName(steps[0].id)
    requires NamedAfter(p, Onward(steps, probe), rest)
    ensures NamedAfter(p, steps, [steps[0], probe] + rest)
  {
    hide DueAt, Repoint, Onward;
    var todo := Onward(steps, probe);
    assert |todo| == |steps| - 1 && forall k :: 0 <= k < |todo| ==> todo[k].uri == steps[k + 1].uri && todo[k].id == steps[k + 1].id by {
      RepointWork(steps[1], steps[0].id, probe.id);
      ProbeOnward(steps, probe);
    }
    forall k | 0 <= k < |steps| && DueAt(p, steps, k)
      ensures ProbeNamed([steps[0], probe] + rest, Place(p, steps, k) + 1, steps[k].id)
    {
      if k > 0 {
        DueShift(p, steps, k - 1);
        DueByUri(p, todo, steps[1..], k - 1);
        PlaceByUri(p, todo, steps[1..], k - 1);
        assert ProbeNamed(rest, Place(p, todo, k - 1) + 1, todo[k - 1].id);
        assert ([steps[0], probe] + rest)[2..] == rest;
      }
    }
  }

  lemma {:induction false} AddedNamed(p: Planner, n: nat, steps: seq<Step>, out: seq<Step>, used: set<string>)
    requires Inject(p, n, steps, out, used).Some? && PlainNames(p, steps, used) && DistinctIds(steps)
    ensures NamedAfter(p, steps, Added(p, n, steps, out, used))
    decreases |steps|
  {
    hide NamedAfter, NeedsProbe, Available, Added;
    if steps == [] {
      NothingNamed(p, Added(p, n, steps, out, used));
    } else if !DueAt(p, steps, 0) {
      AddedPlain(p, n, steps, out, used);
      AddedNamed(p, n, steps[1..], out + [steps[0]], used);
      PlainNamed(p, steps, Added(p, n, steps[1..], out + [steps[0]], used));
    } else {
      var probe := ProbeFor(p, steps[0], n + |out| + 1, used);
      var todo := Onward(steps, probe);
      assert probe.id == ProbeName(steps[0].id);
      OnwardNames(p, steps, probe, used);
      AddedProbe(p, n, steps, out, used, probe);
      AddedNamed(p, n, todo, out + [steps[0], probe], used + {probe.id});
      ProbeNamedFirst(p, steps, probe, Added(p, n, todo, out + [steps[0], probe], used + {probe.id}));
    }
  }

  lemma {:induction false} NothingNamed(p: Planner, out: seq<Step>)
    ensures NamedAfter(p, [], out)
  {
  }

  lemma {:induction false} ProbeNamesDiffer(a: string, b: string)
    requires ProbeName(a) == ProbeName(b)
    ensures a == b
  {
    assert ProbeName(a)[..|a|] == a;
    assert ProbeName(b)[..|b|] == b;
  }

  lemma {:induction false} OnwardNames(p: Planner, steps: seq<Step>, probe: Step, used: set<string>)
    requires |steps| >= 2 && PlainNames(p, steps, used) && DistinctIds(steps) && probe.id == ProbeName(steps[0].id)
    ensures PlainNames(p, Onward(steps, probe), used + {probe.id}) && DistinctIds(Onward(steps, probe))
  {
    hide Replace, ProbeName;
    var todo := Onward(steps, probe);
    assert forall k :: 0 <= k < |todo| ==> todo[k].id == steps[k + 1].id;
    forall k | 0 <= k < |todo| ensures ProbeName(todo[k].id) != probe.id {
      if ProbeName(todo[k].id) == probe.id {
        ProbeNamesDiffer(steps[k + 1].id, steps[0].id);
      }
    }
  }

  /** The id at a place, by whose place it is. */
  lemma {:induction false} IdAt(p: Planner, steps: seq<Step>, out: seq<Step>, i: nat) returns (k: nat)
    requires Rewritten(p, steps, out) && NamedAfter(p, steps, out) && i < |out|
    ensures k < |steps|
    ensures (i == Place(p, steps, k) && out[i].id == steps[k].id)
         || (i == Place(p, steps, k) + 1 && DueAt(p, steps, k) && out[i].id == ProbeName(steps[k].id))
  {
    hide Place, DueAt, NewDeps, ProbeOf;
    k := Located(p, steps, i);
    assert PlacedAt(p, steps, out, k, Place(p, steps, k));
  }

  /** Ids stay distinct when the steps' own are, all are registered, and the probe names are plain. */
  lemma {:induction false} InjectKeepsDistinct(p: Planner, steps: seq<Step>, used: set<string>)
    requires InjectAll(p, steps, used).Some? && DistinctIds(steps) && PlainNames(p, steps, used)
    requires forall k :: 0 <= k < |steps| ==> steps[k].id in used
    ensures DistinctIds(InjectAll(p, steps, used).value)
  {
    hide Rewritten, DueAt, Place, NamedAfter, Inject, ProbeName;
    InjectSound(p, steps, used, used);
    AddedNamed(p, |steps|, steps, [], used);
    var out := InjectAll(p, steps, used).value;
    assert Added(p, |steps|, steps, [], used) == out;
    forall i, j | 0 <= i < j < |out| ensures out[i].id != out[j].id {
      var a := IdAt(p, steps, out, i);
      var b := IdAt(p, steps, out, j);
      if a != b && out[i].id == ProbeName(steps[a].id) == ProbeName(steps[b].id) {
        ProbeNamesDiffer(steps[a].id, steps[b].id);
      }
    }
  }
}
