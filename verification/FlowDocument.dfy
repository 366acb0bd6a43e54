/** The document form of a flow: `to_dict`, `from_dict`, and what survives the trip. */
module FlowDocument {
  import opened Text
  import opened Json
  import opened FlowGraph

  datatype Flow = Flow(task: Dict, registry: Option<string>, allow: seq<string>, steps: seq<Step>)

  // ------------------------------------------------------------ step validity

  predicate SchemeChar(c: char) {
    'a' <= c <= 'z' || '0' <= c <= '9' || c == '+' || c == '.' || c == '-'
  }

  /** A lower-case scheme followed by "://". */
  predicate IsUri(s: string) {
    var i := IndexOf(s, ':');
    && 0 < i && 'a' <= s[0] <= 'z'
    && (forall k :: 0 <= k < i ==> SchemeChar(s[k]))
    && i + 3 <= |s| && s[i..i + 3] == "://"
  }

  /** The kind named by a path segment, tried in this order. */
  function DerivedKind(uri: string): Option<string> {
    match SchemeEnd(uri)
    case None => None
    case Some(i) =>
      var segments := Split(uri[i + 3..], '/');
      if "query" in segments then Some("query")
      else if "command" in segments then Some("command")
      else if "assertion" in segments then Some("assertion")
      else None
  }

  /** A scheme of lower-case letters, digits and "+.-", beginning with a letter, then "://". */
  predicate Schemed(s: string, scheme: string) {
    && scheme != "" && scheme[0] in LOWER
    && (forall c :: c in scheme ==> c in LOWER || c in DIGITS_AND_MARKS)
    && StartsWith(s, scheme + "://")
  }

  const LOWER := "abcdefghijklmnopqrstuvwxyz"
  const DIGITS_AND_MARKS := "0123456789+.-"

  lemma {:induction false} LowerReads(c: char)
    ensures 'a' <= c <= 'z' <==> c in LOWER
  {
    if 'a' <= c <= 'z' {
      assert LOWER[c as int - 97] == c;
    }
  }

  lemma {:induction false} MarkReads(c: char)
    ensures '0' <= c <= '9' || c == '+' || c == '.' || c == '-' <==> c in DIGITS_AND_MARKS
  {
    if '0' <= c <= '9' {
      assert DIGITS_AND_MARKS[c as int - 48] == c;
    }
    assert DIGITS_AND_MARKS[10] == '+' && DIGITS_AND_MARKS[11] == '.' && DIGITS_AND_MARKS[12] == '-';
  }

  lemma {:induction false} Alphabet(c: char)
    ensures 'a' <= c <= 'z' <==> c in LOWER
    ensures SchemeChar(c) <==> c in LOWER || c in DIGITS_AND_MARKS
  {
    LowerReads(c);
    MarkReads(c);
    hide LOWER, DIGITS_AND_MARKS;
  }

  lemma {:induction false} UriReads(s: string)
    ensures IsUri(s) <==> exists scheme :: Schemed(s, scheme)
  {
    forall c: char
      ensures 'a' <= c <= 'z' <==> c in LOWER
      ensures SchemeChar(c) <==> c in LOWER || c in DIGITS_AND_MARKS
    {
      Alphabet(c);
    }
    hide SchemeChar, IndexOf, LOWER, DIGITS_AND_MARKS;
    if IsUri(s) {
      var i := IndexOf(s, ':');
      assert s[..i] + "://" == s[..i + 3];
      assert Schemed(s, s[..i]);
    }
    if scheme :| Schemed(s, scheme) {
      NoColon();
      SchemeBefore(s, scheme);
    }
  }

  lemma {:induction false} NoColon()
    ensures ':' !in LOWER && ':' !in DIGITS_AND_MARKS
  {
  }

  lemma {:induction false} SchemeBefore(s: string, scheme: string)
    requires scheme + "://" <= s && ':' !in scheme
    ensures IndexOf(s, ':') == |scheme| && s[..|scheme|] == scheme && |scheme| + 3 <= |s| && s[|scheme|..|scheme| + 3] == "://"
  {
    var n := |scheme|;
    assert s[..n + 3] == scheme + "://";
    assert forall k :: 0 <= k < n ==> s[k] == scheme[k];
    assert s[n] == s[..n + 3][n] == ':';
    hide IndexOf;
    assert s[n..n + 3] == s[..n + 3][n..];
  }

  /** The kind a URI implies: the first of the three that stands between slashes behind the scheme. */
  lemma {:induction false} KindReads(scheme: string, path: string)
    requires forall k: nat :: k < |scheme| ==> !MarkAt(scheme + "://" + path, k)
    ensures DerivedKind(scheme + "://" + path) ==
            if Piece(path, '/', "query") then Some("query")
            else if Piece(path, '/', "command") then Some("command")
            else if Piece(path, '/', "assertion") then Some("assertion") else None
  {
    var uri, n := scheme + "://" + path, |scheme|;
    assert MarkAt(uri, n);
    assert uri[n + 3..] == path;
    PieceReads(path, '/', "query");
    PieceReads(path, '/', "command");
    PieceReads(path, '/', "assertion");
    hide SchemeEnd, Split, Piece;
    assert SchemeEnd(uri) == Some(n);
  }

  predicate FieldsValid(s: Step) {
    && IsUri(s.uri) && (s.fallback.Some? ==> IsUri(s.fallback.value))
    && (s.catch_.Some? ==> s.catch_.value in {"continue", "abort"})
  }

  lemma {:induction false} ValidReads(s: Step)
    ensures FieldsValid(s) <==>
            && (exists scheme :: Schemed(s.uri, scheme))
            && (s.fallback.Some? ==> exists scheme :: Schemed(s.fallback.value, scheme))
            && (s.catch_ == None || s.catch_ == Some("continue") || s.catch_ == Some("abort"))
  {
    UriReads(s.uri);
    if s.fallback.Some? {
      UriReads(s.fallback.value);
    }
    hide IsUri, Schemed;
  }

  /** A flow the model's constructor accepts; a missing kind has been derived. */
  ghost predicate Constructed(f: Flow) {
    && Valid(f.steps)
    && forall s :: s in f.steps ==> FieldsValid(s) && (s.kind.None? ==> DerivedKind(s.uri).None?)
  }

  // ---------------------------------------------------------------- to_dict

  function TextList(ts: seq<string>): Value {
    Arr(seq(|ts|, i requires 0 <= i < |ts| => Str(ts[i])))
  }

  /** Set a key when `cond` holds. */
  function When(d: Dict, cond: bool, k: string, v: Value): Dict {
    if cond then d[k := v] else d
  }

  function OptText(s: Option<string>): Value { if s.Some? then Str(s.value) else Null }

  /** What a step does. */
  function ActionDict(s: Step): Dict {
    var d0: Dict := map["id" := Str(s.id), "uri" := Str(s.uri)];
    var d1 := When(d0, Given(s.operation), "operation", OptText(s.operation));
    var d2 := When(d1, s.payload != map[], "payload", Obj(s.payload));
    When(d2, s.dependsOn != [], "depends_on", TextList(s.dependsOn))
  }

  /** Its resilience policy, on top. */
  function PolicyDict(s: Step, d0: Dict): Dict {
    var d1 := When(d0, s.retry.Some? && s.retry.value != map[], "retry", if s.retry.Some? then Obj(s.retry.value) else Null);
    var d2 := When(d1, Given(s.fallback), "fallback", OptText(s.fallback));
    var d3 := When(d2, Given(s.catch_), "catch", OptText(s.catch_));
    var d4 := When(d3, s.timeoutMs.Some? && s.timeoutMs.value != 0, "timeout_ms",
                   if s.timeoutMs.Some? then Num(s.timeoutMs.value as real) else Null);
    When(d4, Given(s.degrade), "degrade", OptText(s.degrade))
  }

  function StepDict(s: Step): Dict { PolicyDict(s, ActionDict(s)) }

  function StepDicts(steps: seq<Step>): seq<Value> {
    seq(|steps|, i requires 0 <= i < |steps| => Obj(StepDict(steps[i])))
  }

  function FlowDict(f: Flow): Dict {
    var d1 := When(map[], f.task != map[], "task", Obj(f.task));
    var d2 := When(d1, Given(f.registry), "registry", OptText(f.registry));
    When(d2, f.allow != [], "allow", TextList(f.allow))["steps" := Arr(StepDicts(f.steps))]
  }

  method ToDict(f: Flow) returns (out: Dict)
    ensures out == FlowDict(f)
  {
    out := map[];
    if f.task != map[] {
      out := out["task" := Obj(f.task)];
    }
    if Given(f.registry) {
      out := out["registry" := Str(f.registry.value)];
    }
    if f.allow != [] {
      out := out["allow" := TextList(f.allow)];
    }
    var steps: seq<Value> := [];
    for i := 0 to |f.steps|
      invariant steps == StepDicts(f.steps[..i])
    {
      var entry := StepToDict(f.steps[i]);
      steps := steps + [Obj(entry)];
    }
    assert f.steps[..|f.steps|] == f.steps;
    out := out["steps" := Arr(steps)];
  }

  method StepToDict(s: Step) returns (entry: Dict)
    ensures entry == StepDict(s)
  {
    entry := map["id" := Str(s.id), "uri" := Str(s.uri)];
    if Given(s.operation) {
      entry := entry["operation" := Str(s.operation.value)];
    }
    if s.payload != map[] {
      entry := entry["payload" := Obj(s.payload)];
    }
    if s.dependsOn != [] {
      entry := entry["depends_on" := TextList(s.dependsOn)];
    }
    assert entry == ActionDict(s);
    entry := AddPolicy(s, entry);
  }

  method AddPolicy(s: Step, action: Dict) returns (entry: Dict)
    ensures entry == PolicyDict(s, action)
  {
    entry := action;
    if s.retry.Some? && s.retry.value != map[] {
      entry := entry["retry" := Obj(s.retry.value)];
    }
    if Given(s.fallback) {
      entry := entry["fallback" := Str(s.fallback.value)];
    }
    if Given(s.catch_) {
      entry := entry["catch" := Str(s.catch_.value)];
    }
    if s.timeoutMs.Some? && s.timeoutMs.value != 0 {
      entry := entry["timeout_ms" := Num(s.timeoutMs.value as real)];
    }
    if Given(s.degrade) {
      entry := entry["degrade" := Str(s.degrade.value)];
    }
  }

  // --------------------------------------------------------------- from_dict

  /** A typed field: the outer option says whether the document is well typed there. */
  function ReadText(d: Dict, k: string): Option<Option<string>> {
    match Get(d, k)
    case Null => Some(None)
    case Str(s) => Some(Some(s))
    case _ => None
  }

  function ReadDict(d: Dict, k: string): Option<Option<Dict>> {
    match Get(d, k)
    case Null => Some(None)
    case Obj(m) => Some(Some(m))
    case _ => None
  }

  function ReadInt(d: Dict, k: string): Option<Option<int>> {
    match Get(d, k)
    case Null => Some(None)
    case Num(n) => if n == n.Floor as real then Some(Some(n.Floor)) else None
    case _ => None
  }

  function ReadTexts(d: Dict, k: string): Option<seq<string>> {
    if k !in d then Some([])
    else if d[k].Arr? && forall v :: v in d[k].items ==> v.Str? then
      Some(seq(|d[k].items|, i requires 0 <= i < |d[k].items| => AsText(d[k].items[i])))
    else None
  }

  /** A dictionary that must be one when the key is there. */
  function ReadObject(d: Dict, k: string): Option<Dict> {
    if k !in d then Some(map[]) else if d[k].Obj? then Some(d[k].fields) else None
  }

  function StepFromDict(d: Dict): Option<Step> {
    var id, uri := ReadText(d, "id"), ReadText(d, "uri");
    var operation, kind := ReadText(d, "operation"), ReadText(d, "kind");
    var payload, deps := ReadObject(d, "payload"), ReadTexts(d, "depends_on");
    var retry, fallback, catch_ := ReadDict(d, "retry"), ReadText(d, "fallback"), ReadText(d, "catch");
    var timeout, degrade := ReadInt(d, "timeout_ms"), ReadText(d, "degrade");
    if id.None? || id.value.None? || uri.None? || uri.value.None? || operation.None? || kind.None? ||
       payload.None? || deps.None? || retry.None? || fallback.None? || catch_.None? || timeout.None? || degrade.None?
    then None
    else
      var s := Step(id.value.value, uri.value.value, operation.value, kind.value, payload.value, deps.value,
                    retry.value, fallback.value, catch_.value, timeout.value, degrade.value);
      if !FieldsValid(s) then None
      else Some(if s.kind.None? then s.(kind := DerivedKind(s.uri)) else s)
  }

  function StepsFromDicts(vs: seq<Value>): Option<seq<Step>> {
    if vs == [] then Some([])
    else if !vs[0].Obj? then None
    else
      var first, rest := StepFromDict(vs[0].fields), StepsFromDicts(vs[1..]);
      if first.None? || rest.None? then None else Some([first.value] + rest.value)
  }

  ghost function FromDict(d: Dict): Option<Flow> {
    var task, registry, allow := ReadObject(d, "task"), ReadText(d, "registry"), ReadTexts(d, "allow");
    var items := if "steps" !in d then Some([]) else if d["steps"].Arr? then Some(d["steps"].items) else None;
    if task.None? || registry.None? || allow.None? || items.None? then None
    else
      match StepsFromDicts(items.value)
      case None => None
      case Some(steps) =>
        if Valid(steps) then Some(Flow(task.value, registry.value, allow.value, steps)) else None
  }

  // -------------------------------------------------------------- round trip

  function NonEmpty(s: Option<string>): Option<string> { if Given(s) then s else None }

  /** What the document keeps of a step: empty options vanish, the kind is read off the URI. */
  function NormalStep(s: Step): Step {
    s.(operation := NonEmpty(s.operation),
       kind := DerivedKind(s.uri),
       retry := if s.retry == Some(map[]) then None else s.retry,
       fallback := NonEmpty(s.fallback),
       catch_ := NonEmpty(s.catch_),
       timeoutMs := if s.timeoutMs == Some(0) then None else s.timeoutMs,
       degrade := NonEmpty(s.degrade))
  }

  function NormalSteps(steps: seq<Step>): seq<Step> {
    seq(|steps|, i requires 0 <= i < |steps| => NormalStep(steps[i]))
  }

  function Normal(f: Flow): Flow {
    Flow(f.task, NonEmpty(f.registry), f.allow, NormalSteps(f.steps))
  }

  lemma {:induction false} TextsRoundTrip(ts: seq<string>, d: Dict, k: string)
    requires ts != [] ==> k in d && d[k] == TextList(ts)
    requires ts == [] ==> k !in d
    ensures ReadTexts(d, k) == Some(ts)
  {
    if ts != [] {
      forall i | 0 <= i < |ts| ensures AsText(d[k].items[i]) == ts[i] {
      }
      assert ReadTexts(d, k).value == ts;
    }
  }

  /** A policy adds its own keys only. */
  lemma {:induction false} PolicyElsewhere(s: Step, d: Dict, j: string)
    requires j !in {"retry", "fallback", "catch", "timeout_ms", "degrade"}
    ensures j in PolicyDict(s, d) <==> j in d
    ensures Get(PolicyDict(s, d), j) == Get(d, j)
  {
  }

  lemma {:induction false} ActionReads(s: Step)
    ensures var d := ActionDict(s);
            && Get(d, "id") == Str(s.id) && Get(d, "uri") == Str(s.uri) && "kind" !in d
            && Get(d, "operation") == OptText(NonEmpty(s.operation))
            && (if s.payload != map[] then "payload" in d && d["payload"] == Obj(s.payload) else "payload" !in d)
            && (if s.dependsOn != [] then "depends_on" in d && d["depends_on"] == TextList(s.dependsOn) else "depends_on" !in d)
            && forall j :: j in {"retry", "fallback", "catch", "timeout_ms", "degrade"} ==> j !in d
  {
  }

  lemma {:induction false} PolicyReads(s: Step, d: Dict)
    requires forall j :: j in {"retry", "fallback", "catch", "timeout_ms", "degrade"} ==> j !in d
    ensures var d1 := PolicyDict(s, d);
            && Get(d1, "retry") == (if s.retry.Some? && s.retry.value != map[] then Obj(s.retry.value) else Null)
            && Get(d1, "fallback") == OptText(NonEmpty(s.fallback))
            && Get(d1, "catch") == OptText(NonEmpty(s.catch_))
            && Get(d1, "timeout_ms") == (if s.timeoutMs.Some? && s.timeoutMs.value != 0 then Num(s.timeoutMs.value as real) else Null)
            && Get(d1, "degrade") == OptText(NonEmpty(s.degrade))
  {
  }

  /** Every key of a step document reads back what was put there. */
  lemma {:induction false} StepDictReads(s: Step)
    ensures var d := StepDict(s);
            && Get(d, "id") == Str(s.id) && Get(d, "uri") == Str(s.uri) && "kind" !in d && Get(d, "kind") == Null
            && Get(d, "operation") == OptText(NonEmpty(s.operation))
            && (if s.payload != map[] then "payload" in d && d["payload"] == Obj(s.payload) else "payload" !in d)
            && (if s.dependsOn != [] then "depends_on" in d && d["depends_on"] == TextList(s.dependsOn) else "depends_on" !in d)
            && Get(d, "retry") == (if s.retry.Some? && s.retry.value != map[] then Obj(s.retry.value) else Null)
            && Get(d, "fallback") == OptText(NonEmpty(s.fallback))
            && Get(d, "catch") == OptText(NonEmpty(s.catch_))
            && Get(d, "timeout_ms") == (if s.timeoutMs.Some? && s.timeoutMs.value != 0 then Num(s.timeoutMs.value as real) else Null)
            && Get(d, "degrade") == OptText(NonEmpty(s.degrade))
  {
    hide PolicyDict, ActionDict;
    ActionReads(s);
    PolicyReads(s, ActionDict(s));
    forall j | j in {"id", "uri", "kind", "operation", "payload", "depends_on"}
      ensures (j in StepDict(s) <==> j in ActionDict(s)) && Get(StepDict(s), j) == Get(ActionDict(s), j)
    {
      PolicyElsewhere(s, ActionDict(s), j);
    }
  }

  /** Each field reads back in its normal form. */
  lemma {:induction false} FieldsRead(s: Step)
    ensures var d, n := StepDict(s), NormalStep(s);
            && ReadText(d, "id") == Some(Some(s.id)) && ReadText(d, "uri") == Some(Some(s.uri))
            && ReadText(d, "operation") == Some(n.operation) && ReadText(d, "kind") == Some(None)
            && ReadObject(d, "payload") == Some(s.payload) && ReadTexts(d, "depends_on") == Some(s.dependsOn)
            && ReadDict(d, "retry") == Some(n.retry) && ReadText(d, "fallback") == Some(n.fallback)
            && ReadText(d, "catch") == Some(n.catch_) && ReadInt(d, "timeout_ms") == Some(n.timeoutMs)
            && ReadText(d, "degrade") == Some(n.degrade)
  {
    hide StepDict, DerivedKind, TextList, ReadTexts, Get, AsText;
    StepDictReads(s);
    TextsRoundTrip(s.dependsOn, StepDict(s), "depends_on");
  }

  lemma {:induction false} StepRoundTrip(s: Step)
    requires FieldsValid(s)
    ensures StepFromDict(StepDict(s)) == Some(NormalStep(s))
  {
    hide StepDict, IsUri, DerivedKind, ReadText, ReadObject, ReadTexts, ReadDict, ReadInt;
    FieldsRead(s);
  }

  lemma {:induction false} StepsRoundTrip(steps: seq<Step>)
    requires forall s :: s in steps ==> FieldsValid(s)
    ensures StepsFromDicts(StepDicts(steps)) == Some(NormalSteps(steps))
    decreases |steps|
  {
    hide StepFromDict, NormalStep, FieldsValid, StepDict;
    if steps != [] {
      StepRoundTrip(steps[0]);
      assert StepDicts(steps)[1..] == StepDicts(steps[1..]);
      StepsRoundTrip(steps[1..]);
      assert NormalSteps(steps) == [NormalStep(steps[0])] + NormalSteps(steps[1..]);
    } else {
      assert NormalSteps(steps) == [];
    }
  }

  lemma {:induction false} NormalGraph(steps: seq<Step>)
    ensures GraphOf(NormalSteps(steps)) == GraphOf(steps)
    decreases |steps|
  {
    if steps != [] {
      var n := |steps| - 1;
      assert NormalSteps(steps)[..n] == NormalSteps(steps[..n]);
      NormalGraph(steps[..n]);
      assert NormalStep(steps[n]).Edges() == steps[n].Edges();
    }
  }

  lemma {:induction false} NormalValid(steps: seq<Step>)
    requires Valid(steps)
    ensures Valid(NormalSteps(steps))
  {
    hide GraphOf, Acyclic;
    NormalGraph(steps);
    assert Ids(NormalSteps(steps)) == Ids(steps);
    forall s | s in NormalSteps(steps)
      ensures (forall dep :: dep in s.dependsOn ==> dep in Ids(steps)) && (s.degrade.Some? ==> s.degrade.value in Ids(steps))
    {
      var i :| 0 <= i < |steps| && NormalSteps(steps)[i] == s;
      assert steps[i] in steps;
    }
  }

  /** The document of a constructed flow reads back as its normal form, which is valid again. */
  lemma {:induction false} RoundTrip(f: Flow)
    requires Constructed(f)
    ensures FromDict(FlowDict(f)) == Some(Normal(f))
    ensures Constructed(Normal(f))
  {
    hide StepsFromDicts, StepDicts, NormalSteps, Valid, FieldsValid, TextList, ReadTexts;
    var d := FlowDict(f);
    StepsRoundTrip(f.steps);
    NormalValid(f.steps);
    TextsRoundTrip(f.allow, d, "allow");
    NormalConstructed(f);
  }

  lemma {:induction false} NormalConstructed(f: Flow)
    requires Constructed(f)
    ensures forall s :: s in NormalSteps(f.steps) ==> FieldsValid(s) && (s.kind.None? ==> DerivedKind(s.uri).None?)
  {
    hide IsUri, DerivedKind;
    forall s | s in NormalSteps(f.steps) ensures FieldsValid(s) && (s.kind.None? ==> DerivedKind(s.uri).None?) {
      var i :| 0 <= i < |f.steps| && NormalSteps(f.steps)[i] == s;
      assert f.steps[i] in f.steps;
    }
  }

  /** The document of the normal form is the same document. */
  lemma {:induction false} SameDocument(f: Flow)
    ensures FlowDict(Normal(f)) == FlowDict(f)
  {
    assert StepDicts(NormalSteps(f.steps)) == StepDicts(f.steps);
  }

  /** A flow survives the trip unchanged exactly when it is its own normal form. */
  lemma {:induction false} SurvivesUnchanged(f: Flow)
    requires Constructed(f)
    ensures FromDict(FlowDict(f)) == Some(f) <==>
            (f.registry != Some("") && forall s :: s in f.steps ==>
              && s.operation != Some("") && s.retry != Some(map[]) && s.timeoutMs != Some(0) && s.degrade != Some("")
              && s.kind == DerivedKind(s.uri))
  {
    hide FlowDict, FromDict, DerivedKind;
    RoundTrip(f);
    forall s | s in f.steps
      ensures NormalStep(s) == s <==>
        s.operation != Some("") && s.retry != Some(map[]) && s.timeoutMs != Some(0) && s.degrade != Some("")
        && s.kind == DerivedKind(s.uri)
    {
      assert s.fallback != Some("");
    }
    if Normal(f) == f {
      forall s | s in f.steps ensures NormalStep(s) == s {
        var i :| 0 <= i < |f.steps| && f.steps[i] == s;
        assert NormalSteps(f.steps)[i] == NormalStep(f.steps[i]);
      }
    }
    if (forall s :: s in f.steps ==> NormalStep(s) == s) {
      assert NormalSteps(f.steps) == f.steps;
    }
  }

  const LABELLED := Step("a", "x://n/r", None, Some("query"), map[], [], None, None, None, None, None)

  /** A kind that the URI does not imply is gone after the trip. */
  lemma {:induction false} ExplicitKindIsLost()
    ensures var f := Flow(map[], None, [], [LABELLED]);
            Constructed(f) && FromDict(FlowDict(f)) == Some(f.(steps := [LABELLED.(kind := None)]))
  {
    hide FlowDict, FromDict, DerivedKind, IsUri, Valid;
    var f := Flow(map[], None, [], [LABELLED]);
    OneStepValid(LABELLED);
    PlainUri();
    RoundTrip(f);
    assert NormalSteps([LABELLED]) == [NormalStep(LABELLED)];
  }

  lemma {:induction false} PlainUri()
    ensures IsUri("x://n/r") && DerivedKind("x://n/r") == None
  {
    var uri := "x://n/r";
    PlainScheme();
    assert uri[4..] == "n" + "/" + "r";
    NoSlash("n");
    NoSlash("r");
    assert "n/r"[..1] == "n" && "n/r"[2..] == "r" && IndexOf("n/r", '/') == 1;
    assert Split("n/r", '/') == ["n"] + ["r"];
  }

  lemma {:induction false} PlainScheme()
    ensures SchemeEnd("x://n/r") == Some(1)
  {
    var uri := "x://n/r";
    assert uri[1] == ':' && IndexOf(uri, ':') == 1;
    assert uri[1..4] == "://" && MarkAt(uri, 1) && !MarkAt(uri, 0);
  }

  lemma {:induction false} NoSlash(s: string)
    requires '/' !in s
    ensures Split(s, '/') == [s]
  {
    assert IndexOf(s, '/') == |s|;
  }

  lemma {:induction false} OneStepValid(s: Step)
    requires s.dependsOn == [] && s.degrade == None
    ensures Valid([s])
  {
    hide Acyclic;
    assert Ids([s]) == [s.id];
    assert [s][..0] == [] && GraphOf([]) == map[];
    assert GraphOf([s]) == map[s.id := s.Edges()] && s.Edges() == [];
    LoneNodeAcyclic(s.id);
  }

  lemma {:induction false} LoneNodeAcyclic(n: string)
    ensures Acyclic(map[n := []])
  {
    FinishedAcyclic(map[n := []], [n]);
  }
}
