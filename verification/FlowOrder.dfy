/**
 The execution order of a flow: emit every step after its dependencies and its
 degrade source.  The recursion ends because a validated graph has no cycle.
 */
module FlowOrder {
  import opened Text
  import opened FlowGraph

  function ById(steps: seq<Step>): map<string, Step> {
    if steps == [] then map[]
    else
      var last := steps[|steps| - 1];
      ById(steps[..|steps| - 1])[last.id := last]
  }

  lemma {:induction false} ByIdSpec(steps: seq<Step>)
    requires Distinct(Ids(steps))
    ensures ById(steps).Keys == set s | s in steps :: s.id
    ensures forall s :: s in steps ==> s.id in ById(steps) && ById(steps)[s.id] == s
    ensures forall id :: id in ById(steps) ==> ById(steps)[id] in steps && ById(steps)[id].id == id
    decreases |steps|
  {
    if steps != [] {
      var init, last := steps[..|steps| - 1], steps[|steps| - 1];
      assert steps == init + [last];
      forall i, j | 0 <= i < j < |init| ensures Ids(init)[i] != Ids(init)[j] {
        assert Ids(steps)[i] != Ids(steps)[j];
      }
      ByIdSpec(init);
      forall s | s in init ensures s.id != last.id {
        var i :| 0 <= i < |init| && init[i] == s;
        assert Ids(steps)[i] != Ids(steps)[|init|];
      }
      assert ById(steps) == ById(init)[last.id := last];
      assert forall s :: s in steps <==> s in init || s == last;
      hide ById, Ids, Distinct;
    }
  }

  /** Every ordering edge of a step leads to an earlier step. */
  ghost predicate EdgesBefore(out: seq<Step>) {
    forall i :: 0 <= i < |out| ==> forall id :: id in out[i].Edges() ==> id in Ids(out[..i])
  }

  /** What emission keeps: steps of the flow, each once, each after its edges. */
  ghost predicate Emitted(byId: map<string, Step>, out: seq<Step>, seen: set<string>) {
    && Distinct(Ids(out))
    && EdgesBefore(out)
    && (forall i :: 0 <= i < |out| ==> out[i].id in byId && byId[out[i].id] == out[i])
    && seen == set id | id in Ids(out)
  }

  /** A rank for the recursion: an order in which every node's edges come earlier. */
  ghost predicate Ranked(byId: map<string, Step>, rank: seq<string>) {
    && (forall id :: id in byId <==> id in rank)
    && (forall id :: id in byId ==> byId[id].id == id)
    && forall id, m :: id in byId && m in byId[id].Edges() ==> m in rank && Position(rank, m) < Position(rank, id)
  }

  class Emitter {
    var out: seq<Step>
    var seen: set<string>

    constructor ()
      ensures out == [] && seen == {}
    {
      out, seen := [], {};
    }

    method Emit(byId: map<string, Step>, sid: string, ghost rank: seq<string>)
      requires Ranked(byId, rank) && sid in byId && Emitted(byId, out, seen)
      modifies this
      ensures Emitted(byId, out, seen) && old(out) <= out && sid in seen
      ensures forall id :: id in seen && id !in old(seen) ==> Position(rank, id) <= Position(rank, sid)
      decreases Position(rank, sid)
    {
      hide Emitted, Ranked, Position;
      if sid in seen {
        return;
      }
      var s := byId[sid];
      RankedSelf(byId, rank, sid);
      SeenRanked(byId, rank, out, seen);
      for i := 0 to |s.dependsOn|
        invariant Emitted(byId, out, seen) && old(out) <= out && old(seen) <= seen
        invariant forall k :: 0 <= k < i ==> s.dependsOn[k] in seen
        invariant forall id :: id in seen ==> id in rank
        invariant forall id :: id in seen && id !in old(seen) ==> Position(rank, id) < Position(rank, sid)
      {
        ghost var before, sawn := out, seen;
        EdgeRank(byId, rank, sid, s.dependsOn[i]);
        Emit(byId, s.dependsOn[i], rank);
        SeenGrows(byId, before, out, sawn, seen);
        SeenRanked(byId, rank, out, seen);
      }
      if Given(s.degrade) {
        ghost var before, sawn := out, seen;
        EdgeRank(byId, rank, sid, s.degrade.value);
        Emit(byId, s.degrade.value, rank);
        SeenGrows(byId, before, out, sawn, seen);
      }
      assert sid !in seen;
      AppendEmitted(byId, out, seen, s);
      seen := seen + {sid};
      out := out + [s];
    }
  }

  lemma {:induction false} RankedSelf(byId: map<string, Step>, rank: seq<string>, id: string)
    requires Ranked(byId, rank) && id in byId
    ensures id in rank && byId[id].id == id
  {
  }

  lemma {:induction false} SeenRanked(byId: map<string, Step>, rank: seq<string>, out: seq<Step>, seen: set<string>)
    requires Ranked(byId, rank) && Emitted(byId, out, seen)
    ensures forall id :: id in seen ==> id in rank
  {
    hide EdgesBefore, Distinct, Position;
    forall id | id in seen ensures id in rank {
      var i :| 0 <= i < |out| && Ids(out)[i] == id;
      assert out[i].id in byId;
    }
  }

  lemma {:induction false} EdgeRank(byId: map<string, Step>, rank: seq<string>, id: string, m: string)
    requires Ranked(byId, rank) && id in byId && m in byId[id].Edges()
    ensures id in rank && m in rank && m in byId && Position(rank, m) < Position(rank, id)
  {
    hide Position;
  }

  lemma {:induction false} SeenGrows(byId: map<string, Step>, out: seq<Step>, out1: seq<Step>, seen: set<string>, seen1: set<string>)
    requires Emitted(byId, out, seen) && Emitted(byId, out1, seen1) && out <= out1
    ensures seen <= seen1
  {
    hide EdgesBefore, Distinct;
    forall id | id in seen ensures id in seen1 {
      var i :| 0 <= i < |out| && Ids(out)[i] == id;
      assert Ids(out1)[i] == id;
    }
  }

  lemma {:induction false} AppendEmitted(byId: map<string, Step>, out: seq<Step>, seen: set<string>, s: Step)
    requires Emitted(byId, out, seen) && s.id in byId && byId[s.id] == s && s.id !in seen
    requires forall id :: id in s.Edges() ==> id in seen
    ensures Emitted(byId, out + [s], seen + {s.id})
  {
    var out1 := out + [s];
    assert Ids(out1) == Ids(out) + [s.id];
    forall i | 0 <= i < |out1|
      ensures forall id :: id in out1[i].Edges() ==> id in Ids(out1[..i])
    {
      if i < |out| {
        assert out1[..i] == out[..i];
      } else {
        assert out1[..i] == out;
      }
    }
  }

  /** Validation supplies the rank. */
  lemma {:induction false} ValidIsRanked(steps: seq<Step>) returns (rank: seq<string>)
    requires Valid(steps)
    ensures Ranked(ById(steps), rank)
  {
    var g, byId := GraphOf(steps), ById(steps);
    GraphOfSpec(steps);
    ByIdSpec(steps);
    ValidGraphClosed(steps);
    rank := SearchExact(g, Ids(steps));
    forall id, m | id in byId && m in byId[id].Edges()
      ensures m in rank && Position(rank, m) < Position(rank, id)
    {
      assert byId[id] in steps;
      assert g[id] == byId[id].Edges();
      var i := Position(rank, id);
      assert m in rank[..i];
      var j :| 0 <= j < i && rank[j] == m;
      assert Position(rank, m) == j;
    }
  }

  /** A dependency-respecting permutation of the flow. */
  ghost predicate Topological(steps: seq<Step>, out: seq<Step>) {
    multiset(out) == multiset(steps) && EdgesBefore(out) && Distinct(Ids(out))
  }

  lemma {:induction false} DistinctMultiset<T>(a: seq<T>, b: seq<T>)
    requires Distinct(a) && Distinct(b) && forall x :: x in a <==> x in b
    ensures multiset(a) == multiset(b)
  {
    forall x ensures multiset(a)[x] == multiset(b)[x] {
      OccursOnce(a, x);
      OccursOnce(b, x);
    }
  }

  lemma {:induction false} OccursOnce<T>(s: seq<T>, x: T)
    requires Distinct(s)
    ensures multiset(s)[x] == if x in s then 1 else 0
    decreases |s|
  {
    if s != [] {
      assert s == s[..|s| - 1] + [s[|s| - 1]];
      OccursOnce(s[..|s| - 1], x);
    }
  }

  /** `order()`: terminates on every valid flow with a topological permutation of its steps. */
  method Order(steps: seq<Step>) returns (out: seq<Step>)
    requires Valid(steps)
    ensures Topological(steps, out)
  {
    hide ById, Emitted, Ranked, Position, Valid, Topological;
    var byId := ById(steps);
    ghost var rank := Prepared(steps);
    var emitter := new Emitter();
    for i := 0 to |steps|
      invariant fresh(emitter) && Emitted(byId, emitter.out, emitter.seen)
      invariant forall k :: 0 <= k < i ==> steps[k].id in emitter.seen
    {
      ghost var before, sawn := emitter.out, emitter.seen;
      emitter.Emit(byId, steps[i].id, rank);
      SeenGrows(byId, before, emitter.out, sawn, emitter.seen);
    }
    out := emitter.out;
    EmittedAll(steps, byId, out, emitter.seen);
  }

  lemma {:induction false} Prepared(steps: seq<Step>) returns (rank: seq<string>)
    requires Valid(steps)
    ensures Ranked(ById(steps), rank) && Emitted(ById(steps), [], {})
    ensures forall k :: 0 <= k < |steps| ==> steps[k].id in ById(steps)
  {
    hide Ranked;
    ByIdSpec(steps);
    rank := ValidIsRanked(steps);
  }

  lemma {:induction false} EmittedAll(steps: seq<Step>, byId: map<string, Step>, out: seq<Step>, seen: set<string>)
    requires Valid(steps) && byId == ById(steps) && Emitted(byId, out, seen)
    requires forall k :: 0 <= k < |steps| ==> steps[k].id in seen
    ensures Topological(steps, out)
  {
    hide ById, EdgesBefore;
    forall s | s in steps ensures s.id in seen {
      var k :| 0 <= k < |steps| && steps[k] == s;
    }
    SamePermutation(steps, byId, out, seen);
  }

  lemma {:induction false} SamePermutation(steps: seq<Step>, byId: map<string, Step>, out: seq<Step>, seen: set<string>)
    requires Distinct(Ids(steps)) && byId == ById(steps) && Emitted(byId, out, seen)
    requires forall s :: s in steps ==> s.id in seen
    ensures multiset(out) == multiset(steps)
  {
    ByIdSpec(steps);
    forall s ensures s in out <==> s in steps {
      if s in steps {
        var i :| 0 <= i < |out| && Ids(out)[i] == s.id;
        assert out[i] == byId[s.id];
      }
      if s in out {
        var i :| 0 <= i < |out| && out[i] == s;
        assert byId[s.id] in steps;
      }
    }
    forall i, j | 0 <= i < j < |out| ensures out[i] != out[j] {
      assert Ids(out)[i] != Ids(out)[j];
    }
    forall i, j | 0 <= i < j < |steps| ensures steps[i] != steps[j] {
      assert Ids(steps)[i] != Ids(steps)[j];
    }
    DistinctMultiset(out, steps);
  }

  // ------------------------------------------------------------- the builder

  /** A new step: a fresh id, edges to existing steps only. */
  ghost predicate Fits(steps: seq<Step>, s: Step) {
    && s.id !in Ids(steps)
    && (forall dep :: dep in s.dependsOn ==> dep in Ids(steps))
    && (s.degrade.Some? ==> s.degrade.value in Ids(steps))
  }

  lemma {:induction false} FinishedAppend(g: Graph, order: seq<string>, n: string, edges: seq<string>)
    requires Finished(g, order) && n !in g && forall m :: m in edges ==> m in order
    ensures Finished(g[n := edges], order + [n])
  {
    var order1 := order + [n];
    forall i | 0 <= i < |order1|
      ensures order1[i] in g[n := edges] && forall m :: m in g[n := edges][order1[i]] ==> m in order1[..i]
    {
      if i < |order| {
        assert order[i] in g;
        assert order1[..i] == order[..i];
      } else {
        assert order1[..i] == order;
      }
    }
  }

  lemma {:induction false} FitsKnown(steps: seq<Step>, s: Step)
    requires Distinct(Ids(steps)) && Known(steps) && Fits(steps, s)
    ensures Distinct(Ids(steps + [s])) && Known(steps + [s])
  {
    assert Ids(steps + [s]) == Ids(steps) + [s.id];
  }

  /** Appending a step that fits keeps a flow valid. */
  lemma {:induction false} AppendKeepsValid(steps: seq<Step>, s: Step)
    requires Valid(steps) && Fits(steps, s)
    ensures Valid(steps + [s])
  {
    hide Known, Finished, Acyclic, Walk;
    FitsKnown(steps, s);
    assert (steps + [s])[..|steps|] == steps;
    var g := GraphOf(steps);
    assert GraphOf(steps + [s]) == g[s.id := s.Edges()];
    ValidGraphClosed(steps);
    var order := SearchExact(g, Ids(steps));
    FinishedAppend(g, order, s.id, s.Edges());
    forall n | n in g[s.id := s.Edges()] ensures n in order + [s.id] {
    }
    FinishedAcyclic(g[s.id := s.Edges()], order + [s.id]);
  }

  /** For a step with an id, fitting is also needed: an edge to itself would be a cycle. */
  lemma {:induction false} ValidMeansFits(steps: seq<Step>, s: Step)
    requires Valid(steps) && Valid(steps + [s]) && s.id != ""
    ensures Fits(steps, s)
  {
    var all := steps + [s];
    OneMoreId(steps, s);
    assert Ids(all) == Ids(steps) + [s.id];
    assert s in all;
    assert all[..|steps|] == steps;
    assert GraphOf(all) == GraphOf(steps)[s.id := s.Edges()];
    hide GraphOf, Distinct;
    assert s.id in s.Edges() ==> Cycle(GraphOf(all), [s.id, s.id]);
    assert forall m :: m in s.dependsOn ==> m in s.Edges();
    assert Given(s.degrade) ==> s.degrade.value in s.Edges();
    SelfIsNoEdge(steps, s);
  }

  lemma {:induction false} SelfIsNoEdge(steps: seq<Step>, s: Step)
    requires s.id != "" && s.id !in s.Edges() && s.id !in Ids(steps)
    requires forall dep :: dep in s.dependsOn ==> dep in Ids(steps) + [s.id]
    requires s.degrade.Some? ==> s.degrade.value in Ids(steps) + [s.id]
    ensures Fits(steps, s)
  {
    forall dep | dep in s.dependsOn ensures dep in Ids(steps) {
      assert dep in s.Edges();
    }
    if s.degrade.Some? {
      assert s.degrade.value != s.id;
    }
  }

  class Flow {
    var steps: seq<Step>

    constructor ()
      ensures steps == []
    {
      steps := [];
    }

    /**
     `Flow.step`: name the step, append it, then validate.  A rejected step stays in the
     flow.  A valid flow rejects it for its id exactly when that id is taken, a generated
     one included, and takes it exactly when the id is fresh and its edges lead to existing
     steps.
     */
    method AddStep(draft: Step, id: Option<string>, after: seq<Ref>, degrade: Option<Ref>, decimal: nat -> string)
      returns (err: Option<FlowError>)
      modifies this
      ensures var s := Made(draft, id, after, degrade, |old(steps)|, decimal);
              && steps == old(steps) + [s]
              && (err.None? <==> Valid(steps))
              && (Valid(old(steps)) ==> (err == Some(DuplicateIds) <==> s.id in Ids(old(steps))))
              && (Valid(old(steps)) ==> (err.None? <==> Fits(old(steps), s)))
    {
      ghost var before := steps;
      var s := Made(draft, id, after, degrade, |steps|, decimal);
      steps := steps + [s];
      err := ValidateGraph(steps);
      NamedStep(draft, id, after, degrade, |before|, decimal);
      hide Known, Acyclic, Made;
      if Valid(before) {
        OneMoreId(before, s);
        if Fits(before, s) {
          AppendKeepsValid(before, s);
        } else if Valid(before + [s]) {
          ValidMeansFits(before, s);
        }
      }
    }
  }

  /** A step handed over by name, or as itself. */
  datatype Ref = ById(id: string) | OfStep(step: Step)
  {
    function Name(): string { if ById? then id else step.id }
  }

  function Names(refs: seq<Ref>): seq<string> {
    seq(|refs|, i requires 0 <= i < |refs| => refs[i].Name())
  }

  /** The step as appended to a flow of `n`: an id that is not given is generated. */
  function Made(draft: Step, id: Option<string>, after: seq<Ref>, degrade: Option<Ref>, n: nat, decimal: nat -> string): Step {
    draft.(id := if Given(id) then id.value else "s" + decimal(n + 1),
           dependsOn := Names(after),
           degrade := if degrade.Some? then Some(degrade.value.Name()) else None)
  }

  /** What the builder makes of its arguments: an id given or counted, steps handed over reduced to their ids. */
  lemma {:induction false} MadeReads(draft: Step, id: Option<string>, after: seq<Ref>, degrade: Option<Ref>, n: nat, decimal: nat -> string)
    ensures var s := Made(draft, id, after, degrade, n, decimal);
            && s.id == (if id.Some? && id.value != "" then id.value else "s" + decimal(n + 1))
            && |s.dependsOn| == |after|
            && (forall i :: 0 <= i < |after| ==> s.dependsOn[i] == if after[i].OfStep? then after[i].step.id else after[i].id)
            && s.degrade == (if degrade.None? then None else Some(if degrade.value.OfStep? then degrade.value.step.id else degrade.value.id))
            && s == draft.(id := s.id, dependsOn := s.dependsOn, degrade := s.degrade)
  {
  }

  lemma {:induction false} NamedStep(draft: Step, id: Option<string>, after: seq<Ref>, degrade: Option<Ref>, n: nat, decimal: nat -> string)
    ensures Made(draft, id, after, degrade, n, decimal).id != ""
  {
  }

  lemma {:induction false} OneMoreId(steps: seq<Step>, s: Step)
    requires Distinct(Ids(steps))
    ensures Distinct(Ids(steps + [s])) <==> s.id !in Ids(steps)
  {
    var all := Ids(steps + [s]);
    assert all == Ids(steps) + [s.id];
    if s.id in Ids(steps) {
      var i :| 0 <= i < |steps| && Ids(steps)[i] == s.id;
      assert all[i] == all[|steps|];
    }
  }

  /** Generated ids never collide among themselves. */
  lemma {:induction false} GeneratedIsFresh(steps: seq<Step>, draft: Step, after: seq<Ref>, degrade: Option<Ref>, decimal: nat -> string)
    requires forall i, j :: decimal(i) == decimal(j) ==> i == j
    requires forall i :: 0 <= i < |steps| ==> steps[i].id == "s" + decimal(i + 1)
    ensures Made(draft, None, after, degrade, |steps|, decimal).id !in Ids(steps)
  {
    var made := Made(draft, None, after, degrade, |steps|, decimal).id;
    forall i | 0 <= i < |steps| ensures Ids(steps)[i] != made {
      assert Ids(steps)[i][1..] == decimal(i + 1) && made[1..] == decimal(|steps| + 1);
    }
  }

  /** But one can collide with an id that was given: `s2` for the first step of two. */
  lemma {:induction false} GeneratedMayCollide(first: Step, draft: Step, decimal: nat -> string)
    requires first.id == "s2" && decimal(2) == "2"
    ensures var second := Made(draft, None, [], None, 1, decimal);
            !Distinct(Ids([first] + [second])) && !Valid([first, second])
  {
    var second := Made(draft, None, [], None, 1, decimal);
    assert second.id == "s2" && Distinct(Ids([first]));
    assert Ids([first])[0] == "s2";
    OneMoreId([first], second);
    assert [first] + [second] == [first, second];
  }
}
