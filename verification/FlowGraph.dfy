/**
 Flows and their validation: distinct ids, known references, no cycle.

 The cycle test is a depth-first search with three colours.  Here it is a function
 of the colouring, with the recursive method that updates the colouring beside it,
 and it is exact: it objects if and only if the graph has a cycle.
 */
module FlowGraph {
  import opened Text
  import opened Json

  /** One flow step.  An absent optional text is `None`; an empty one is kept. */
  datatype Step = Step(
    id: string,
    uri: string,
    operation: Option<string>,
    kind: Option<string>,
    payload: Dict,
    dependsOn: seq<string>,
    retry: Option<Dict>,
    fallback: Option<string>,
    catch_: Option<string>,
    timeoutMs: Option<int>,
    degrade: Option<string>)
  {
    /** The ordering edges: dependencies, and the degrade source when it is a non-empty name. */
    function Edges(): seq<string> {
      dependsOn + (if Given(degrade) then [degrade.value] else [])
    }
  }

  /** An optional text that counts as given. */
  predicate Given(s: Option<string>) { s.Some? && s.value != "" }

  /** The steps a step waits for: its dependencies, and its degrade source if one is named. */
  lemma {:induction false} EdgesRead(s: Step, id: string)
    ensures id in s.Edges() <==> id in s.dependsOn || (s.degrade == Some(id) && id != "")
  {
  }

  function Ids(steps: seq<Step>): seq<string> {
    seq(|steps|, i requires 0 <= i < |steps| => steps[i].id)
  }

  predicate Distinct<T(==)>(s: seq<T>) {
    forall i, j :: 0 <= i < j < |s| ==> s[i] != s[j]
  }

  /** Every dependency and every degrade source names a step. */
  predicate Known(steps: seq<Step>) {
    forall s :: s in steps ==>
      && (forall dep :: dep in s.dependsOn ==> dep in Ids(steps))
      && (s.degrade.Some? ==> s.degrade.value in Ids(steps))
  }

  type Graph = map<string, seq<string>>

  ghost predicate Closed(g: Graph) {
    forall n, m :: n in g && m in g[n] ==> m in g
  }

  /** The ordering graph; with distinct ids every step has its own node. */
  function GraphOf(steps: seq<Step>): Graph {
    if steps == [] then map[]
    else
      var last := steps[|steps| - 1];
      GraphOf(steps[..|steps| - 1])[last.id := last.Edges()]
  }

  lemma {:induction false} GraphOfSpec(steps: seq<Step>)
    ensures GraphOf(steps).Keys == set s | s in steps :: s.id
    ensures Distinct(Ids(steps)) ==> forall s :: s in steps ==> GraphOf(steps)[s.id] == s.Edges()
    decreases |steps|
  {
    if steps != [] {
      var init, last := steps[..|steps| - 1], steps[|steps| - 1];
      assert steps == init + [last];
      GraphOfSpec(init);
      if Distinct(Ids(steps)) {
        assert Distinct(Ids(init)) by {
          forall i, j | 0 <= i < j < |init| ensures Ids(init)[i] != Ids(init)[j] {
            assert Ids(steps)[i] != Ids(steps)[j];
          }
        }
        forall s | s in init ensures s.id != last.id {
          var i :| 0 <= i < |init| && init[i] == s;
          assert Ids(steps)[i] != Ids(steps)[|init|];
        }
      }
    }
  }

  // ------------------------------------------------------------------ cycles

  /** A walk along edges. */
  ghost predicate Walk(g: Graph, p: seq<string>) {
    && (forall n :: n in p ==> n in g)
    && forall i :: 0 <= i < |p| - 1 ==> p[i + 1] in g[p[i]]
  }

  ghost predicate Cycle(g: Graph, p: seq<string>) {
    |p| >= 2 && Walk(g, p) && p[0] == p[|p| - 1]
  }

  ghost predicate Acyclic(g: Graph) {
    forall p :: !Cycle(g, p)
  }

  // ------------------------------------------------------- depth-first search

  datatype Colour = Grey | Black

  type Colouring = map<string, Colour>

  function Uncoloured(g: Graph, c: Colouring): set<string> { g.Keys - c.Keys }

  /** Visit a node: grey means a cycle, black is done, else colour it around its successors. */
  function Visit(g: Graph, c: Colouring, n: string): (r: Option<Colouring>)
    requires Closed(g) && n in g
    ensures r.Some? ==> c.Keys <= r.value.Keys
    decreases Uncoloured(g, c), 1, 0
  {
    if n in c then
      if c[n].Grey? then None else Some(c)
    else
      assert n in Uncoloured(g, c) && Uncoloured(g, c[n := Grey]) == Uncoloured(g, c) - {n};
      match VisitAll(g, c[n := Grey], g[n])
      case None => None
      case Some(c1) => Some(c1[n := Black])
  }

  function VisitAll(g: Graph, c: Colouring, ns: seq<string>): (r: Option<Colouring>)
    requires Closed(g) && forall n :: n in ns ==> n in g
    ensures r.Some? ==> c.Keys <= r.value.Keys
    decreases Uncoloured(g, c), 2, |ns|
  {
    if ns == [] then Some(c)
    else
      match Visit(g, c, ns[0])
      case None => None
      case Some(c1) =>
        assert Uncoloured(g, c1) <= Uncoloured(g, c);
        VisitAll(g, c1, ns[1..])
  }

  // ----------------------------------------------------------------- exactness

  /** Every node comes after all its successors. */
  ghost predicate Finished(g: Graph, order: seq<string>) {
    && Distinct(order)
    && forall i :: 0 <= i < |order| ==> order[i] in g && forall m :: m in g[order[i]] ==> m in order[..i]
  }

  /** Black nodes are finished in this order; grey ones are the path being explored. */
  ghost predicate Exploring(g: Graph, c: Colouring, order: seq<string>, path: seq<string>) {
    && Finished(g, order)
    && Walk(g, path)
    && (forall n :: n in order <==> n in c && c[n].Black?)
    && (forall n :: n in path <==> n in c && c[n].Grey?)
  }

  /** The search either finishes the node, extending the order, or closes a cycle. */
  lemma {:induction false} VisitExact(g: Graph, c: Colouring, n: string, order: seq<string>, path: seq<string>)
    returns (order1: seq<string>, cycle: seq<string>)
    requires Closed(g) && n in g && Exploring(g, c, order, path)
    requires path != [] ==> n in g[path[|path| - 1]]
    ensures match Visit(g, c, n)
            case None => Cycle(g, cycle)
            case Some(c1) => Exploring(g, c1, order1, path) && order <= order1 && n in order1
    decreases Uncoloured(g, c), 1, 0
  {
    order1, cycle := order, [];
    if n in c && c[n].Grey? {
      var i :| 0 <= i < |path| && path[i] == n;
      cycle := path[i..] + [n];
    } else if n !in c {
      var c1 := c[n := Grey];
      assert n in Uncoloured(g, c) && Uncoloured(g, c1) == Uncoloured(g, c) - {n};
      order1, cycle := VisitAllExact(g, c1, g[n], order, path + [n]);
      if VisitAll(g, c1, g[n]).Some? {
        var c2 := VisitAll(g, c1, g[n]).value;
        assert forall m :: m in path + [n] <==> m in path || m == n;
        assert n !in path;
        order1 := FinishNode(g, c2, n, order1, path);
      }
    }
  }

  lemma {:induction false} FinishNode(g: Graph, c: Colouring, n: string, order: seq<string>, path: seq<string>)
    returns (order1: seq<string>)
    requires n in g && n !in path && Exploring(g, c, order, path + [n])
    requires forall m :: m in g[n] ==> m in order
    ensures order1 == order + [n] && Exploring(g, c[n := Black], order1, path)
  {
    order1 := order + [n];
    assert n in path + [n];
    assert order1[..|order|] == order;
    forall i | 0 <= i < |order1|
      ensures order1[i] in g && forall m :: m in g[order1[i]] ==> m in order1[..i]
    {
      if i < |order| {
        assert order1[..i] == order[..i];
      }
    }
    forall i | 0 <= i < |path| - 1 ensures path[i + 1] in g[path[i]] {
      assert (path + [n])[i] == path[i] && (path + [n])[i + 1] == path[i + 1];
    }
    forall m | m in path ensures m in g {
      assert m in path + [n];
    }
    forall m ensures m in path <==> m in c[n := Black] && c[n := Black][m].Grey? {
      assert m in path + [n] <==> m in path || m == n;
    }
    forall m ensures m in order1 <==> m in c[n := Black] && c[n := Black][m].Black? {
      assert m in order1 <==> m in order || m == n;
    }
  }

  lemma {:induction false} VisitAllExact(g: Graph, c: Colouring, ns: seq<string>, order: seq<string>, path: seq<string>)
    returns (order1: seq<string>, cycle: seq<string>)
    requires Closed(g) && (forall m :: m in ns ==> m in g)
    requires Exploring(g, c, order, path)
    requires path != [] ==> forall m :: m in ns ==> m in g[path[|path| - 1]]
    ensures match VisitAll(g, c, ns)
            case None => Cycle(g, cycle)
            case Some(c1) => Exploring(g, c1, order1, path) && order <= order1 && forall m :: m in ns ==> m in order1
    decreases Uncoloured(g, c), 2, |ns|
  {
    order1, cycle := order, [];
    if ns != [] {
      assert ns == [ns[0]] + ns[1..] && ns[0] in ns;
      forall m | m in ns[1..] ensures m in ns {
      }
      order1, cycle := VisitExact(g, c, ns[0], order, path);
      if Visit(g, c, ns[0]).Some? {
        var c1 := Visit(g, c, ns[0]).value;
        assert Uncoloured(g, c1) <= Uncoloured(g, c);
        var mid := order1;
        order1, cycle := VisitAllExact(g, c1, ns[1..], order1, path);
        if VisitAll(g, c1, ns[1..]).Some? {
          forall i | 0 <= i < |mid| ensures mid[i] in order1 {
            assert mid[i] == order1[i];
          }
        }
      }
    }
  }

  function Position(order: seq<string>, n: string): (i: nat)
    requires n in order
    ensures i < |order| && order[i] == n
  {
    if order[0] == n then 0 else 1 + Position(order[1..], n)
  }

  /** A walk through finished nodes goes strictly back in the order. */
  lemma {:induction false} WalkGoesBack(g: Graph, order: seq<string>, p: seq<string>)
    requires Finished(g, order) && (forall n :: n in g ==> n in order)
    requires Walk(g, p) && |p| >= 2
    ensures Position(order, p[|p| - 1]) < Position(order, p[0])
    decreases |p|
  {
    var i := Position(order, p[0]);
    assert p[0] in p && p[1] in p && p[1] in order[..i];
    var j :| 0 <= j < i && order[j] == p[1];
    assert Position(order, p[1]) == j;
    if |p| > 2 {
      var q := p[1..];
      forall k | 0 <= k < |q| - 1 ensures q[k + 1] in g[q[k]] {
        assert p[k + 2] in g[p[k + 1]];
      }
      WalkGoesBack(g, order, q);
    }
  }

  lemma {:induction false} FinishedAcyclic(g: Graph, order: seq<string>)
    requires Finished(g, order) && forall n :: n in g ==> n in order
    ensures Acyclic(g)
  {
    forall p | Cycle(g, p) ensures false {
      WalkGoesBack(g, order, p);
    }
  }

  /** The search from every node objects exactly to the graphs that have a cycle. */
  lemma {:induction false} SearchExact(g: Graph, nodes: seq<string>) returns (order: seq<string>)
    requires Closed(g) && forall n :: n in nodes <==> n in g
    ensures VisitAll(g, map[], nodes).Some? <==> Acyclic(g)
    ensures Acyclic(g) ==> Finished(g, order) && forall n :: n in order <==> n in g
  {
    var cycle;
    order, cycle := VisitAllExact(g, map[], nodes, [], []);
    if VisitAll(g, map[], nodes).Some? {
      FinishedAcyclic(g, order);
      forall n | n in order ensures n in g {
        var i :| 0 <= i < |order| && order[i] == n;
      }
    }
  }

  // -------------------------------------------------------------- the methods

  datatype FlowError =
    | DuplicateIds
    | UnknownDependency(step: string, dep: string)
    | UnknownDegrade(step: string, source: string)
    | DependencyCycle

  /** A structurally valid flow. */
  ghost predicate Valid(steps: seq<Step>) {
    Distinct(Ids(steps)) && Known(steps) && Acyclic(GraphOf(steps))
  }

  class Marker {
    var state: Colouring

    constructor ()
      ensures state == map[]
    {
      state := map[];
    }

    /** Mark the node while its successors are visited; false when a grey node is met. */
    method VisitNode(g: Graph, n: string) returns (ok: bool)
      requires Closed(g) && n in g
      modifies this
      ensures ok == Visit(g, old(state), n).Some?
      ensures ok ==> state == Visit(g, old(state), n).value
      decreases Uncoloured(g, state)
    {
      if n in state {
        return state[n].Black?;
      }
      ghost var c := state;
      state := state[n := Grey];
      assert n in Uncoloured(g, c) && Uncoloured(g, state) == Uncoloured(g, c) - {n};
      ghost var c1 := state;
      assert g[n][0..] == g[n];
      for i := 0 to |g[n]|
        invariant c1.Keys <= state.Keys
        invariant VisitAll(g, state, g[n][i..]) == VisitAll(g, c1, g[n])
      {
        assert g[n][i] in g[n] && g[n][i..][1..] == g[n][i + 1..];
        assert Uncoloured(g, state) <= Uncoloured(g, c1) < Uncoloured(g, c);
        var fine := VisitNode(g, g[n][i]);
        if !fine {
          return false;
        }
      }
      state := state[n := Black];
      return true;
    }
  }

  /** `_validate_graph`: the first objection, or none exactly for the valid flows. */
  method ValidateGraph(steps: seq<Step>) returns (err: Option<FlowError>)
    ensures err.None? <==> Valid(steps)
    ensures err == Some(DuplicateIds) <==> !Distinct(Ids(steps))
    ensures err == Some(DependencyCycle) <==> Distinct(Ids(steps)) && Known(steps) && !Acyclic(GraphOf(steps))
    ensures err.Some? && err.value.UnknownDependency? ==>
              exists s :: s in steps && s.id == err.value.step && err.value.dep in s.dependsOn && err.value.dep !in Ids(steps)
    ensures err.Some? && err.value.UnknownDegrade? ==>
              exists s :: s in steps && s.id == err.value.step && s.degrade == Some(err.value.source) &&
                          err.value.source !in Ids(steps)
  {
    var ids := Ids(steps);
    var known := set id | id in ids;
    if |ids| != |known| {
      SetOfDistinct(ids);
      return Some(DuplicateIds);
    }
    SetOfDistinct(ids);
    for i := 0 to |steps|
      invariant forall k :: 0 <= k < i ==>
        && (forall dep :: dep in steps[k].dependsOn ==> dep in ids)
        && (steps[k].degrade.Some? ==> steps[k].degrade.value in ids)
    {
      var s := steps[i];
      for j := 0 to |s.dependsOn|
        invariant forall k :: 0 <= k < j ==> s.dependsOn[k] in ids
      {
        if s.dependsOn[j] !in known {
          return Some(UnknownDependency(s.id, s.dependsOn[j]));
        }
      }
      if s.degrade.Some? && s.degrade.value !in known {
        return Some(UnknownDegrade(s.id, s.degrade.value));
      }
    }
    assert Known(steps);
    var g := GraphOf(steps);
    ValidGraphClosed(steps);
    ghost var order := SearchExact(g, ids);
    var marker := new Marker();
    assert ids[0..] == ids;
    for i := 0 to |ids|
      invariant VisitAll(g, marker.state, ids[i..]) == VisitAll(g, map[], ids)
      invariant fresh(marker)
    {
      assert ids[i] in ids && ids[i..][1..] == ids[i + 1..];
      var ok := marker.VisitNode(g, ids[i]);
      if !ok {
        return Some(DependencyCycle);
      }
    }
    return None;
  }

  lemma {:induction false} SetOfDistinct(s: seq<string>)
    ensures |s| == |(set x | x in s)| <==> Distinct(s)
    ensures |(set x | x in s)| <= |s|
    decreases |s|
  {
    if s != [] {
      var init, last := s[..|s| - 1], s[|s| - 1];
      assert s == init + [last];
      SetOfDistinct(init);
      assert (set x | x in s) == (set x | x in init) + {last};
      if last in init {
        var i :| 0 <= i < |init| && init[i] == last;
        assert s[i] == s[|s| - 1];
        assert (set x | x in s) == (set x | x in init);
      } else {
        assert Distinct(s) <==> Distinct(init);
      }
    }
  }

  lemma {:induction false} ValidGraphClosed(steps: seq<Step>)
    requires Distinct(Ids(steps)) && Known(steps)
    ensures Closed(GraphOf(steps))
    ensures forall n :: n in Ids(steps) <==> n in GraphOf(steps)
  {
    var g := GraphOf(steps);
    GraphOfSpec(steps);
    forall n ensures n in Ids(steps) <==> n in g {
      if n in Ids(steps) {
        var i :| 0 <= i < |steps| && Ids(steps)[i] == n;
        assert steps[i] in steps;
      }
      if n in g {
        var s :| s in steps && s.id == n;
        var i :| 0 <= i < |steps| && steps[i] == s;
        assert Ids(steps)[i] == n;
      }
    }
    forall n, m | n in g && m in g[n] ensures m in g {
      var s :| s in steps && s.id == n;
      assert m in s.Edges();
    }
  }
}
