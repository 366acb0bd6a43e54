/**
 Undoing a finished flow from its recorded inverses, when no scan route is given.
 Unlike the driver's own rollback, an inverse that answers without `ok` has failed.
 */
module FlowRollback {
  import opened Text
  import opened Json
  import opened ThinModel
  import opened ThinSaga

  /** Call the inverses, last first, until one fails. */
  function UndoLedger<W>(host: Host<W>, w: W, ledger: seq<Inverse>, undone: seq<string>): (W, Unwind)
    decreases |ledger|
  {
    if ledger == [] then (w, Undone(undone))
    else
      var e, rest := ledger[|ledger| - 1], ledger[..|ledger| - 1];
      var (w1, r) := host.dispatch(w, e.uri, Args(e.args));
      if !Truthy(Get(r, "ok")) then (w1, Stuck(undone, e.uri, Get(r, "error")))
      else UndoLedger(host, w1, rest, undone + [e.uri])
  }

  /** An inverse got stuck on what it was answered in some world, and on the error in that. */
  ghost predicate StuckOn<W>(host: Host<W>, w: W, e: Inverse, u: Unwind) {
    var r := host.dispatch(w, e.uri, Args(e.args)).1;
    && u.Stuck? && u.at == e.uri && ("ok" in r ==> Falsy(r["ok"]))
    && u.reason == if "error" in r then r["error"] else Null
  }

  lemma {:induction false} StuckReads<W>(host: Host<W>, w: W, ledger: seq<Inverse>, undone: seq<string>)
    ensures var u := UndoLedger(host, w, ledger, undone).1;
            u.Stuck? ==> exists v, e :: e in ledger && StuckOn(host, v, e, u)
    decreases |ledger|
  {
    if ledger != [] {
      var e, rest := ledger[|ledger| - 1], ledger[..|ledger| - 1];
      var (w1, r) := host.dispatch(w, e.uri, Args(e.args));
      if "ok" in r {
        FalsyIsFalse(r["ok"]);
      }
      hide Truthy, Falsy;
      if Truthy(Get(r, "ok")) {
        StuckReads(host, w1, rest, undone + [e.uri]);
        var u := UndoLedger(host, w1, rest, undone + [e.uri]).1;
        if u.Stuck? {
          var v, x :| x in rest && StuckOn(host, v, x, u);
          assert x in ledger;
        }
      } else {
        assert e in ledger && StuckOn(host, w, e, UndoLedger(host, w, ledger, undone).1);
      }
    }
  }

  class Transport<W> {
    const host: Host<W>
    var world: W

    constructor (host: Host<W>, world: W)
      ensures this.host == host && this.world == world
    {
      this.host := host;
      this.world := world;
    }

    method Send(e: Inverse) returns (r: Dict)
      modifies this
      ensures (world, r) == host.dispatch(old(world), e.uri, Args(e.args))
    {
      var (w, res) := host.dispatch(world, e.uri, Args(e.args));
      world, r := w, res;
    }

    /** `rollback_flow` without a proof of the return. */
    method RollbackFlow(ledger: seq<Inverse>) returns (u: Unwind)
      modifies this
      ensures (world, u) == UndoLedger(host, old(world), ledger, [])
    {
      var undone: seq<string> := [];
      assert ledger[..|ledger|] == ledger;
      for k := |ledger| downto 0
        invariant UndoLedger(host, world, ledger[..k], undone) == UndoLedger(host, old(world), ledger, [])
      {
        assert ledger[..k + 1][..k] == ledger[..k];
        var r := Send(ledger[k]);
        if !Truthy(Get(r, "ok")) {
          return Stuck(undone, ledger[k].uri, Get(r, "error"));
        }
        undone := undone + [ledger[k].uri];
      }
      return Undone(undone);
    }
  }

  /** The same ending, whatever reason is given for a failure. */
  predicate SameEnding(a: Unwind, b: Unwind) {
    a.Undone? == b.Undone? && a.uris == b.uris && (a.Stuck? ==> b.Stuck? && a.at == b.at)
  }

  /** Every inverse called says whether it went well. */
  predicate Candid<W>(host: Host<W>, w: W, ledger: seq<Inverse>)
    decreases |ledger|
  {
    ledger != [] ==>
      var e, rest := ledger[|ledger| - 1], ledger[..|ledger| - 1];
      var (w1, r) := host.dispatch(w, e.uri, Args(e.args));
      "ok" in r && (IsOk(r) ==> Candid(host, w1, rest))
  }

  lemma {:induction false} UndoneOnlyGrows<W>(host: Host<W>, st: State<W>, ledger: seq<Inverse>, undone: seq<string>)
    ensures |undone| <= |Undo(host, st, ledger, undone).1.uris|
    decreases |ledger|
  {
    if ledger != [] {
      var e, rest := ledger[|ledger| - 1], ledger[..|ledger| - 1];
      if e.uri == "" {
        UndoneOnlyGrows(host, st, rest, undone);
      } else if IsOk(UndoOne(host, st, e).1) {
        UndoneOnlyGrows(host, UndoOne(host, st, e).0, rest, undone + [e.uri]);
      }
    }
  }

  /**
   On a ledger without blank inverses the two rollbacks end the same way if and only
   if every inverse called says whether it went well; then they leave the same world.
   */
  lemma {:induction false} AgreesWithDriver<W>(host: Host<W>, st: State<W>, ledger: seq<Inverse>, undone: seq<string>)
    requires forall e :: e in ledger ==> e.uri != ""
    ensures SameEnding(UndoLedger(host, st.world, ledger, undone).1, Undo(host, st, ledger, undone).1) <==>
            Candid(host, st.world, ledger)
    ensures Candid(host, st.world, ledger) ==>
            UndoLedger(host, st.world, ledger, undone).0 == Undo(host, st, ledger, undone).0.world
    decreases |ledger|
  {
    if ledger != [] {
      var e, rest := ledger[|ledger| - 1], ledger[..|ledger| - 1];
      var (st1, r) := UndoOne(host, st, e);
      if "ok" !in r {
        UndoneOnlyGrows(host, st1, rest, undone + [e.uri]);
      } else if IsOk(r) {
        AgreesWithDriver(host, st1, rest, undone + [e.uri]);
      }
    }
  }

  /** A candid ladder is undone to its bottom, or the flow stands on the rung whose inverse failed. */
  lemma {:induction false} LadderUndone<W>(host: Host<W>, st: State<W>, ledger: seq<Inverse>, marks: seq<W>)
    requires Ladder(host, ledger, marks) && st.world == marks[|ledger|] && Candid(host, st.world, ledger)
    ensures var (w, u) := UndoLedger(host, st.world, ledger, []);
            Unwound(ledger, marks, w, u)
  {
    hide UndoLedger, Undo, Candid, Undoes;
    assert forall e :: e in ledger ==> e.uri != "";
    AgreesWithDriver(host, st, ledger, []);
    UndoLadder(host, st, ledger, marks);
  }

  /** A connector whose inverse works and answers without `ok`. */
  const MUTE: Host<int> := Host(
    (w: int, uri: string, p: Payload) => (w - 1, map[]),
    (step: Step, results: Results, timeline: seq<Entry>) => Some(map[]), (uri: string) => "n", (text: string) => None, map[])

  /** The driver takes such an answer for success, this rollback for failure. */
  lemma {:induction false} MuteInverse(st: State<int>, e: Inverse)
    requires e.uri != ""
    ensures Undo(MUTE, st, [e], []).1 == Undone([e.uri])
    ensures UndoLedger(MUTE, st.world, [e], []) == (st.world - 1, Stuck([], e.uri, Null))
  {
    assert [e][..0] == [];
    var (st1, rb) := UndoOne(MUTE, st, e);
    assert rb == map[] && IsOk(rb);
    assert Undo(MUTE, st1, [], [] + [e.uri]) == (st1, Undone([] + [e.uri]));
    assert [] + [e.uri] == [e.uri];
  }
}
