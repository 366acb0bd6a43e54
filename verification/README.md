# Verified model of the URI flow runtime

A Dafny 4.11 model of the hard core of a URI-addressed command runtime, with proofs. What dispatches a URI is
always a parameter (a function of an unspecified world), so statements about runs hold for every connector
behaviour. `dafny verify dfyconfig.toml` checks everything.

| Files | What they model |
|---|---|
| `Text`, `Json` | strings and decoded JSON as the runtime handles them |
| `ThinModel`, `ThinDriver` | the thin flow driver: as a function over a dispatcher, and as it runs, updating envelope, timeline and results in place |
| `ThinSaga`, `ThinVerdict`, `ThinBounds`, `ThinGuard` | compensation, what a verdict says about the calls behind it, dispatch bounds, and what the driver refuses, over whole runs |
| `ThinIntent`, `ThinReads` | the same runs in the fields of the answers: what each answer leads to, and what each part of a verdict says |
| `ThinPlan`, `ThinInjection` | the plan builder, and that the steps it injects keep the meaning of the flow |
| `FlowRollback` | undoing a finished flow, against the driver's own rollback |
| `FlowGraph`, `FlowOrder`, `FlowRun`, `FlowRecord`, `FlowDocument` | flow validation, topological order, the resilient runner with its summary, what a run records in the fields of the answers, the flow document |
| `EventHub`, `EventResume`, `SseClient`, `EventPath` | the node's event hub under interleaving, resuming a stream across drops, the client's line reader and reconnect loop, and how the three fit together |
| `Uri`, `UriNames` | URI parsing and normal form, and which URIs share one |
| `Registry`, `RegistryAgreement` | the route registry with its index, and when the two answer a request alike |
| `WebSocket`, `CdpCall` | WebSocket frames of the browser connection, one call over it |
| `CParser` | the fixed-buffer C parser, and its agreement with the registry's parser |
| `ContractGate` | the contract validator |
| `ProbeInjection` | the planner pass that inserts readiness probes |

Code that mutates is a class or a method with a loop, proved equal to a function of the old state; the laws are
then lemmas about those functions. Lemmas named `…Reads` say what such a function takes from a connector's answer or
puts into a record, in the plain fields of the data.

## What the proofs brought out

Places where the code does less than its documentation suggests. Each is kept as the code has it, and pinned by a
concrete run, by an if-and-only-if, or by both.

- Retries never enter the ledger, so a rollback reported complete can leave a retried edit behind
  (`ThinSaga.RetryEscapesRollback`). Nor are they folded, so a retry passes on its intent alone (`Retry` in
  `ThinVerdict.Calm`). `ThinSaga.SagaCorrect` covers the runs whose calls keep the discipline.
- The injected remember step is not always neutral: if the user's last steps overdraw a budget, its extra turn
  trips the circuit breaker and the goal is never verified (`ThinInjection.InjectionChangesVerdict`).
- The two rollbacks differ on an inverse that answers without `ok` (`FlowRollback.AgreesWithDriver`, with
  `FlowRollback.MuteInverse` as an instance).
- `flow_summary` files a step against its recorded status when a connector's own envelope carries `skipped` or
  `degraded` (`FlowRun.SummaryAgrees`, `FlowRun.MisfiledExample`).
- A flow document drops an explicit `kind` that the URI does not imply (`FlowDocument.SurvivesUnchanged`,
  `FlowDocument.ExplicitKindIsLost`). A generated step id can be one that was given before, and then the step is
  rejected (`FlowOrder.GeneratedMayCollide`).
- An event published between replay and subscription, followed by one that is read, is lost for good, although
  the client promises that nothing is missed (`EventResume.GapLoses`). The promise holds of a run exactly when no
  read passes over a matching event (`EventResume.NothingMissed`), and a drop before such a read makes the gap good
  (`EventResume.DropHeals`). Two publishers can deliver out of order (`EventHub.PublishersMayCross`); over a run a
  subscriber's events keep their order exactly when none is queued after a later one (`EventHub.OrderExact`), which
  takes an offer that overtakes (`EventHub.TidyStep`).
- A percent-encoded slash in a target is written out by the normal form, so two different URIs can share one. Even
  in error mode the index and the route tree then answer one request differently
  (`RegistryAgreement.DecodedSlashDisagrees`). A source by parts does it alone if its target holds a slash: it is
  stored under the route its printed URI reads as, and indexed under the name of its parts
  (`RegistryAgreement.PartsSlashDisagrees`, exactly `RegistryAgreement.StraightExact`). For a given registry and
  request `RegistryAgreement.ErrorAgreement` decides, for two targets `RegistryAgreement.AgreementExact`. In keep
  mode two targets of one route do it too (`RegistryAgreement.KeepExample`, exactly `RegistryAgreement.KeepAgreement`).
- A control frame between fragments ends a WebSocket message early (`WebSocket.MessageReceived`,
  `WebSocket.PingTruncates`).
- The contract validator panics on a `oneOf` that is no list, if it comes to one (`ContractGate.NoListPanics`,
  exactly `ContractGate.OutcomesExact`). Then the order of alternatives matters (`ContractGate.OrderCanMatter`).

## Model

| member | source | states |
|---|---|---|
| ThinModel.InverseStaysOnNode | adapters/python/urirun_flow/flow_thin.py:138-151 | a node-less inverse resolves exactly when it has a path and the forward URI a scheme mark, and then stays on the forward step's scheme and node |
| ThinDriver.FlowEnvelope.constructor | adapters/python/urirun_flow/flow_thin.py:92-105 | a fresh envelope keeps its flow id and goal and has no attempts, an empty ledger and zero counters |
| ThinDriver.FlowEnvelope.RecordCall | adapters/python/urirun_flow/flow_thin.py:104-105 | appends one call event at the current position, nothing else changes |
| ThinDriver.FlowEnvelope.RecordReturn | adapters/python/urirun_flow/flow_thin.py:104-105 | appends one return event at the current position, nothing else changes |
| ThinDriver.FlowEnvelope.PushInverse | adapters/python/urirun_flow/flow_thin.py:107-110 | appends one inverse with its state strings to the ledger, nothing else changes |
| ThinDriver.ThinUndo | adapters/python/urirun_flow/flow_thin.py:193-197 | one inverse is dispatched, and its answer goes to the envelope and the timeline |
| ThinDriver.ThinRollback | adapters/python/urirun_flow/flow_thin.py:174-212 | the in-place loop dispatches the inverses last-in first-out, stops at the first that fails, and reports undone, stuck and reason as the specification function does |
| ThinDriver.ThinCallAgain | adapters/python/urirun_flow/flow_thin.py:215-230 | a retry counts against its budgets, replaces the recorded result unfolded, and leaves the ledger alone |
| ThinDriver.ThinRetryOnce | adapters/python/urirun_flow/flow_thin.py:215-233 | one retry; anything but continue or done rolls back |
| ThinDriver.ThinHandleAcquire | adapters/python/urirun_flow/flow_thin.py:236-259 | ensure the precondition at the step's node, then retry as healed, or block without rollback |
| ThinDriver.ThinHandleNonContinue | adapters/python/urirun_flow/flow_thin.py:262-280 | retry, acquire, rollback, done and unknown intents each lead where the driver takes them |
| ThinDriver.ThinUpdateLedger | adapters/python/urirun_flow/flow_thin.py:283-297 | the ledger grows by the resolved inverse of an ok result, with the state before and after, and by nothing otherwise |
| ThinDriver.ThinAttempt | adapters/python/urirun_flow/flow_thin.py:501-536 | an optional step is recorded and nothing more; a first attempt is folded, recorded, added to the ledger and its intent followed |
| ThinDriver.ThinDispatchStep | adapters/python/urirun_flow/flow_thin.py:464-536 | missing dependencies end the run, irreversible steps on degraded evidence are skipped, other steps attempted |
| ThinDriver.ThinGoalVerify | adapters/python/urirun_flow/flow_thin.py:335-356 | the goal check passes when ok or unserved and rolls back otherwise |
| ThinDriver.Run | adapters/python/urirun_flow/flow_thin.py:539-581 | the whole loop: breaker, position, step, goal check, verdict, equal to the specification function on which the run theorems are proved |
| ThinSaga.SendKeeps | adapters/python/urirun_flow/flow_thin.py:283-297 | after any forward call the ledger is what the calls made so far owe, and the world stands on top of the ladder of checkpoints |
| ThinSaga.UndoLadder | adapters/python/urirun_flow/flow_thin.py:174-212 | undoing a ladder from its top reaches the bottom with every inverse undone in reverse, or stops on the rung whose inverse failed with the undone list the reversed suffix |
| ThinSaga.RollbackSettles | adapters/python/urirun_flow/flow_thin.py:174-212 | a rollback at any moment of a run settles it as described for whole runs |
| ThinSaga.FollowKeeps | adapters/python/urirun_flow/flow_thin.py:262-280 | following any intent keeps the ledger a ladder or settles the run |
| ThinSaga.StepKeeps | adapters/python/urirun_flow/flow_thin.py:464-536 | so does any turn of the loop |
| ThinSaga.SagaCorrect | adapters/python/urirun_flow/flow_thin.py:539-581 | over every run whose calls keep the compensation discipline: a complete rollback restored the initial world, a stuck one stands on the checkpoint before it with the reversed suffix undone, and any stop without rollback stands on the last checkpoint |
| ThinSaga.RetryEscapesRollback | adapters/python/urirun_flow/flow_thin.py:215-233 | a concrete run in which only a retry breaks the discipline, and the rollback reported complete leaves its effect |
| ThinVerdict.FoldedOk | adapters/python/urirun_flow/flow_thin.py:322-332 | a folded result is ok exactly when transport and the action's own result are, and its intent is unchanged |
| ThinVerdict.VerdictExact | adapters/python/urirun_flow/flow_thin.py:464-581 | a run is rolled back, blocked or failed if and only if one of its calls gave a reason to, so a finished run had every plain attempt ok in transport and action, no refused precondition and a goal that held or was not served |
| ThinIntent.AnswersAreHeeded | adapters/python/urirun_flow/flow_thin.py:262-280 | in every run a first attempt that answers retry is tried again next with the same payload, one that answers acquire is followed by asking its node for what it names, and tried again if that is provided, and after one that answers done or rollback no call goes forward and the run is finished or rolled back accordingly |
| ThinIntent.FinishedMeansAttempted | adapters/python/urirun_flow/flow_thin.py:539-581 | a run that finished without a done attempted the whole plan in order, but for irreversible steps passed over after a degraded answer, so unknown intents go on |
| ThinReads.VerdictSays | adapters/python/urirun_flow/flow_thin.py:158-171 | what a verdict says holds: the budget named is the first one the retries and heals in the trace exceed, missing dependencies are those of a plan step, a refusal and a failure are those of the last calls, a rollback is for the call before it, and a finished run is degraded, with its reason, exactly when a recorded result is |
| ThinReads.KindReads | adapters/python/urirun_flow/flow_thin.py:118-120 | the intent is the kind named under `next`, else continue or rollback by `ok`, which counts as true when absent |
| ThinReads.InverseReads | adapters/python/urirun_flow/flow_thin.py:123-135 | an inverse is looked for in the answer, then in the value of its result, then in the result |
| ThinReads.EntryReads | adapters/python/urirun_flow/flow_thin.py:283-297 | a ledger entry takes the inverse's own URI if it has one, its arguments, and the states before and after from the answer |
| ThinReads.DegradedReads | adapters/python/urirun_flow/flow_thin.py:359-376 | degraded is read in the value of the result if that is an object, else in the answer |
| ThinReads.ActionReads | adapters/python/urirun_flow/flow_thin.py:54-65 | an action is ok when the transport says so and its own result does not say `ok: false` |
| ThinReads.DataReads | adapters/python/urirun_flow/flow_thin.py:54-71 | where the action's own result is found in an envelope: under `result`, its `value`, or what its `stdout` decodes to |
| ThinReads.FoldReads | adapters/python/urirun_flow/flow_thin.py:322-332 | folding takes back `ok` and puts the action's own error or a stock message under ACTION_FAILED, and changes nothing else |
| ThinReads.UnservedReads | adapters/python/urirun_flow/flow_thin.py:335-356 | a goal check counts as unserved on a text error, a registry error, or the categories NOT_FOUND and INVALID_ARGUMENT |
| ThinReads.AcquiredReads | adapters/python/urirun_flow/flow_thin.py:236-259 | a precondition counts as provided when the answer is ok and satisfied or acquired |
| ThinReads.IrreversibleReads | adapters/python/urirun_flow/flow_thin.py:473-482 | irreversible are the steps marked so and those whose URI contains one of the four write routes |
| ThinReads.PayloadIsPrepared | adapters/python/urirun_flow/flow_thin.py:504-509 | a step is sent what was prepared for it from the results and the timeline so far, at its own URI |
| ThinReads.EventsRead | adapters/python/urirun_flow/flow_thin.py:104-105 | the events of the envelope: every call and every answer with its ok and its intent, at the current position |
| ThinReads.PutReads | adapters/python/urirun_flow/flow_thin.py:513-522 | recording a result replaces the one under its id in place, or adds it at the end |
| ThinReads.FirstDegradedReads | adapters/python/urirun_flow/flow_thin.py:359-376 | the reason reported is that of the first degraded result |
| ThinReads.SkipReads | adapters/python/urirun_flow/flow_thin.py:494-499 | what is recorded for a step that is passed over |
| ThinReads.StepEntryReads | adapters/python/urirun_flow/flow_thin.py:300-319 | the timeline entry of a step: reversible exactly when its answer carries an inverse or its URI only asks |
| ThinReads.TimelineReads | adapters/python/urirun_flow/flow_thin.py:189-230 | the timeline entries of a retry and of an undoing |
| ThinReads.BlockedReads | adapters/python/urirun_flow/flow_thin.py:248-254 | the timeline entry of a refusal |
| ThinReads.AskReads | adapters/python/urirun_flow/flow_thin.py:240-243 | whom a missing precondition is asked of |
| ThinBounds.StepBound | adapters/python/urirun_flow/flow_thin.py:464-536 | a turn makes at most three calls before any rollback, adds at most one inverse, and spends at most one retry and one remediation |
| ThinBounds.RunBound | adapters/python/urirun_flow/flow_thin.py:539-581 | any run of n steps makes at most 4n + 1 dispatches, 4n without goal check, and overruns a budget by at most one |
| ThinBounds.RunBoundAttained | adapters/python/urirun_flow/flow_thin.py:236-259 | for every n some plan of n steps makes exactly 4n + 1 dispatches |
| ThinGuard.IrreversibleNeverOnDegraded | adapters/python/urirun_flow/flow_thin.py:473-499 | with distinct ids, while a recorded result stands degraded no irreversible step is called in the whole run, except to retry the very step that answered degraded |
| ThinGuard.DependenciesFirst | adapters/python/urirun_flow/flow_thin.py:444-457 | in every run a step is attempted only after an earlier plan step of each id it depends on was attempted, or is irreversible while an earlier call had answered degraded |
| ThinPlan.KvmStepTargetsSpec | adapters/python/urirun_flow/flow.py:535-538 | the drift targets are exactly the non-empty nodes of kvm steps, each once, ascending |
| ThinPlan.PlanShape | adapters/python/urirun_flow/flow.py:549-580 | an executed plan is the user's steps unchanged between optional, dependency-free injected ones, at most one of them behind |
| ThinPlan.InjectedRead | adapters/python/urirun_flow/flow.py:506-547 | the injected drift, preflight and remember steps field by field |
| ThinPlan.CdpReads | adapters/python/urirun_flow/flow.py:510-521 | a preflight is called for exactly when some URI contains `/cdp/page/` |
| ThinInjection.StepSim | adapters/python/urirun_flow/flow_thin.py:464-536 | a turn on a user step keeps the run with and the run without injected steps in agreement |
| ThinInjection.AdvisoryLoop | adapters/python/urirun_flow/flow_thin.py:509-515 | within budget a row of injected steps runs through without a trace on the user's side |
| ThinInjection.InjectionPreservesVerdict | adapters/python/urirun_flow/flow.py:549-580 | for dispatchers whose answers do not depend on the injected steps, the plan and the flow alone give the same user results always, and the same verdict if and only if it is not the case that a remember step follows a flow that ended with a budget overdrawn |
| ThinInjection.InjectionChangesVerdict | adapters/python/urirun_flow/flow_thin.py:158-171 | a concrete flow whose verdict the injected remember step changes |
| FlowRollback.Transport.RollbackFlow | adapters/python/urirun_flow/flow.py:778-786 | the loop calls the inverses last-in first-out until one does not answer ok, equal to the specification function |
| FlowRollback.AgreesWithDriver | adapters/python/urirun_flow/flow.py:778-786 | on one ledger this rollback and the driver's end alike if and only if every inverse called says whether it went well, and then leave the same world |
| FlowRollback.MuteInverse | adapters/python/urirun_flow/flow.py:778-786 | one inverse answering without `ok` stops this rollback and not the driver's |
| FlowRollback.StuckReads | adapters/python/urirun_flow/flow.py:778-786 | this rollback gets stuck on an inverse whose answer is not ok, and reports the error in that answer |
| FlowRollback.LadderUndone | adapters/python/urirun_flow/flow.py:778-786 | a ladder whose inverses say how they went is undone to its bottom or to the rung whose inverse failed |
| FlowGraph.VisitExact | adapters/python/urirun_flow/__init__.py:134-147 | the three-colour visit either finishes the node, extending an order in which successors come first, or exhibits a cycle |
| FlowGraph.SearchExact | adapters/python/urirun_flow/__init__.py:134-149 | the search from every node accepts exactly the acyclic graphs, and yields an order for them |
| FlowGraph.Marker.VisitNode | adapters/python/urirun_flow/__init__.py:136-147 | the marking in place is the pure visit |
| FlowGraph.ValidateGraph | adapters/python/urirun_flow/__init__.py:123-149 | no objection exactly when ids are distinct, edges known and the graph acyclic; each objection names its true cause |
| FlowGraph.EdgesRead | adapters/python/urirun_flow/__init__.py:134-135 | a step waits for its dependencies, and for its degrade source if one is named |
| FlowOrder.Emitter.Emit | adapters/python/urirun_flow/__init__.py:157-166 | the recursion terminates by the rank validation supplies and emits a step only behind its edges |
| FlowOrder.Order | adapters/python/urirun_flow/__init__.py:151-169 | for every valid flow a permutation of the steps with each dependency and degrade source before its user |
| FlowOrder.AppendKeepsValid | adapters/python/urirun_flow/__init__.py:101-115 | appending a step with a fresh id and known edges keeps a valid flow valid |
| FlowOrder.ValidMeansFits | adapters/python/urirun_flow/__init__.py:123-149 | conversely a named step that leaves a valid flow valid has a new id and edges to existing steps only |
| FlowOrder.Flow.AddStep | adapters/python/urirun_flow/__init__.py:101-115 | the step, with its id given or generated and its references reduced to ids, is appended before validation, so it stays even when rejected; a valid flow accepts it exactly when its id is new and its edges lead to existing steps, and names a duplicate id exactly when the id was there |
| FlowOrder.MadeReads | adapters/python/urirun_flow/__init__.py:107-112 | an id given or counted, steps handed over reduced to their ids, everything else as it was |
| FlowOrder.GeneratedIsFresh | adapters/python/urirun_flow/__init__.py:101-115 | a generated id is new as long as all ids so far were generated |
| FlowOrder.GeneratedMayCollide | adapters/python/urirun_flow/__init__.py:101-115 | after a first step given the id `s2` the next generated one is a duplicate, so the flow is invalid |
| FlowRun.ResolveCalls | adapters/python/urirun_flow/run.py:104-145 | between one and max + 1 primary calls, each but the last worth a retry, then the fallback exactly when the last is not ok and one is given, all with the step's URI and payload; the envelope is what those calls come to |
| FlowRun.RunSemantics | adapters/python/urirun_flow/run.py:196-236 | every step gets exactly one envelope, in order; it is skipped exactly when an abort came before, a dependency is not ok or the payload dangles, and otherwise its status and envelope follow from its own calls and the already settled degrade source |
| FlowRun.DependentsSkip | adapters/python/urirun_flow/run.py:154-164 | every transitive dependent of a step that is not ok is skipped and never called |
| FlowRecord.LastAnswerSettles | adapters/python/urirun_flow/run.py:104-145 | over every flow a called step is settled by the answer of its last call, be it its own or its fallback's: it succeeded exactly when that answer went well and no assertion turned it down, or a degrade source stands in; its record is that answer with what the runner writes into it, or the degraded one |
| FlowRecord.SucceededExactly | adapters/python/urirun_flow/run.py:104-145 | without assertion and degrade source a called step succeeded if and only if the answer of its last call went well, and that answer is its record on every field the runner does not write |
| FlowRecord.PolicyFollowed | adapters/python/urirun_flow/run.py:112-134 | over every flow the calls of a step go to its URI with its prepared payload, are repeated exactly on listed error categories and at most as often as allowed, and end with the fallback exactly when it is given and the last one failed |
| FlowRecord.OkReads | adapters/python/urirun_flow/run.py:33-51 | an answer is ok when it says so and neither its result nor the value in that says `ok: false` |
| FlowRecord.WorthReads | adapters/python/urirun_flow/run.py:54-66 | a failure is worth repeating when its category, named or classified, is among those listed by the step, or else the four retryable ones |
| FlowRecord.MaxReads | adapters/python/urirun_flow/run.py:113-114 | at most as many repetitions as the whole part of `max`, none when it is absent or negative |
| FlowRecord.SkippedReads | adapters/python/urirun_flow/run.py:69-71 | the record of a skipped step field by field |
| FlowRecord.SkipSays | adapters/python/urirun_flow/run.py:154-164 | the reason recorded for a skip: an abort before it, a dependency that did not succeed, or a payload that dangles |
| FlowRun.FlowSummary | adapters/python/urirun_flow/run.py:74-101 | counts the steps; the four lists are the ids of their bucket in insertion order; it is ok, and tagged a result rather than a failure, exactly when nothing failed; the first error describes the first failed step by id, URI, category and error |
| FlowRun.SummaryAgrees | adapters/python/urirun_flow/run.py:74-101 | an id is filed as its recorded status says if and only if no connector put a misleading `skipped` or `degraded` into its envelope |
| FlowRun.MisfiledExample | adapters/python/urirun_flow/run.py:74-101 | a step that succeeded with an envelope saying `skipped` is filed as skipped |
| FlowRun.SummaryPartitions | adapters/python/urirun_flow/run.py:74-101 | the buckets hold exactly the ids of the run, each in one bucket |
| FlowRecord.BucketReads | adapters/python/urirun_flow/run.py:80-89 | an envelope is filed as skipped, degraded, succeeded or failed by its fields, in this order |
| FlowRecord.ErrorReads | adapters/python/urirun_flow/run.py:90-92 | the first error repeats the step, URI, error and category of its envelope |
| FlowRun.Runner.Resolve | adapters/python/urirun_flow/run.py:104-145 | the retry loop in place is the specification function |
| FlowRun.Runner.PrereqSkip | adapters/python/urirun_flow/run.py:154-164 | skips exactly on abort or a dependency that is not ok, and records the skip |
| FlowRun.Runner.RunStep | adapters/python/urirun_flow/run.py:219-234 | one iteration of the run loop in place is one turn |
| FlowRun.Runner.RunFlow | adapters/python/urirun_flow/run.py:196-236 | the whole loop over a topological order of the flow |
| FlowDocument.ToDict | adapters/python/urirun_flow/__init__.py:172-201 | the document built key by key is the specification function |
| FlowDocument.StepRoundTrip | adapters/python/urirun_flow/__init__.py:172-210 | a step's document reads back as the step with empty optional fields gone and kind re-derived |
| FlowDocument.RoundTrip | adapters/python/urirun_flow/__init__.py:172-210 | reading back the document of a flow gives its normal form, which validates again |
| FlowDocument.SameDocument | adapters/python/urirun_flow/__init__.py:172-201 | the normal form has the same document |
| FlowDocument.SurvivesUnchanged | adapters/python/urirun_flow/__init__.py:79-87 | the round trip is the identity exactly when no optional field is empty and every kind is the one its URI implies |
| FlowDocument.KindReads | adapters/python/urirun_flow/__init__.py:79-87 | the derived kind is the first of query, command and assertion that stands between slashes behind the scheme |
| FlowDocument.UriReads | adapters/python/urirun_flow/__init__.py:35 | a URI is a scheme of lower-case letters, digits and `+.-`, beginning with a letter, then `://` |
| FlowDocument.ValidReads | adapters/python/urirun_flow/__init__.py:65-77 | a step is valid when its URIs are URIs and its catch is continue or abort |
| FlowDocument.ExplicitKindIsLost | adapters/python/urirun_flow/__init__.py:79-87 | a step of kind query whose URI implies none comes back without a kind |
| EventHub.Queue.PutNowait | adapters/python/urirun_node/server.py:59-63 | a full queue drops the event, another takes it at the end |
| EventHub.Hub.Admit | adapters/python/urirun_node/server.py:54-58 | the locked part: next number, ring append, snapshot of the subscribers |
| EventHub.Hub.Publish | adapters/python/urirun_node/server.py:53-64 | alone, a publish numbers the event, remembers it and offers it once to every subscriber |
| EventHub.Hub.Subscribe | adapters/python/urirun_node/server.py:66-70 | adds a fresh empty queue and changes nothing else |
| EventHub.Hub.Unsubscribe | adapters/python/urirun_node/server.py:72-74 | removes the queue and changes nothing else |
| EventHub.Hub.Replay | adapters/python/urirun_node/server.py:76-78 | the ring's events after the cursor, in ring order |
| EventHub.FlightStep | adapters/python/urirun_node/server.py:53-64 | exactly how each interleaved step changes which events are on their way to which subscriber |
| EventHub.SoundStep | adapters/python/urirun_node/server.py:47-86 | every interleaved step of any publisher or subscriber keeps the hub sound |
| EventHub.HubSound | adapters/python/urirun_node/server.py:47-86 | under every interleaving: ids count publishes, the ring is exactly the last of them, each event since subscription is delivered once, in flight or dropped by a full queue, and per publisher order is kept |
| EventHub.PublishersMayCross | adapters/python/urirun_node/server.py:53-64 | a concrete interleaving in which two publishers deliver out of order |
| EventHub.OrderExact | adapters/python/urirun_node/server.py:53-64 | over every run a subscriber got its events in order of number if and only if none was queued after a later one |
| EventHub.OrderStep | adapters/python/urirun_node/server.py:53-64 | a step keeps that order exactly when it queues nothing late, and no step restores it |
| EventHub.TidyStep | adapters/python/urirun_node/server.py:53-64 | a subscriber in order, with everything still pending for it later, stays so if and only if the step is no offer that is queued before an earlier event still pending for it |
| EventHub.SerialInOrder | adapters/python/urirun_node/server.py:53-64 | with one publish at a time every subscriber gets its events in order |
| EventResume.ConnectExact | adapters/python/urirun_node/server.py:729-746 | right after a reconnect nothing is missing if and only if no matching event after the cursor was evicted from the ring |
| EventResume.BufferSuffices | adapters/python/urirun_node/server.py:76-78 | that holds when at most `buffer` events were published after the last one seen |
| EventResume.PublishExact | adapters/python/urirun_node/server.py:748-766 | a publish keeps an exact session exact if and only if it does not fall between replay and subscription, or does not match the filter |
| EventResume.StepExact | adapters/python/urirun_node/server.py:729-766 | any step keeps an exact session exact if and only if nothing matching falls into that gap or out of the ring |
| EventResume.ResumeExact | adapters/python/urirun_node/client.py:541-558 | over any number of drops without such steps the events yielded are exactly the matching ones up to the cursor, each once and in order, ending with the first result, and what is in the pipe completes them |
| EventResume.StepCaughtUp | adapters/python/urirun_node/client.py:541-558 | a client that was given every matching event up to its cursor stays so unless, and only unless, a read passes over one |
| EventResume.NothingMissed | adapters/python/urirun_node/client.py:541-558 | for every run at all: nothing matching up to the cursor was missed if and only if no read passed over a matching event |
| EventResume.ExactNeverSkips | adapters/python/urirun_node/client.py:541-558 | an exact session has nothing to pass over, so only a gap or an eviction makes a read miss anything |
| EventResume.DropHeals | adapters/python/urirun_node/server.py:729-746 | a drop before any such read makes good what fell into the gap: the next replay is complete if and only if the ring still reaches |
| EventResume.GapReplayed | adapters/python/urirun_node/server.py:729-766 | so an event published into the gap is replayed after an immediate drop |
| EventResume.NeverDuplicated | adapters/python/urirun_node/client.py:541-558 | over every run at all the yielded events are real, matching and strictly ascending |
| EventResume.OnlyAskedFor | adapters/python/urirun_node/server.py:344-347 | over every run a client is only given events it asked for, by the scheme and the run in their bodies |
| EventResume.AllAskedFor | adapters/python/urirun_node/client.py:541-558 | in a run without gap or eviction it is given all of them up to its cursor |
| EventResume.OneRun | adapters/python/urirun_node/client.py:541-558 | in particular a client of one run is given that run's events, all up to its cursor and no others |
| EventResume.MatchesReads | adapters/python/urirun_node/server.py:344-347 | an event matches when the text before the first `://` of its URI, and its run, are among those asked for, nothing asked meaning everything |
| EventResume.LostForever | adapters/python/urirun_node/client.py:541-558 | an event the cursor has passed without yielding is never yielded later |
| EventResume.GapLoses | adapters/python/urirun_node/server.py:748-766 | an event published between replay and subscription is lost for good once a later one is read |
| SseClient.Watch | adapters/python/urirun_node/client.py:512-539 | the line loop with its current id is the specification function; a data line that is JSON and no object ends the connection |
| SseClient.BlankReads | adapters/python/urirun_node/client.py:527-535 | the blanks that are stripped |
| SseClient.SentIsRead | adapters/python/urirun_node/server.py:350-353 | when the events written are printed so that they can be parsed back, their frames, among any comments, are read as those events with their own ids, whatever the cursor |
| SseClient.CutIsPrefix | adapters/python/urirun_node/client.py:512-539 | a connection cut after any line yields a prefix of its events |
| SseClient.SilentLast | adapters/python/urirun_node/client.py:524-539 | a last line that yields nothing by itself changes no events |
| SseClient.BrokenIsPrefix | adapters/python/urirun_node/client.py:512-539 | a connection that breaks anywhere, within a line or a character included, yields a prefix of the published events, provided no proper head of a printed payload reads as JSON |
| SseClient.Consume | adapters/python/urirun_node/client.py:549-553 | events are handed on up to the first result while the cursor becomes the largest id seen |
| SseClient.ResultReads | adapters/python/urirun_node/client.py:552-553 | a stream ends at an event whose `event` is `result` |
| SseClient.IdReads | adapters/python/urirun_node/client.py:550 | the cursor is the number under `_id`, or 0 |
| SseClient.StreamRun | adapters/python/urirun_node/client.py:541-558 | the reconnect loop is the specification function over any server |
| SseClient.StreamExact | adapters/python/urirun_node/client.py:541-558 | against a server that resumes after the asked cursor, the stream is a prefix of the events up to the result, wherever connections break, within lines included: none twice, none left out |
| SseClient.StreamCompletes | adapters/python/urirun_node/client.py:541-558 | one connection that is not cut short completes it |
| SseClient.CuttingIsHonest | adapters/python/urirun_node/client.py:541-558 | a server that writes the pending frames and is cut off after any number of lines and characters resumes after the asked cursor |
| SseClient.StreamExample | adapters/python/urirun_node/client.py:541-558 | a codec, a log and a server that satisfy every assumption; across a break within a payload the whole log is streamed |
| EventPath.HubYieldsPipe | adapters/python/urirun_node/server.py:729-771 | the hub machine, publishing one at a time to a reader that keeps up, serves every run of a session: what it replays and queues for the current connection is what the client has read on it, followed by what is in its pipe |
| EventPath.ConnectionIsHonest | adapters/python/urirun_node/server.py:729-771 | along every run in which nothing matching falls into the gap or out of the ring, the connection so written, among any comments, wherever it breaks and whatever is published later, meets the assumption of the client's stream theorems |
| EventPath.WritesWhatWasAsked | adapters/python/urirun_node/server.py:729-771 | in every such run the connection carries exactly the events after its cursor that were asked for, by the fields of their bodies |
| Uri.UnquoteQuote | adapters/python/urirun_runtime/_registry.py:34-64 | decoding undoes percent-encoding for every octet string |
| Uri.QuoteIsClean | adapters/python/urirun_runtime/_registry.py:34-49 | encoded text holds no delimiter |
| Uri.QuoteReads | adapters/python/urirun_runtime/_registry.py:34-49 | an octet is left as it is if it is a letter, a digit or one of `_.-~`, and else becomes a percent sign and two upper-case hexadecimal digits |
| Uri.HexValueReads | adapters/python/urirun_runtime/_registry.py:34-49 | the digits that count in an escape, in either case |
| Uri.SchemeReads | adapters/python/urirun_runtime/_registry.py:20-23 | a scheme is a letter followed by letters, digits and `+.-` |
| Uri.TailReads | adapters/python/urirun_runtime/_registry.py:20-23 | a fragment may end in one newline and hold none else |
| Uri.PathRoundTrip | adapters/python/urirun_runtime/_registry.py:34-49 | a path printed from non-empty slash-free parts splits back into them |
| Uri.NormalFormParses | adapters/python/urirun_runtime/_registry.py:34-49 | parsing a normalized URI gives the same package, target and segments if and only if the decoded target holds no delimiter and no escape |
| UriNames.NormalizeIdempotent | adapters/python/urirun_runtime/_registry.py:34-49 | normalizing again changes nothing if and only if the decoded target is plain, or is a plain head with written-out segments after a slash and further segments behind it |
| Uri.PartsRead | adapters/python/urirun_runtime/_registry.py:109-120 | what a URI printed from parts reads as, for any target: delimiters in the target end it early, and what follows a slash comes before the names |
| Uri.TranslateReads | adapters/python/urirun_runtime/_registry.py:52-64 | the first two segments name resource and operation, the others are arguments; with fewer there is no route |
| Uri.PartsRoundTrip | adapters/python/urirun_runtime/_registry.py:109-120 | a route printed from its parts translates back to the same package, resource and operation if and only if the package is a scheme, neither name is empty and the target keeps the two names first |
| Uri.TargetKeepsNames | adapters/python/urirun_runtime/_registry.py:109-120 | a target does so for all names if and only if it holds no delimiter but slashes at its end |
| UriNames.NamedAlike | adapters/python/urirun_runtime/_registry.py:34-49 | two readings with segments and one normal form are the same if and only if neither decoded target is the other with written-out segments after a slash |
| UriNames.SpelledParses | adapters/python/urirun_runtime/_registry.py:34-64 | every reading can be spelled as a URI that parses to it, slashes in the target included |
| Registry.NormalizeTwice | adapters/python/urirun_runtime/_registry.py:84-90 | normalizing a route entry is idempotent |
| Registry.EntryReads | adapters/python/urirun_runtime/_registry.py:84-90 | what an entry keeps field by field, and the adapter each kind runs on |
| Registry.CoerceReads | adapters/python/urirun_runtime/_registry.py:123-139 | an item is read by its URI, or by its parts, none of which may be missing, and keeps its origin |
| Registry.StoreLookup | adapters/python/urirun_runtime/_registry.py:149-160 | storing a route changes the lookup of that route only, creating levels changes none |
| Registry.KeepIsFirst | adapters/python/urirun_runtime/_registry.py:235-277 | in keep mode tree and index hold per key exactly the first entry written |
| Registry.ReplaceIsLast | adapters/python/urirun_runtime/_registry.py:235-277 | in replace mode exactly the last |
| Registry.ErrorExact | adapters/python/urirun_runtime/_registry.py:235-277 | in error mode the build succeeds exactly for sources consistent per route and per URI, and maps each to the entry they agree on |
| Registry.OrderIrrelevant | adapters/python/urirun_runtime/_registry.py:235-277 | in error mode neither success nor the resulting maps depend on source order |
| Registry.DocumentLists | adapters/python/urirun_runtime/_registry.py:235-277 | whatever the policy, every index entry is that of one source, whole, and the origins listed are those of the sources, each once |
| Registry.PickBranch | adapters/python/urirun_runtime/_registry.py:473-482 | an exact key, else the one parameter key, or none exactly when there is no branch |
| Registry.WalkRouteTree | adapters/python/urirun_runtime/_registry.py:469-485 | finds an entry reached by exact-first branches, or nothing exactly when none is reached; a name is bound exactly when some level was passed by that name in braces, to the segment of the last such level |
| Registry.ReachedBinds | adapters/python/urirun_runtime/_registry.py:469-485 | every level is passed by the segment's own key, or by the only key in braces when there is none, and the bindings are as said |
| Registry.StoredIsReached | adapters/python/urirun_runtime/_registry.py:469-485 | a stored route is reached by its own key, binding nothing, and by no other |
| Registry.ResolveRoute | adapters/python/urirun_runtime/_registry.py:459-500 | the index decides when it has the request's normal form; else the walk along the route the same request translates to, with its bindings as said, or nothing when that reaches nothing |
| Registry.SourceIsStored | adapters/python/urirun_runtime/_registry.py:235-277 | in error mode every source is in the index under its URI and in the tree under its key, where only it is reached |
| Registry.RegistryBuilder.AddToTree | adapters/python/urirun_runtime/_registry.py:149-160 | levels are created, then the entry stored, kept or objected to; on objection no lookup changed |
| Registry.RegistryBuilder.BuildDocument | adapters/python/urirun_runtime/_registry.py:235-277 | the loop in place, coercing each source as it comes, succeeds exactly when all can be coerced and the specification function builds, and then holds its document |
| Registry.RegistryBuilder.EnterSource | adapters/python/urirun_runtime/_registry.py:245-268 | one source enters the tree, then the index, or is objected to, as one step of that function |
| RegistryAgreement.SourceIsNamed | adapters/python/urirun_runtime/_registry.py:109-139 | every readable source, by URI or by parts, is indexed under the normal form of what it says it is |
| RegistryAgreement.StraightExact | adapters/python/urirun_runtime/_registry.py:109-139 | a source by URI is stored under the route it says; one by parts if and only if its target keeps the two names first |
| RegistryAgreement.UnstrayedIsStraight | adapters/python/urirun_runtime/_registry.py:109-139 | in particular whenever its target holds no slash |
| RegistryAgreement.ListedUriReads | adapters/python/urirun_runtime/_registry.py:123-139 | the URI a source is indexed under parses back to what it says it is if and only if its decoded target holds no delimiter and no escape |
| RegistryAgreement.ErrorAgreement | adapters/python/urirun_runtime/_registry.py:459-500 | in error mode, for every request that parses, translates and is indexed: index and tree agree if and only if some source stored where the walk ends carries the indexed entry, and a source stored under the request's own route decides it |
| RegistryAgreement.IndexAgreesWithTree | adapters/python/urirun_runtime/_registry.py:459-500 | so they agree, binding nothing, if a source listed there is stored straight and its target does not collide with that of the request |
| RegistryAgreement.AgreementExact | adapters/python/urirun_runtime/_registry.py:459-500 | two targets agree in every error-mode registry and on every request if and only if neither is the other with written-out segments after a slash, and they are not one target that would lead a source by parts to another route |
| RegistryAgreement.SlashFreeAgree | adapters/python/urirun_runtime/_registry.py:459-500 | in particular targets without a slash always agree |
| RegistryAgreement.DecodedSlashDisagrees | adapters/python/urirun_runtime/_registry.py:459-500 | the sources `x://a%2Fb/r/o` and `x://a/b/r` build in error mode, and the request `x://a/b/r/o` gets the one by index and the other by tree |
| RegistryAgreement.PartsSlashDisagrees | adapters/python/urirun_runtime/_registry.py:109-120 | the one source with target `a/b` and names r, o builds in error mode; the request `x://a%2Fb/r/o`, which says the same, is answered by the index, and its own walk reaches nothing |
| RegistryAgreement.KeepAgreement | adapters/python/urirun_runtime/_registry.py:235-277 | in keep mode, for every indexed request: index and tree agree if and only if the first source of the route the walk reaches carries the entry of the first source of the name, the request's own route being reached whenever it is stored |
| RegistryAgreement.ReplaceAgreement | adapters/python/urirun_runtime/_registry.py:235-277 | in replace mode the same with the last sources |
| RegistryAgreement.KeepMayDisagree | adapters/python/urirun_runtime/_registry.py:235-277 | two sources of one route under different URIs: in keep mode the second resolves by index to its own entry, by tree to the first one's |
| RegistryAgreement.KeepExample | adapters/python/urirun_runtime/_registry.py:235-277 | for instance `x://a/r/o` and `x://b/r/o` |
| WebSocket.BigEndianRoundTrip | adapters/python/urirun_cdp/cdp.py:104-118 | a length packed big-endian reads back |
| WebSocket.MaskedTwice | adapters/python/urirun_cdp/cdp.py:118 | masking twice with one key is the identity (section 5.3 of RFC 6455) |
| WebSocket.MaskedIs | adapters/python/urirun_cdp/cdp.py:118 | bit by bit: a bit of sent octet i is set if and only if the bits of payload octet i and key octet i mod 4 differ (section 5.3 of RFC 6455) |
| WebSocket.Unmasked | adapters/python/urirun_cdp/cdp.py:118 | a receiver that goes by that statement on bits gets the payload back |
| WebSocket.LengthRoundTrip | adapters/python/urirun_cdp/cdp.py:107-115 | each of the three length forms is read back, and is the minimal one (section 5.2 of RFC 6455) |
| WebSocket.SentFrameDecodes | adapters/python/urirun_cdp/cdp.py:104-118 | every frame sent decodes by section 5.2 of RFC 6455, with the unmasking from the statement on bits, to one final masked text frame with the same payload, leaving the following octets |
| WebSocket.FrameOnWire | adapters/python/urirun_cdp/cdp.py:104-118 | the frame octet by octet: flags, length by its places, key, masked payload |
| WebSocket.Socket.WsSend | adapters/python/urirun_cdp/cdp.py:104-118 | the header built step by step is that frame, octet by octet |
| WebSocket.Socket.ReadExactly | adapters/python/urirun_cdp/cdp.py:122-129 | exactly n octets however the socket cuts them up, or none when the stream ends |
| WebSocket.Socket.ReadHeader | adapters/python/urirun_cdp/cdp.py:132-137 | the final flag and the length in any of its three forms, or none when the stream ends |
| WebSocket.HeaderReads | adapters/python/urirun_cdp/cdp.py:132-137 | the top bit of the first octet is the final flag, the other seven bits of the second the length |
| WebSocket.LongHeaderReads | adapters/python/urirun_cdp/cdp.py:132-137 | unless they are 126 or 127, which announce two and eight octets of length |
| WebSocket.Socket.WsRecv | adapters/python/urirun_cdp/cdp.py:121-140 | the result and what stays unread are functions of the stream, however it is cut up |
| WebSocket.EncodedDecodes | adapters/python/urirun_cdp/cdp.py:121-140 | the server frames used below are the ones section 5.2 of RFC 6455 describes |
| WebSocket.ReceiveFrames | adapters/python/urirun_cdp/cdp.py:121-140 | the receiver returns the payloads up to the first final frame and leaves the rest unread |
| WebSocket.MessageReceived | adapters/python/urirun_cdp/cdp.py:121-140 | a fragmented message (section 5.4 of RFC 6455) comes out whole if and only if no control frame came before its last fragment |
| WebSocket.ControlReads | adapters/python/urirun_cdp/cdp.py:121-140 | which opcodes are data and which control (section 5.5 of RFC 6455) |
| WebSocket.PingTruncates | adapters/python/urirun_cdp/cdp.py:121-140 | a ping between two fragments cuts the message after the first |
| CdpCall.Call | adapters/python/urirun_cdp/cdp.py:143-149 | one request frame is sent, then up to 300 messages are taken, as the specification function says |
| CdpCall.ReplyIsFirst | adapters/python/urirun_cdp/cdp.py:143-149 | the reply is the first message with the id when it is among the next ones allowed, with what follows left unread; else the call gives up after so many or finds the stream ended |
| CdpCall.IdReads | adapters/python/urirun_cdp/cdp.py:143-149 | a message has the id when its `id` is that number, a truth value counting as 1 or 0 |
| CParser.CopyToken | adapters/c/urirun.c:4-10 | refused exactly when the token with its NUL does not fit, and then the buffer is untouched |
| CParser.ParseTarget | adapters/c/urirun.c:18-26 | the target up to the first delimiter, refused when empty or too long |
| CParser.StoreSegment | adapters/c/urirun.c:35-43 | a segment lands NUL-terminated in its 64-byte slot exactly when it fits |
| CParser.StoreNext | adapters/c/urirun.c:35-43 | the next slot takes the segment exactly when it fits, and the others keep theirs |
| CParser.ParseSegments | adapters/c/urirun.c:30-48 | succeeds exactly when the functional split has at most 8 short segments, and stores exactly those |
| CParser.UrirunParse | adapters/c/urirun.c:50-66 | succeeds exactly when the functional split exists and fits the fixed buffers, which then hold it |
| CParser.FitsReads | adapters/c/urirun.c:50-66 | what fits is at most eight segments, and nothing longer than 63 characters |
| CParser.PrintRoundTrip | adapters/c/urirun.c:50-66 | parsing inverts printing for delimiter-free segments, dropping only a final empty one, so it is the inverse exactly when there is none |
| CParser.AgreesWithRegistry | adapters/c/urirun.c:50-66 | on one-line URIs without escapes the registry's parser accepts exactly what the C split accepts with a legal scheme, with the same package, target and non-empty segments; equal exactly when no interior segment is empty |
| ContractGate.LeafMeaning | xlang/gate.go:83-94 | leading question marks together mean that null is allowed |
| ContractGate.TypeReads | xlang/gate.go:57-81 | what each type token accepts |
| ContractGate.UnknownToken | xlang/gate.go:57-81 | any other token accepts nothing |
| ContractGate.OptionalReads | xlang/gate.go:83-86 | a question mark in front admits null besides |
| ContractGate.MissingReads | xlang/gate.go:113-120 | a key may be missing when its schema is a text with a question mark in front |
| ContractGate.EnumReads | xlang/gate.go:44-55 | an enum accepts the texts that stand between its bars |
| ContractGate.ConstReads | xlang/gate.go:27-42 | a constant is a boolean, a whole number, or else the text itself |
| ContractGate.AtoiReads | xlang/gate.go:36-38 | decimal digits with an optional sign are that number within 64 bits |
| ContractGate.AtoiOnlyNumbers | xlang/gate.go:36-38 | nothing else is a number |
| ContractGate.CheckOneOf | xlang/gate.go:96-106 | the alternatives in turn, up to the first that does not reject: accepted, rejected or panicked as that allows |
| ContractGate.CheckObject | xlang/gate.go:108-126 | the keys in some order, up to the first that does not pass: accepted, rejected or panicked as that allows |
| ContractGate.Check | xlang/gate.go:128-142 | for any schema at all, ends as some order of visiting allows: accepts only values in the declarative meaning, rejects only others, and must panic where it comes to a `oneOf` that is no list |
| ContractGate.OutcomesExact | xlang/gate.go:96-142 | over all orders: accepting and rejecting follow the meaning, a panic is possible exactly when some order comes to a `oneOf` that is no list, and where it is not the meaning decides the verdict |
| ContractGate.NoListPanics | xlang/gate.go:131-132 | a `oneOf` that is a number panics on every value |
| ContractGate.WalkableDecides | xlang/gate.go:128-142 | with every `oneOf` a list the check ends in one way only, by the meaning |
| ContractGate.WalkableIsSafe | xlang/gate.go:128-142 | with every `oneOf` a list no value makes the validator panic |
| ContractGate.AlternativesAnyOrder | xlang/gate.go:96-106 | permuting alternatives changes no meaning, and no outcome if every `oneOf` is a list |
| ContractGate.OrderCanMatter | xlang/gate.go:96-106 | otherwise it can: behind an alternative that takes anything a malformed one is never reached, in front of it it panics |
| ContractGate.UnnamedKeysIrrelevant | xlang/gate.go:108-126 | keys the schema never names, at any depth, change neither the meaning nor any outcome, panics included |
| ContractGate.ExtraKeysAccepted | xlang/gate.go:108-126 | in particular adding such keys keeps acceptance, rejection and panic |
| ContractGate.CheckExamples | xlang/gate.go:172-190 | the examples in turn, payload first, up to the first that does not pass: accepts when every example meets its contract, rejects when one does not, and must panic at one that is no object |
| ContractGate.CheckInverseArgs | xlang/gate.go:204-215 | likewise for the inverse arguments of every example against the input schema |
| ContractGate.RouteConform | xlang/gate.go:217-239 | the checks of one route, in the code's order, panics included |
| ContractGate.Conform | xlang/gate.go:217-239 | the routes in some order, up to the first that does not pass: accepts when every route conforms, rejects when one does not, panics where that route does |
| ContractGate.ConformingExamples | xlang/gate.go:151-239 | if the gate passes, each golden example meets its own output contract and every example of a reversible route carries arguments its inverse route accepts |
| ContractGate.ExampleReads | xlang/gate.go:172-190 | an example meets its contract when its payload meets `inp` and its result, if it says ok, meets `out` |
| ContractGate.EffectReads | xlang/gate.go:161-170 | the effect is query or command as the route contains `/query/` or not |
| ContractGate.InverseArgsReads | xlang/gate.go:192-202 | the inverse arguments stand under `inverse`, `args` of the result |
| ContractGate.ConformReads | xlang/gate.go:217-239 | what conforming is, field by field |
| ProbeInjection.TemplateMeaning | adapters/python/urirun_flow/flow_planner.py:259-266 | a URI matches a template exactly when some values for its parameters give the URI |
| ProbeInjection.ParamReads | adapters/python/urirun_flow/flow_planner.py:266 | a parameter is a text in braces |
| ProbeInjection.SegmentsRead | adapters/python/urirun_flow/flow_planner.py:254-256 | a URI is cut at its first `://`, and what follows at its slashes |
| ProbeInjection.AvailableReads | adapters/python/urirun_flow/flow_planner.py:269-275 | a URI is available when it is allowed, or when some allowed template with a brace in it can be filled in to give it |
| ProbeInjection.NeedsProbeReads | adapters/python/urirun_flow/flow_planner.py:363-378 | a jump needs a probe from a URI ending in the ensure route to one that contains a page route, is no probe itself and has the same target |
| ProbeInjection.ProbeReads | adapters/python/urirun_flow/flow_planner.py:396-403 | the probe's URI, payload, dependency and name |
| ProbeInjection.InjectCdpReadyProbes | adapters/python/urirun_flow/flow_planner.py:381-412 | the loop with its updated lists is the specification function |
| ProbeInjection.InjectSound | adapters/python/urirun_flow/flow_planner.py:381-412 | the original steps survive in order with exactly one probe where one is due, no bridgeable jump is left, and a second pass changes nothing |
| ProbeInjection.InjectFails | adapters/python/urirun_flow/flow_planner.py:396-403 | the pass fails exactly when a probe is due whose payload the route rejects |
| ProbeInjection.RewrittenBridged | adapters/python/urirun_flow/flow_planner.py:363-378 | a rewritten plan has no ensure directly before a page whose probe could be injected |
| ProbeInjection.InjectKeepsDependencies | adapters/python/urirun_flow/flow_planner.py:396-411 | dependencies that name earlier steps still do, and each page reaches its ensure through the probe and no longer directly |
| ProbeInjection.InjectKeepsDistinct | adapters/python/urirun_flow/flow_planner.py:321-327 | ids stay distinct when the steps' own are, all are registered, and no probe name is taken or altered by slugging |

## Left out

- Thin driver inputs: payload resolution with its remember enrichment, route targets and shell-output decoding are function parameters; an unresolvable payload ends the run as raised. The clock is a nondeterministic input read at the top of each turn.
- Thin driver shapes: a connector field of the wrong type (a `next` that is not an object, an inverse URI that is not text, a degraded reason that is not text) raises or is stringified in the source and reads as absent here. The verdict leaves out the copy of the envelope, and the recovery texts.
- Memory dispatch, goal and preflight handlers, known-good baselines, and the reversible process behind a proved rollback: code outside these files decides them.
- ThinInjection.InjectionPreservesVerdict: assumes that injected steps are answered without a visible change of the world and never degraded, and that the clock does not trip; without these the injected steps are of course visible.
- Building a policy, loading the registry, and sleeping between retries of the resilient runner. Skip reasons are abbreviated.
- FlowRun.Runner.Resolve: an envelope whose `error` is a non-empty text or list makes `error_category` raise in the source, which would end the run or the summary; here such an error has no category.
- FlowRun.FlowSummary: an `error` that is no object reads as without category, as above.
- FlowRun.Runner.RunFlow: loading the registry and the per-step time-out policy are absent; a connector's answer is whatever the host gives.
- FlowOrder.Flow.AddStep: the step's own field checks and the derived kind belong to building it, see `FlowDocument`; decimal printing is a parameter.
- FlowDocument: type coercions of the model library beyond the declared types, and YAML.
- EventHub: the queue size is 2000 in the class and a parameter in the interleaving machine. Time-outs, keep-alive timing and HTTP are absent.
- EventResume: publishes are serial and queues keep up, so that a connection is one pipe, as `EventPath` derives from the hub; gaps and evictions are steps of the machine.
- SseClient: number and JSON codecs are parameters; the stream theorems assume of the payloads actually on the wire that they read back, and that no proper head of one reads as JSON. Only ASCII blanks are stripped, and a stop is a bound on the number of connections.
- The initial cursor from headers: a resuming client always sends its cursor.
- Uri: strings are UTF-8 octet strings; replacement of invalid UTF-8, non-ASCII letters that fold to ASCII in a scheme, and the query dictionary are absent.
- Registry: the index is keyed by the URI itself, its hash being taken as injective; entries compare structurally; manifests and flattening are absent.
- Registry.RegistryBuilder.BuildDocument: version, time of generation and route count are absent.
- WebSocket: payloads are shorter than 2^63 octets; exclusive or is computed bit by bit; the handshake and text decoding are absent.
- CParser: null arguments and the clearing of the output struct; a C string is the characters before its NUL.
- ContractGate: error texts are a yes or no; large constants are exact instead of rounded to 64-bit floats.
- ProbeInjection: `slug`, decimal printing, route targets and schema acceptance are parameters; without plain probe names a suffixed name is not checked again and may repeat.
- Planning by language model, prompts, intent heuristics, diagnostics playbooks, SDK emitters, scaffolding, and command-line printing: no unbounded property.
