# Signal topology: a verified model

A signal topology is a set of named state machines (signals) with transitions, action
callbacks, guards, and reactions by which one signal's change of state sends an event to
another. This project models the runtime engine, the compiler from the domain description
language (DDL) to the engine's schema, composition of components and include files, and the
guard language, and proves properties of all inputs and all runs.

Verify everything with `dafny verify dfyconfig.toml`.

## How it is laid out

| files | what they hold |
|---|---|
| `Wrappers`, `Schema`, `Errors` | options and results, schemas and JSON values, errors and trace events |
| `Scheduler` | the order in which fork/join dispatch fires reactions |
| `Semantics` | the engine as functions on a machine (states, trace, calls made) |
| `Engine` | the engine as a class with its loops, proved to refine `Semantics` |
| `Attempts`, `Provenance` | what one event and one reaction do, and where everything in a run comes from |
| `Invariants`, `Replay`, `DepthLimit`, `FailureShape`, `Independence` | properties of runs |
| `Scenario` | replay of scenarios with injected failures |
| `Renaming`, `Simulation` | runs alike up to signal names |
| `Validation` | schema validation and what it makes safe |
| `Codegen`, `Lowering`, `LoweredInstances`, `Lint` | lowering of wildcards, also through components, and the unreachable-state lint |
| `Template`, `Resolution`, `Compose`, `Filling`, `Expansion`, `Instances`, `Interleaving`, `Includes` | substitution and its check, expansion, wiring, include files |
| `GuardSyntax`, `GuardParser`, `GuardPrinter`, `GuardEval`, `GuardLexer`, `Guards` | the guard language |
| `DdlSyntax`, `DdlLexer`, `DdlPositions`, `DdlGrammar`, `DdlParser`, `DdlVerbatim`, `DdlCompile`, `DdlScript`, `DdlPrinter`, `DdlUnclosed`, `DdlSpelling`, `DdlMeaning` | the DDL front end |

Three modelling choices run through it.

- A callback is an arbitrary function from the calls made so far and its own context to
  success or an error. That is a hidden world that only calls change; callbacks see nothing
  of the engine, as in the source.
- Recursion is bounded by the engine's own depth limit: `fuel` in `Semantics` is the
  remaining depth plus one, and no other bound is added.
- Error texts are symbolic: `Display(e)` stands for the text of error `e`.

## Where the code differs from what one might expect

- An action that is not registered leaves `ActionStarted` without `ActionFailed`
  (src/engine.rs:216-223); the model and `FailureShape` include this case.
- A failing compensation is ignored and never replaces the error (src/engine.rs:526-535), but
  it does leave its own `ActionFailed`, after the failure it compensates.
- Unary minus is unchecked: negating the least 64-bit integer gives itself in a build
  without overflow checks, which is modelled, and panics in one with them
  (src/guard/eval.rs:48). `GuardEval.ExactIffNoWrap` shows that this is the only inexactness.
- Division of the least integer by -1 is reported as a division by zero
  (src/guard/eval.rs:79); the model keeps errors of arithmetic as the source has them.
- Ports are documented as wired to a parent-level signal (src/schema.rs:91-100). A connection to
  a signal the schema declares always makes expansion fail (`Compose.WiringToDeclaredFails`):
  the renamed signal is a duplicate. A wire can only pick a new name.
- `resolve` looks at the first leftover hole only (src/compose.rs:390);
  `Resolution.ChecksEveryHoleIff` gives exactly the bindings for which that is enough.
- Including a file twice is reported as a cycle even where there is none
  (src/compose.rs:137-139), and the instances of an included file are dropped
  (src/compose.rs:162-182).
- The lint skips `* -> *` as a self-loop although it can enter a state named `*`
  (src/check.rs:116-118); `Lint.ReportIsRightIff` says exactly when a report is wrong for this,
  and that it is never wrong otherwise.
- The DDL lexer does not advance the column over comments, so the end marker's column is off
  after a comment without a newline, and its `start` counts characters, not bytes
  (src/ddl/lexer.rs:54-59, src/ddl/lexer.rs:306).
- A DDL guard ends only at `{`, `}`, `with`, `on_fail` or the end of the text, so a guarded
  transition without an action block takes in the transitions after it
  (src/ddl/parser.rs:572, src/ddl/parser.rs:1034). `DdlUnclosed.SheetReadsIff` states exactly
  which signals lose transitions by this. Likewise a guarded reaction takes in those after it
  in a fork or join block, contrary to the comment at src/ddl/parser.rs:657-661
  (`DdlUnclosed.RulesReadIff`).
- The name in `instantiate c as name` is read and dropped (src/ddl/parser.rs:931).
- A scenario replay registers the actions of transitions only (src/run.rs:46-53), so an
  `on_fail` action that no transition uses never runs in it
  (`Scenario.UnlistedCompensationNeverRuns`).
- `state_after` of a scenario's error is described as the state rolled back to
  (src/run.rs:118-121). It is the state that the signal's last recorded change in this event
  entered (`Scenario.StateReported`). Where no cascade comes back to the signal, that is the state
  before the event exactly if the event's own transition fails or leads from a state to itself
  (`Scenario.StateAfterIff`): otherwise the transition stays committed though a reaction fails.
  A cascade that does come back can restore the state (`Scenario.ReturningCascadeRestores`).
- A join on a fork block without reactions is accepted and never fires: its group has no
  matched member.

## Model

| member | source | states |
|---|---|---|
| Scheduler.ScheduleIsJoinSafe | src/engine.rs:566-628 | At every point of a dispatch a reaction fires only when every group it waits on has a matched member and all its matched members have fired before |
| Scheduler.ScheduleIsComplete | src/engine.rs:597-625 | Nothing that could still fire is left: the fired reactions are closed under "no `requires`, or every required group has matched members and all of them fired" |
| Scheduler.ScheduleIsSound | src/engine.rs:597-625 | The fired reactions are contained in every closed set, so with the row above they are exactly the least fixpoint |
| Scheduler.ScheduleMultiplicity | src/engine.rs:566-628 | A matched reaction fires exactly as often as it was matched, or never; nothing else fires |
| Scheduler.ScheduleEnd | src/engine.rs:597-627 | The loop stops with an empty ready queue and an accounting of fired and waiting reactions, groups and group counters that covers every matched reaction |
| Scheduler.WaitingNeverFired | src/engine.rs:595-625 | What remains in `waiting` at the end never fired |
| Scheduler.UnfiredIffStuck | src/engine.rs:566-628 | Exactly which matched reactions never fire: those from which a chain of reactions, each waiting on a group of the next, ends at one that needs a group without matched members or comes back into the chain |
| Scheduler.WaitingIffStuck | src/engine.rs:595-625 | What is left in `waiting` when the loop stops is exactly those: the unsatisfiable and the cyclic joins |
| Scheduler.CompletedIsDone | src/engine.rs:609-613 | As soon as all matched members of a group have fired, the group is marked done |
| Scheduler.CompletedGroup | src/engine.rs:609-613 | Conversely a group marked done has matched members, and all have fired |
| Scheduler.StepTally | src/engine.rs:594-613 | One firing keeps the group counters equal to the fired members of each group |
| Scheduler.StepShrinks | src/engine.rs:597-625 | Each firing takes one reaction out of `ready` and `waiting` together: the measure by which the loop ends |
| Scheduler.ScheduleStartsWithRoots | src/engine.rs:584-592 | All reactions without `requires` fire first, in source order |
| Scheduler.ScheduleWithoutJoins | src/engine.rs:563-565 | Without joins the dispatch is the plain loop over the matched reactions |
| Scheduler.ScheduleLength | src/engine.rs:566-628 | A dispatch fires at most as many reactions as matched |
| Scheduler.OrderSwap | src/engine.rs:597-625 | Two neighbours of one group in the queue can be swapped there: the dispatch order changes at those two places only |
| Scheduler.ScheduleSwap | src/engine.rs:566-628 | Swapping two adjacent members of a fork in the source swaps exactly them in the dispatch, joins included |
| Engine.TopologyEngine.constructor | src/engine.rs:98-117 | A new engine has the schema's initial states, no actions, an empty trace and depth limit 8 |
| Engine.TopologyEngine.FromSchema | src/engine.rs:90-118 | An engine is built exactly when expansion succeeds and the flat schema is well-formed; otherwise the error is that of expansion or validation |
| Engine.TopologyEngine.RegisterAction | src/engine.rs:192-198 | Adds or replaces one callback and changes nothing else |
| Engine.TopologyEngine.SetMaxCascadeDepth | src/engine.rs:205-207 | Changes the limit and nothing else |
| Engine.TopologyEngine.GetState | src/engine.rs:630-640 | The signal's current state, or `SignalNotFound` |
| Engine.TopologyEngine.RunAction | src/engine.rs:209-243 | The engine's new state, trace, call history and result are those of the specification; an unregistered action leaves a start without a failure |
| Engine.TopologyEngine.FindTransition | src/engine.rs:295-306 | The first transition in source order that matches the signal, the event and the current state or `*` |
| Engine.TopologyEngine.MatchingReactions | src/engine.rs:428-436 | The matching reactions in source order |
| Engine.TopologyEngine.AttemptTransition | src/engine.rs:283-418 | Guard, three action phases, tentative commit and rollback refine the specified transition |
| Engine.TopologyEngine.RunTransition | src/engine.rs:334-411 | Runs the phases of a transition, commits or rolls back, and records which |
| Engine.TopologyEngine.RunEntryPhases | src/engine.rs:358-388 | The two phases after the tentative commit stop at the first failing action, the second not running if the first fails |
| Engine.TopologyEngine.FireOneReaction | src/engine.rs:447-551 | Guard gate, cascade one level deeper and best-effort compensation refine the specified firing |
| Engine.TopologyEngine.DispatchReactions | src/engine.rs:566-628 | The queue, the counters and the waiting list, updated in place, fire exactly the specified schedule and stop at the first error |
| Engine.TopologyEngine.SplitReactions | src/engine.rs:584-592 | Ready and waiting lists partition the matched reactions in source order |
| Engine.TopologyEngine.Release | src/engine.rs:614-622 | The satisfied waiting reactions move to the queue in order; the others stay |
| Engine.TopologyEngine.CountGroups | src/engine.rs:575-580 | The group totals are the numbers of matched members |
| Engine.TopologyEngine.SendEventInternal | src/engine.rs:266-441 | A send at a given depth yields the states, trace, calls and outcome of the specification with the remaining depth; its termination measure is remaining depth, then the queue |
| Engine.TopologyEngine.SendEvent | src/engine.rs:254-264 | The same for an event from outside |
| Attempts.GuardDecides | src/engine.rs:321-331 | A guard false of the event's payload blocks it, and one that cannot be evaluated fails it, exactly so; nothing but the received event is recorded then, no state changes and no action is called |
| Attempts.GuardStops | src/engine.rs:254-331 | So for a whole event of a caller |
| Attempts.NothingMatches | src/engine.rs:290-306 | An event to an unknown signal, or that no transition matches, is recorded, fails, and does nothing else |
| Attempts.ActionsRun | src/engine.rs:209-243 | Actions run in order up to the first that does not succeed; those before it are listed as executed, recorded and called; that one is reported with the text of its callback's error, or as missing |
| Attempts.PhasesInOrder | src/engine.rs:334-411 | A transition runs its `on_exit`, `on_transition` and `on_enter` actions in this order with the signal, states, event and payload of the event; it is committed if all succeed, else left as it was, with a rollback recorded exactly if the state had been left |
| Attempts.CommitsIff | src/engine.rs:321-411 | An event's own transition succeeds exactly if its guard is true of the payload and every action's callback succeeds in turn |
| Attempts.FiringMeans | src/engine.rs:447-551 | A reaction is guarded on the payload of the event that moved its cause; if this does not hold nothing is sent; else its event is sent to its target with its own payload, which is the next record; if that fails, `on_fail` is called with the target, its state, the cause's payload and the error |
| Provenance.SessionIsAccounted | src/engine.rs:254-551 | In every session: a change of state, rollback or action comes from the event under way, which selects a transition with these states, whose guard is true of that event's payload; a call is given that same event and payload; an event received is an input's or a triggered reaction's with its static payload, right after a guard recorded as true; a recorded guard outcome is that on the payload of the event that moved the cause |
| Provenance.DeliverAccounted | src/engine.rs:254-264 | An event of a caller is recorded first, with its own payload, and all that follows is accounted for so |
| Provenance.SendGrows | src/engine.rs:266-441 | So at every depth of a cascade |
| Scenario.CollectActionIds | src/run.rs:46-53 | Exactly the actions of the transitions are collected |
| Scenario.RegisterActions | src/run.rs:63-87 | Every collected action gets its callback, and no other changes |
| Scenario.RunScenario | src/run.rs:132-161 | The loop over the events, adding and taking out the names to fail, ends in the specified machine, list of errors and set of names |
| Scenario.InjectionIsScoped | src/run.rs:31-36 | Started from an empty set, each event runs with exactly the failures it names, whatever the events before it named, and the set is empty at the end |
| Scenario.LeftoverFails | src/run.rs:138-159 | A name that was in the set before is taken out by the first event that names it, and stays otherwise |
| Scenario.PlainScenarioIsSession | src/run.rs:132-161 | A scenario without injected failures is a session of `send_event`, and lists no error exactly if none of its events fails |
| Scenario.RunsAsInjected | src/run.rs:69-87 | At any depth of a cascade, a recorded action fails if and only if it is to fail |
| Scenario.SendFinds | src/run.rs:46-53 | No event fails for want of an action when the actions of all transitions are registered |
| Scenario.FailsByInjection | src/run.rs:69-87 | If an event fails by an action, that action was to fail, and no action is missing |
| Scenario.ErrorsAreInjected | src/run.rs:132-161 | Every error a replay lists comes from an event of the scenario, and an action's error names an action that this event itself made fail |
| Scenario.UnlistedCompensationNeverRuns | src/run.rs:46-53 | An `on_fail` action that no transition uses never runs in a replay: it is not collected |
| Scenario.StateReported | src/run.rs:142-154 | The state reported is always the one that the last change recorded for the signal in this event entered, or the one before if none is recorded: so it is the one before exactly if that change leads back to it, or there is none |
| Scenario.ErrorReported | src/run.rs:142-154 | What is listed for an event: nothing if it succeeds, else its signal, event and error, and the state that the last recorded change of its signal entered |
| Scenario.ErrorsInOrder | src/run.rs:132-161 | The list holds what each event reports in the machine that those before it left, in order |
| Scenario.OwnFailureRollsBack | src/run.rs:118-121 | If the event's own transition fails, every signal is in the state it was in before |
| Scenario.StateAfterIff | src/run.rs:118-121 | Exactly when the state reported for a failed event is the one before it, for signals to which no cascade of theirs comes back: if the own transition failed, or leads from a state to itself |
| Scenario.CascadeFailureStaysCommitted | src/engine.rs:428-438 | A transition whose cascades do not come back to its signal stays committed, whatever becomes of them |
| Scenario.ReturningCascadeRestores | src/run.rs:118-121 | The proviso is needed: a cascade that takes its signal back and then fails elsewhere, after which the state before is reported although the own transition succeeded |
| Invariants.ActionsIgnoreStates | src/engine.rs:209-243 | Actions and callbacks change no signal state |
| Invariants.FindMatches | src/engine.rs:295-306 | The transition found is declared, and matches signal, event and current state |
| Invariants.MatchingReacts | src/engine.rs:428-436 | A reaction matches exactly if it is declared, for this signal, and for the state entered or `*` |
| Invariants.MatchingInOrder | src/engine.rs:428-436 | They match in the order in which they are declared |
| Invariants.SendKeeps | src/engine.rs:266-441 | Induction over whole runs: what every single step (record, call, commit, rollback) keeps, every send keeps, at any depth and for any outcome |
| Invariants.SessionKeeps | src/engine.rs:254-264 | The same for every sequence of events |
| Replay.MicroContinues | src/engine.rs:347-411 | Every single step keeps the trace replayable |
| Replay.SessionContinues | src/engine.rs:347-411 | After any events, failing or not, the states equal the old ones updated by the `StateChanged` records in order, each record starts from the replayed state, and each rollback returns to it |
| DepthLimit.SendMonotone | src/engine.rs:279-281 | A send not cut off by the limit is the same under every larger limit: outcome, states, trace and calls |
| DepthLimit.SessionMonotone | src/engine.rs:279-281 | The same for whole event sequences |
| DepthLimit.AcyclicNeverExceeds | src/engine.rs:266-281 | If reactions always lead down a ranking of the signals, a limit of at least the rank is never exceeded |
| DepthLimit.AttemptNeverExceeds | src/engine.rs:224-236 | No callback can fake the limit error |
| DepthLimit.SendWork | src/engine.rs:266-288 | With R reactions and limit D an event records at most 1 + R + ... + R^D received events |
| FailureShape.SendClean | src/engine.rs:390-403 | A send that succeeds appends no failed action, rollback or compensation |
| FailureShape.SendFails | src/engine.rs:510-548 | A send that fails appends a clean part, one failure at the end of a chain of reactions, and the compensations of that chain |
| FailureShape.WrapFailure | src/engine.rs:510-548 | One enclosing reaction extends the chain and adds its compensation after those inside it |
| FailureShape.FailingRun | src/engine.rs:390-548 | A failing event leaves a clean trace, one failure, at most one rollback and then only compensations, one per enclosing reaction with `on_fail`, innermost first, all with the error returned; no state changes after the clean part |
| FailureShape.SucceedingRun | src/engine.rs:390-411 | A successful event records no failed action, no rollback and no compensation |
| Renaming.RenSchedule | src/engine.rs:566-628 | Dispatch order does not depend on signal names |
| Renaming.SameTrace | src/engine.rs:266-441 | Renaming by the identity changes no trace |
| Simulation.TransitShows | src/engine.rs:334-411 | One transition runs alike under renamed signals |
| Simulation.CompensateShows | src/engine.rs:510-547 | One compensation runs alike under renamed signals |
| Simulation.SendShows | src/engine.rs:266-441 | Equivariance: if two environments select the same moves and reactions up to a renaming that is injective on the signals concerned, and actions answer alike, a send runs alike up to the renaming: states, trace, calls and outcome |
| Simulation.SessionShows | src/engine.rs:254-264 | The same for whole event sequences |
| Validation.Validate | src/engine.rs:125-184 | Accepts exactly the well-formed schemas, and otherwise names the first fault in the source's order, everything before it being in order |
| Validation.InitialStatesOf | src/engine.rs:98-108 | A new engine has exactly the declared signals, each in its initial state |
| Validation.SessionsStayHoused | src/engine.rs:125-184 | An engine built from a valid schema keeps every signal in one of its declared states, whatever callbacks, guards, limit and events |
| Codegen.EmitTransition | src/ddl/codegen.rs:117-152 | For `from *` one transition for each state, in order, else one; each with the declaration's signal, event, target, guard and lists of actions |
| Codegen.LowerTransitionMeans | src/ddl/codegen.rs:117-152 | The same of the specified list, field by field |
| Codegen.EmitReactionMeans | src/ddl/codegen.rs:154-178 | A reaction is emitted with every field as declared and the value of its payload text, and fails exactly on a payload that is not JSON |
| Codegen.EmitReactionsMean | src/ddl/codegen.rs:23-74 | Reactions are emitted one by one and in order, exactly if all can be |
| Codegen.FirstBadReaction | src/ddl/codegen.rs:23-74 | Otherwise the error is that of the first that cannot |
| Codegen.EmitSignals | src/ddl/codegen.rs:79-102 | Signals in order, and their lowered transitions concatenated |
| Codegen.EmitSchema | src/ddl/codegen.rs:23-74 | The schema of a whole document, components by name, or the first bad payload |
| Lowering.FindAlike | src/ddl/codegen.rs:117-152 | In every declared state the lowered list and the list with literal `*` select the same move |
| Lowering.LoweredSpreads | src/ddl/codegen.rs:79-152 | The emitted list is the declared one, each `*` spread over the states of its signal, in order |
| Lowering.LoweredValid | src/ddl/codegen.rs:117-152 | The lowered transitions are valid exactly when each declared one fits its own signal |
| Lowering.ValidTogether | src/ddl/codegen.rs:79-152 | Validation accepts the lowered schema exactly when it accepts the plain one |
| Lowering.FormsCorrespond | src/ddl/codegen.rs:79-152 | The two forms make the same moves and reactions in every declared state |
| Lowering.FormsRunAlike | src/ddl/codegen.rs:117-152 | Any two schemas that differ only in how transitions from `*` are written run alike: outcomes, states, trace and calls of every event sequence |
| Lowering.LoweringPreservesSessions | src/ddl/codegen.rs:79-152 | Wildcard lowering preserves meaning: for every event sequence both engines give the same outcomes, states, trace and calls |
| LoweredInstances.FormsExpandAlike | src/compose.rs:23-86 | Lowering and expansion commute: components lowered before expansion give the same error, or the same flat schema up to how transitions from `*` are written |
| LoweredInstances.FlattenedForms | src/ddl/mod.rs:109-119 | So a document with components and instances compiles exactly when its form with literal `*` expands, with the same error if not, and both are valid together |
| LoweredInstances.CompiledRunsAsWritten | src/ddl/mod.rs:109-119 | Whatever text compiles, instances of lowered components included, runs as the schema that keeps every `*`: same outcomes, states, trace and calls of every event sequence |
| Lint.CheckSchema | src/check.rs:88-135 | The warnings are the self-loops, then the unreachable states, in order |
| Lint.ReportedMeans | src/check.rs:105-132 | A state is reported exactly when it is neither initial nor the target of a transition from another state |
| Lint.LoopsInOrder | src/check.rs:88-99 | Each self-loop is reported, with its signal and states, and nothing else, in order |
| Lint.DeadInOrder | src/check.rs:122-132 | The unreachable states of a signal are reported one by one, in order |
| Lint.NeverEnteredIff | src/engine.rs:295-306 | Exactly which states are never entered, in any session and under any callbacks, guards and limit: those to which no events lead by first matches from the initial state |
| Lint.ReportIsRightIff | src/check.rs:105-132 | Exactly when a report is right: always, except for a state named `*` when events lead its signal to where a `* -> *` is selected |
| Lint.UnreachableIsNeverEntered | src/check.rs:105-132 | A reported state is never current, committed or tentative, in any run of a new engine; for a state named `*` only if its signal has no `* -> *` |
| Lint.WildcardLoopIsMissed | src/check.rs:116-118 | A `* -> *` that is selected wherever events can lead: state `*` is reported and yet entered |
| Lint.PlainWildcardLoopIsTaken | src/check.rs:116-118 | One without guard and actions, first in the initial state, is taken under all callbacks, guards and limits |
| Independence.ReachIsConfined | src/engine.rs:428-438 | The signals reachable from one are closed under cascades |
| Independence.SendWritesWithinReach | src/engine.rs:428-438 | A send changes, records and calls for only signals reachable from its own |
| Independence.SendReadsWithinReach | src/engine.rs:428-438 | A send depends only on the reachable signals: from machines that agree on them, with callbacks that answer alike after the calls made in either, it has the same outcome and new trace and ends in agreement |
| Independence.SameHistoryReadsWithinReach | src/engine.rs:428-438 | So with any callbacks, after the same calls |
| Independence.StatelessReadsWithinReach | src/engine.rs:428-438 | And with stateless callbacks, after any calls |
| Independence.BranchesCommute | src/engine.rs:566-628 | Two branches over disjoint reachable sets that succeed in one order succeed in the other, in the same states |
| Independence.AdjacentBranchesSwap | src/engine.rs:566-628 | The same in the middle of a dispatch, whatever fires after |
| Independence.ForkBranchesCommute | src/engine.rs:566-628 | The source order of two adjacent fork members does not matter to the whole dispatch, joins included |
| Template.Subst | src/compose.rs:348-374 | The loop renders the left-to-right decomposition of the text into literals and holes |
| Template.SubstFirst | src/compose.rs:348-374 | One round of the loop, for the first hole |
| Template.RenderNothing | src/compose.rs:348-374 | Substituting nothing changes nothing |
| Template.ParseIsCanonical | src/compose.rs:348-374 | The decomposition takes the first opening and the first closing after it, every time |
| Template.ParseRender | src/compose.rs:348-374 | Such decompositions are recovered from their text, so each text has exactly one |
| Template.SubstFills | src/compose.rs:348-374 | With inert values, substituting fills exactly the bound holes and makes no new ones |
| Template.SubstInStages | src/compose.rs:348-374 | With inert values for disjoint names, substituting in two stages is substituting at once |
| Template.InertIffStageable | src/compose.rs:348-374 | Exactly which values are safe: for any other value there is a text on which two stages and one differ |
| Resolution.ResolveIff | src/compose.rs:383-399 | With inert values for the parameters that a hole can name, `resolve` succeeds exactly when every hole names a parameter, and else names the first that does not |
| Resolution.ChecksEveryHoleIff | src/compose.rs:383-399 | Exactly which bindings `resolve` can be relied on for: success means that every hole names a parameter, for every text, if and only if every value that can be substituted is inert |
| Resolution.NotInertIsFooled | src/compose.rs:390-397 | For any other binding there is a text on which the check is wrong |
| Resolution.ResolveMissesLaterHoles | src/compose.rs:390-397 | A value that is its own hole hides every unknown name after it |
| Compose.CheckBindings | src/compose.rs:188-202 | The loop binds the parameters in order and stops at the first missing one |
| Compose.BindMeans | src/compose.rs:188-202 | Binding succeeds exactly when every parameter is supplied, and binds the parameters alone |
| Compose.ResolveConnections | src/compose.rs:216-272 | The loop over the connections yields the specified wires or the first error |
| Compose.WiresHonour | src/compose.rs:229-271 | When wires resolve, each connection's port exists and its signal goes to the connection's target, and only connections wire |
| Compose.ExpandInstance | src/compose.rs:35-73 | One instance contributes its component, filled in and rewired, or the first error |
| Compose.EnforceUnique | src/compose.rs:422-430 | The first id that occurs twice |
| Compose.DuplicateMeans | src/compose.rs:422-430 | No duplicate is reported exactly when all ids are distinct |
| Compose.Expand | src/compose.rs:23-86 | The whole expansion is the specified one |
| Compose.ExpansionRenamesInjectively | src/compose.rs:43-75 | When expansion succeeds, each instance's wires rename its signals injectively and away from every other signal |
| Compose.WiringToDeclaredFails | src/compose.rs:43-75 | If any connection of any instance leads to a signal that the schema declares, expansion fails |
| Filling.TransitionExpands | src/compose.rs:298-320 | Every field of an expanded transition is the same field filled in: signal, states, event, each list of actions by itself, and the guard if there is one |
| Filling.ReactionExpands | src/compose.rs:322-340 | Of a reaction the signals, state and event are filled in, and payload, guard, groups and compensation kept |
| Filling.ComponentExpands | src/compose.rs:43-75 | Signals, transitions and reactions of a part are those of the component, one by one and in order, filled in |
| Filling.InstanceIsFilledIn | src/compose.rs:35-75 | What an instance adds is its component filled in with its values and its wires followed, field by field |
| Filling.FlatInOrder | src/compose.rs:23-86 | The flat schema has the schema's own definitions first, then those of its instances in order, and no components, instances and includes |
| Filling.HoleFreeExpandsToItself | src/compose.rs:284-320 | A component in which nothing is to be filled in expands to itself |
| Filling.PortFound | src/compose.rs:276-282 | The port found is the first that goes by the name: its alias, or else its signal and state |
| Filling.OneWire | src/compose.rs:231-268 | Exactly when one connection can be made, what it wires, and by which error it fails otherwise |
| Filling.WiresIff | src/compose.rs:216-272 | Exactly when all can: each port is there with a signal and state of the component, and none wires a signal to two targets |
| Filling.FirstMissing | src/compose.rs:188-202 | The parameter reported as missing is the first that is |
| Filling.FirstDuplicate | src/compose.rs:422-430 | The id reported as a duplicate is the first that occurred before |
| Instances.PlacedCorresponds | src/compose.rs:49-72 | In the flat schema the instance's signals have the moves and reactions of the component, renamed |
| Instances.WiredInstanceRunsAsComponent | src/compose.rs:43-75 | A closed instance runs as its component up to names: outcomes, states, trace and calls of every event sequence |
| Interleaving.InterleavedInstanceRunsAsComponent | src/compose.rs:43-75 | So it does in a session in which events to other signals, whose cascades do not come to it, lie between its own, for callbacks that remember no calls but its own: same outcomes, states at the end, trace and calls, those of other signals left out |
| Interleaving.MemorylessAreSeparate | src/compose.rs:43-75 | Callbacks without memory are such callbacks |
| Expansion.TransitionStaysOk | src/compose.rs:284-320 | Filling in parameters keeps a transition attached to its signal and states |
| Expansion.ComponentStaysFit | src/compose.rs:284-320 | A fit component stays fit when filled in |
| Expansion.ExpansionStaysFit | src/compose.rs:23-86 | Whatever expansion succeeds in from fit signals and fit components has distinct signals, initial states among their states and valid transitions: validation can object to its reactions only |
| Includes.MergeIn | src/compose.rs:162-182 | Appends signals, transitions and reactions, lets later components win, drops instances, and fails on a shared signal id |
| Includes.LoadTopologyInner | src/compose.rs:120-157 | The recursion over a mutable visited set refines the specified load, with the unseen files as its measure |
| Includes.LoadTopology | src/compose.rs:100-107 | Loading, then one expansion |
| Includes.WholeIsPreorder | src/compose.rs:144-154 | The merged schema is the preorder concatenation of the files, and keeps the root's instances only |
| Includes.LastComponentWins | src/compose.rs:172-179 | Of a component that several files declare, the one of the last file in preorder is kept |
| Includes.TreeLoads | src/compose.rs:120-182 | A tree of readable, pairwise different files without shared signals loads, to its merge |
| Includes.LoadedIsTree | src/compose.rs:120-182 | Whatever loads is such a tree |
| Includes.LoadIff | src/compose.rs:120-182 | Loading succeeds exactly when the includes unfold to a tree that visits each file once and shares no signal id, and yields its merge and its files |
| Includes.CyclesFail | src/compose.rs:137-139 | Any chain of includes that comes back to a file makes loading fail |
| Includes.LoadFails | src/compose.rs:120-182 | Loading fails only for a path without a readable file, a file seen before, or a signal that two files declare |
| GuardParser.Parser.Advance | src/guard/parser.rs:27-33 | Moves on, never past the last token |
| GuardParser.Parser.Expect | src/guard/parser.rs:39-46 | Consumes the given token or reports the one found |
| GuardParser.Parser.ParseOr | src/guard/parser.rs:48-60 | Returns the expression, or the error, of the grammar at its level, and consumes exactly its tokens |
| GuardParser.Parser.ParseAnd | src/guard/parser.rs:62-74 | Returns the expression, or the error, of the grammar at its level, and consumes exactly its tokens |
| GuardParser.Parser.ParseComparison | src/guard/parser.rs:76-94 | Returns the expression, or the error, of the grammar at its level, and consumes exactly its tokens |
| GuardParser.Parser.ParseAddition | src/guard/parser.rs:96-113 | Returns the expression, or the error, of the grammar at its level, and consumes exactly its tokens |
| GuardParser.Parser.ParseMultiplication | src/guard/parser.rs:115-132 | Returns the expression, or the error, of the grammar at its level, and consumes exactly its tokens |
| GuardParser.Parser.ParseUnary | src/guard/parser.rs:134-152 | Returns the expression, or the error, of the grammar at its level, and consumes exactly its tokens |
| GuardParser.Parser.ParsePrimaryExpr | src/guard/parser.rs:154-207 | Returns the expression, or the error, of the grammar at its level, and consumes exactly its tokens |
| GuardParser.ParseGuard | src/guard/parser.rs:4-16 | A whole token list is parsed, and nothing may follow the expression |
| GuardPrinter.PrintParses | src/guard/parser.rs:48-207 | An expression printed with minimal parentheses is read back at every level of the grammar, whatever follows that does not continue it |
| GuardPrinter.RoundTrip | src/guard/parser.rs:4-16 | The round trip for every expression with non-empty payload paths |
| GuardPrinter.ParsedIsPrintable | src/guard/parser.rs:154-207 | Everything the parser returns can be printed |
| GuardPrinter.PrintIsNormalForm | src/guard/parser.rs:4-16 | Printing a parsed guard gives a token list with the same parse |
| GuardEval.AccessPayload | src/guard/eval.rs:109-120 | The loop follows the path through objects; a missing field or a non-object gives null |
| GuardEval.EvalIsExact | src/guard/eval.rs:43-104 | On the float-free fragment, when no negation wraps, evaluation succeeds exactly when every subterm has a meaning in range, even under a decided `and` or `or`, and then gives that meaning: arithmetic and order of the integers, the order of strings, equality of values, truth of each type, fields of the payload |
| GuardEval.CombineIsExact | src/guard/eval.rs:54-190 | Each operator makes of two values what it means: null is never ordered, values of two types never equal |
| GuardEval.ComparedStrings | src/guard/eval.rs:175-190 | Comparing strings finds which is a proper prefix of the other or smaller at the first difference |
| GuardEval.StringsAreOrdered | src/guard/eval.rs:175-190 | Of two different strings exactly one comes before the other, and none before itself |
| GuardEval.PrecedesInTurn | src/guard/eval.rs:175-190 | The order of strings is transitive |
| GuardEval.AtMeans | src/guard/eval.rs:109-138 | The value found at a path is that of the JSON to which its fields lead, if a guard can read that |
| GuardEval.DescendReaches | src/guard/eval.rs:109-120 | Fields that are all there lead to the last of them |
| GuardEval.DescendMisses | src/guard/eval.rs:109-120 | From the first field on that is missing, or asked of no object, the path is null |
| GuardEval.FloatsCombine | src/guard/eval.rs:150-206 | Where a float is involved both numbers are taken as floats, and the machine's operation of the same name decides |
| GuardEval.CombineFails | src/guard/eval.rs:55-104 | By which error each operator fails; a division by zero is reported for a zero divisor or the one quotient that overflows |
| GuardEval.ExactIffNoWrap | src/guard/eval.rs:43-104 | Exactly which guards are exact in all their parts: those with no negation whose operand means, within range throughout, the least integer |
| GuardEval.QuotientTruncates | src/guard/eval.rs:76-79 | Division truncates toward zero: the remainder is smaller than the divisor and has the dividend's sign |
| GuardEval.NegatingMinIsInexact | src/guard/eval.rs:48-48 | Such a negation gives the least integer itself |
| GuardEval.LeastIntegerWraps | src/guard/eval.rs:48-48 | `-(-9223372036854775807 - 1)` is one |
| GuardLexer.ScanString | src/guard/lexer.rs:3-116 | The scanning loop for strings finds the specified token or error |
| GuardLexer.ScanNumber | src/guard/lexer.rs:3-116 | The same for numbers, one decimal point at most |
| GuardLexer.ScanWord | src/guard/lexer.rs:3-116 | The same for names and keywords |
| GuardLexer.Tokenize | src/guard/lexer.rs:3-116 | The loop over the text finds the specified tokens |
| GuardLexer.LexEnds | src/guard/lexer.rs:3-116 | The end marker is last and nowhere else |
| GuardLexer.DecimalReads | src/guard/lexer.rs:3-116 | Decimal notation is read back |
| GuardLexer.TokenReads | src/guard/lexer.rs:3-116 | Each spelled token is read back before a blank |
| GuardLexer.TokenShows | src/guard/lexer.rs:3-116 | Whatever the text, a token is what its characters spell, quote or denote, and ends where they do |
| GuardLexer.FlawShows | src/guard/lexer.rs:3-116 | What each lexical error says of the characters it is raised at |
| GuardLexer.LexReadsSpelling | src/guard/lexer.rs:3-116 | The spelling of any printable token list is read back |
| Guards.EvalGuard | src/guard/eval.rs:14-28 | Lexing, parsing and evaluating a guard text, and the truth of its value |
| Guards.WrittenGuardDecides | src/guard/eval.rs:14-28 | The text written for an expression decides as the expression does, for every payload |
| Guards.WrittenGuardMeans | src/guard/eval.rs:14-28 | What a written guard decides is whether its meaning counts as true; it fails exactly if a part has no meaning in range |
| DdlLexer.BytePositions | src/ddl/lexer.rs:37-46 | The byte offset of every character and of the end |
| DdlLexer.ScanString | src/ddl/lexer.rs:82-117 | The scanning loop finds the specified string, or that it does not end on its line |
| DdlLexer.ScanWord | src/ddl/lexer.rs:169-216 | The scanning loop finds the specified name or keyword |
| DdlLexer.SkipComment | src/ddl/lexer.rs:54-59 | A comment ends before its line does |
| DdlLexer.Tokenize | src/ddl/lexer.rs:31-310 | The loop over index, line and column yields the specified tokens with their positions, or the first error |
| DdlPositions.FirstAlone | src/ddl/lexer.rs:82-299 | The text of a token has no newline and reads as the same token by itself |
| DdlPositions.TokensTileTheText | src/ddl/lexer.rs:31-310 | The text is tokens with only blanks, newlines and comments between them; each token has the bytes, line and column of its characters; only the end marker's column can be off, by the length of a comment that the text ends in |
| DdlPositions.RangesAscend | src/ddl/lexer.rs:31-310 | Tokens come in order and do not overlap |
| DdlPositions.TokensAscend | src/ddl/lexer.rs:31-310 | Nor do their bytes |
| DdlPositions.OneEnd | src/ddl/lexer.rs:301-309 | The end marker is last and nowhere else |
| DdlPositions.CharactersAsBytes | src/ddl/lexer.rs:306-306 | The end marker's start, a number of characters, is the number of bytes exactly for ASCII texts |
| DdlPositions.SliceOfTokens | src/ddl/lexer.rs:33-46 | Cutting the text at tokens' bytes gives the characters from the first through the last |
| DdlPositions.FlawIsLocated | src/ddl/lexer.rs:31-310 | A lexical error is reported at the line and column of a character where no token can be read |
| DdlVerbatim.GuardIsVerbatim | src/ddl/parser.rs:549-584 | A captured guard is the text from its first token through the last before `{`, `}`, `with`, `on_fail` or the end, unchanged by trimming; a guard of one identifier is that name |
| DdlParser.Parser.Advance | src/ddl/parser.rs:229-235 | Moves on, never past the last token |
| DdlParser.Parser.Eat | src/ddl/parser.rs:237-249 | Consumes a token of the given kind or reports the one found, at its place |
| DdlParser.Parser.ParseIdent | src/ddl/parser.rs:251-263 | Consumes an identifier or reports the token found |
| DdlParser.Parser.ParseStateList | src/ddl/parser.rs:460-479 | Names between brackets, a trailing comma allowed |
| DdlParser.Parser.ParseMoreNames | src/ddl/parser.rs:467-476 | The loop over further names follows the grammar |
| DdlParser.Parser.ParseTransition | src/ddl/parser.rs:481-544 | Returns the grammar's transition or error, consuming exactly its tokens |
| DdlParser.Parser.SkipGuard | src/ddl/parser.rs:567-577 | Moves to the first token that ends a guard |
| DdlParser.Parser.ParseGuardText | src/ddl/parser.rs:1013-1055 | The text of a guard, and whether it is one identifier |
| DdlParser.Parser.ParseHooks | src/ddl/parser.rs:586-647 | Each lifecycle hook at most once, in any order |
| DdlParser.Parser.ParseSignal | src/ddl/parser.rs:415-458 | Returns the grammar's signal or error, consuming exactly its tokens |
| DdlParser.Parser.IsAtReactionHead | src/ddl/parser.rs:662-666 | A `when` with a name and `enters` after it opens the next reaction |
| DdlParser.Parser.ParseReactionBody | src/ddl/parser.rs:672-733 | Returns the grammar's reaction or error |
| DdlParser.Parser.ParseForkBlock | src/ddl/parser.rs:739-755 | Every reaction of the block is in the group named after the counter |
| DdlParser.Parser.ParseJoinBlock | src/ddl/parser.rs:761-777 | Every reaction of the block waits on the named group |
| DdlParser.Parser.SkipBlock | src/ddl/parser.rs:1066-1086 | The loop with its depth counter finds the matching brace |
| DdlParser.Parser.ParseBraceBlock | src/ddl/parser.rs:1062-1087 | The text of a block in braces |
| DdlParser.Parser.ParseGuard | src/ddl/parser.rs:782-806 | A guard declaration with a new name |
| DdlParser.Parser.ParseComponent | src/ddl/parser.rs:811-881 | Returns the grammar's component or error |
| DdlParser.Parser.ParseMembers | src/ddl/parser.rs:837-880 | The loop over a component's members through its closing brace |
| DdlParser.Parser.ParsePort | src/ddl/parser.rs:887-921 | Returns the grammar's port or error |
| DdlParser.Parser.ParseBindings | src/ddl/parser.rs:953-974 | A map of pairs, in which the later of two bindings of a name counts |
| DdlParser.Parser.ParseInstantiate | src/ddl/parser.rs:926-948 | Returns the grammar's instance or error |
| DdlParser.Parser.ParseDoc | src/ddl/parser.rs:270-413 | Returns the grammar's document or error |
| DdlParser.Settle | src/ddl/parser.rs:322-413 | Joins are checked against the forks, and guard names looked up, once the whole text is read |
| DdlParser.Parse | src/ddl/parser.rs:1092-1096 | Parsing a token list yields the grammar's document or error |
| DdlGrammar.Transition | src/ddl/parser.rs:481-544 | A parsed transition leads from `*` or a listed state to a listed state |
| DdlGrammar.Signal | src/ddl/parser.rs:415-458 | A parsed signal has a new name, starts in a listed state, and its transitions stay among its states |
| DdlGrammar.Members | src/ddl/parser.rs:837-880 | Reading a component keeps its signals fit and distinct |
| DdlGrammar.Bodies | src/ddl/parser.rs:739-777 | Every reaction of a block has the block's group and the block's needs |
| DdlGrammar.Item | src/ddl/parser.rs:291-318 | Every item read keeps the signals of the document and of each component fit, names distinct, and groups opened or asked for |
| DdlGrammar.Sweep | src/ddl/parser.rs:291-318 | So does reading the whole text |
| DdlGrammar.GuardLength | src/ddl/parser.rs:567-577 | A guard is captured up to the first token that ends one, and no further |
| DdlCompile.ParsedFits | src/ddl/parser.rs:270-413 | For any token list: if it parses, every signal of the document and of each component starts in one of its states and moves between them, and no signal, component or guard is declared twice |
| DdlCompile.GroupsAreForks | src/ddl/parser.rs:322-337 | In what parses, every group a reaction is in or waits on was opened by a fork block |
| DdlCompile.ForkNamesDiffer | src/ddl/parser.rs:745-746 | Different fork blocks have different names |
| DdlCompile.ReadText | src/ddl/mod.rs:109-111 | Lexing, then parsing |
| DdlCompile.Compile | src/ddl/mod.rs:109-119 | The pipeline yields the specified flat schema or the first error |
| DdlCompile.EmittedFits | src/ddl/codegen.rs:23-74 | Fit declarations are emitted as fit signals, transitions and components |
| DdlCompile.CompiledFits | src/ddl/mod.rs:109-119 | Whatever text compiles, components and instances included, gives a schema that validation can refuse only with `ReactionSignalNotFound` |
| DdlCompile.CompiledSessionsStayHoused | src/ddl/mod.rs:109-119 | If its reactions name declared signals, an engine built from it keeps every signal in one of its declared states |
| DdlPrinter.GuardIfAnyReads | src/ddl/parser.rs:549-584 | A printed guard is read back, where what follows ends it |
| DdlPrinter.ClauseReads | src/ddl/parser.rs:481-544 | A printed transition, its guard and actions included, is read back before whatever does not continue it |
| DdlPrinter.SheetReads | src/ddl/parser.rs:415-458 | A printed signal is read back |
| DdlPrinter.RuleReads | src/ddl/parser.rs:672-733 | A printed reaction with its guard, payload text and `on_fail` is read back, whether its block ends after it or the next reaction starts |
| DdlPrinter.RulesRead | src/ddl/parser.rs:657-666 | Reactions listed in a block are told apart, although each starts with `when` as a guard does |
| DdlPrinter.ForkReads | src/ddl/parser.rs:739-755 | A fork block puts each of its reactions into the group of its number |
| DdlPrinter.JoinReads | src/ddl/parser.rs:761-777 | A join block makes each of its reactions wait on its group |
| DdlPrinter.DefineReads | src/ddl/parser.rs:782-806 | A printed guard declaration is read back, its text trimmed |
| DdlPrinter.UnitReads | src/ddl/parser.rs:811-881 | A printed component is read back: its parameters, and its ports, signals and reactions in any mixture, each in order |
| DdlPrinter.CopyReads | src/ddl/parser.rs:926-974 | A printed instance is read back with its bindings and connections; its own name is lost |
| DdlPrinter.ScriptReads | src/ddl/parser.rs:270-413 | A document of signals, guard declarations, single, fork and join blocks, components and instances, with guards and payloads, printed, parses to what it means: guard names looked up in the whole of it, and the first unknown join or guard name the error |
| DdlPrinter.ScriptReadsIff | src/ddl/parser.rs:270-413 | It does so exactly when its signals fit, those of its components too |
| DdlUnclosed.SheetReadsIff | src/ddl/parser.rs:567-577 | A printed signal is read back exactly when each of its guarded transitions has an action block or is its last; else it is read with fewer transitions |
| DdlUnclosed.RulesReadIff | src/ddl/parser.rs:669-733 | The reactions of a block are read back exactly when each guarded one has braces, a payload or `on_fail`, or is the last; else fewer are read |
| DdlSpelling.KindReads | src/ddl/lexer.rs:82-299 | Each spelled token, of any kind but floats, is read back before a blank |
| DdlSpelling.TokenShows | src/ddl/lexer.rs:82-299 | Whatever the text, a token is what its characters spell, quote or denote, and ends where they do |
| DdlSpelling.FlawShows | src/ddl/lexer.rs:82-299 | What each lexical error says of the characters it is raised at |
| DdlSpelling.LexReadsSpelling | src/ddl/lexer.rs:31-310 | The text of a spelled list is read as exactly its tokens, with their bytes, lines and columns, and the end marker |
| DdlSpelling.SpellingShows | src/ddl/parser.rs:1013-1055 | The text that the parser takes for a guard or a payload is the spelling of its tokens |
| DdlSpelling.ScriptSpoken | src/ddl/parser.rs:1013-1087 | If every guard and payload of a document reads as its tokens are spelled, all texts noted in its print do |
| DdlSpelling.TextReads | src/ddl/mod.rs:109-111 | The text of such a document of proper names, its guards and payloads spelled out, is read as the parse just described |
| DdlSpelling.WrittenCompiles | src/ddl/mod.rs:109-119 | Its text compiles exactly when its joins and guard names are declared and the document expands, to the schema expanded from the document |
| DdlSpelling.WrittenAloneCompiles | src/ddl/mod.rs:109-119 | Without instances: exactly when its joins and guard names are declared and its payloads are JSON, to its signals, its lowered transitions and its reactions, with their guards, payloads and groups |
| DdlSpelling.OutcomeCopies | src/ddl/parser.rs:926-948 | The document holds the instances written, in order |
| DdlMeaning.WrittenMeans | src/ddl/mod.rs:109-119 | Whatever the text of a document compiles to is expanded from a schema that holds what was written: signals and states; for each clause its transitions with event, target, guard text and actions; for each rule its reaction with guard, payload, group and compensation; components and instances likewise. Without instances it is that schema |
| DdlMeaning.SheetsLower | src/ddl/codegen.rs:79-152 | The transitions emitted are those of the clauses, signal by signal and clause by clause |
| DdlMeaning.RuleCompiles | src/ddl/codegen.rs:154-178 | A reaction emitted has its rule's fields; a guard that is a name becomes the text of the declaration so named |
| DdlMeaning.UnitCompiles | src/ddl/codegen.rs:23-74 | A component emitted has the parameters, ports, signals, transitions and reactions it is written with |
| DdlMeaning.CopyIsRaw | src/ddl/parser.rs:926-974 | An instance has the component, bindings and connections it is written with; of two bindings of a name the later |
| DdlMeaning.DeclaredText | src/ddl/parser.rs:782-806 | The text of a guard declaration is what stands between its braces |
| DdlMeaning.SettlesIff | src/ddl/parser.rs:322-413 | Exactly when what has been read is no document: a join names no fork block, the first of which is reported, or a reaction is guarded by an undeclared name |

## Left out

- Foreign-function interface, WebAssembly front end, REPL and command-line tools: they call what is modelled.
- Graphviz export and `snapshot_dot`: text formatting.
- File watching, wall clock and timestamps: timestamps are dropped from trace events.
- `save_state`, `load_state` and `reload_topology`: easy to state, and reloading keeps a current state without checking it against the new states, so runs here are runs of `send_event`.
- `from_json` and the reading of JSON files: schemas and payloads are values; `Includes` reads from a finite map of parsed files, and the DDL's payload texts go through a parameter that reads JSON.
- `check_ddl` (unused and duplicate guard templates), `format_trace`, `format_why`, `traces_json` and the trace filters: direct filters and formatting.
- Scenario.RunScenario: callbacks are values here, so the set of failing actions that the source shares with its closures is written as new callbacks at each change.
- Floats in guards: carried as bit patterns; comparison and arithmetic on them are parameters.
- Unicode character classes: parameters of the lexers; proofs name the few facts they need of them.
- Texts of errors: errors are values with the same fields.
- Duplicate keys and order of JSON objects and of the source's hash maps: maps are maps.
- Instances.WiredInstanceRunsAsComponent: for closed instances, that is when no other part of the flat schema moves or reacts to the instance's signals; an open one does not run as its component.
- DdlSpelling.WrittenCompiles: guards and payloads with floats have no spelling here, as their digits are not modelled.
- GuardEval.ExactIffNoWrap: for guards that come to no float, whose arithmetic is a parameter.
