# NoisiaX verification

A Dafny model of NoisiaX, a deterministic event simulator, and proofs about it.
NoisiaX has three runtimes and a scenario composer. The model follows them
component by component, in the form the source has: classes whose methods update
fields, loops with invariants, recursive methods; each is proved against a
specification function, and what the source promises is proved about that
function.

| file | what it models |
|---|---|
| `CycleDetection.dfy`, `DepthLimits.dfy`, `Walks.dfy` | the validator's three-colour cycle search and breadth-first depth check, over finite directed graphs |
| `VariableStore.dfy`, `DependencyEngine.dfy`, `ReactiveRun.dfy` | the v1 runtime: push invalidation, lazy pull recomputation, event payloads, constraint enforcement, the run loop and the pipeline from edge list to final values |
| `Lexical.dfy`, `Scanning.dfy` | character classes and token scanning shared by the two parsers |
| `TypedExpression.dfy`, `TypedParser.dfy`, `TypedRoundTrip.dfy`, `TypedNormalForm.dfy` | the typed runtime's scannerless recursive-descent evaluator, its grammar, a printer, and the random draws an expression makes |
| `ConstraintExpression.dfy`, `ConstraintParser.dfy`, `ConstraintRoundTrip.dfy`, `Namespacing.dfy` | the v1 constraint evaluator, its grammar and a printer, and identifier rewriting for namespaced imports |
| `RenamedRuns.dfy`, `NamespacedRuns.dfy` | what renaming variables, and namespacing an import, does to whole v1 runs |
| `ImportResolution.dfy` | memoised import resolution with cycle detection |
| `AgentMarket.dfy`, `AgentInvariants.dfy`, `AgentSafety.dfy`, `AgentRuns.dfy`, `AgentChoice.dfy`, `AgentRuntime.dfy` | the agent market: events, handlers, invariants, whole runs, the weighted choice, and the event loop as it runs |
| `SplitMix.dfy` | the counter-based random number generator |
| `TypedRelations.dfy`, `TypedStorage.dfy` | bounded, expiring relations; compiled structure-of-arrays storage |
| `Base64.dfy`, `Checkpoint.dfy` | the binary checkpoint layout and its base64 text |
| `Aggregate.dfy` | the one-pass mean and variance of an experiment's metric |
| `Optional.dfy`, `StringOrder.dfy` | std::optional, and the order of std::map keys |

The main results, in one place:

- Lazy equals eager: on a graph the validator accepts, pulling stale variables in
  any order gives the state of a plain topological evaluation, over whole runs.
- The validator accepts exactly the acyclic graphs, and on them the engine never
  fails.
- Both expression evaluators compute the value of the tree their grammar assigns
  to the text, and in both grammars printing and parsing are inverse on exactly the
  trees that have a text; random draws are the tree's rng calls in post-order.
- Prefixing the ids of an import preserves every constraint that names no taken
  identifier (one that is not renamed, but equals a prefixed id) if and only if no
  renamed id looks like an exponent.
- Namespacing an import renames its whole run and changes nothing else if and only
  if no id looks like an exponent and none is changed by a payload action.
- Memoised import resolution equals the plain recursion, and reports a circular
  import exactly when that recursion would not end.
- The agent market keeps queues, conversations, money and goods consistent with
  its pending events, never gets stuck, cannot do infinitely much in finite time,
  and ends only by its end event or its limit on events; draws and scores determine
  the whole simulation.
- A checkpoint restores the state it was made from, through base64.
- Every list of relations a typed run goes through is within declared bounds and
  unexpired, even if time goes backwards; the times of a run are in order exactly
  when no event but the last schedules one earlier than itself.

`dafny verify dfyconfig.toml` verifies the whole project.

Conventions. Numbers of type double are real numbers; 64-bit words of the random
number generator are bit vectors, and wrap; 64-bit fields of checkpoints are
integers with explicit ranges. Exceptions are values: an `Option`, or a result type
where the kind of error is part of a claim. Random draws in the agent market are
arbitrary numbers of [0, 1).

Four points where the code decides, and the model follows it: an emitted timestamp
of the typed runtime only has to be finite and non-negative, so time may go
backwards there (`TypedRelations.TimeCanGoBack`); `&&` and `||` of the runtime
evaluators always evaluate both sides; a namespaced id that reads as an exponent
(`e`, `E4`) is also replaced inside numeric literals, which
`Namespacing.PrefixingSpoils` shows on concrete texts; and the payload actions
`update_demand` and `apply_promotion` name their variable without a prefix, so they
lose it when their fragment is namespaced (`NamespacedRuns.ActionIsNotKept`).

## Model

| member | source | states |
|---|---|---|
| CycleDetection.CycleSearch.DetectCycle | src/validation/scenario_validator.cpp:1761-1789 | the three-colour search returns true if and only if the dependency edges contain a directed cycle, for every finite edge list |
| CycleDetection.CycleSearch.DfsVisit | src/validation/scenario_validator.cpp:1791-1816 | a visit that finds nothing finishes its node and keeps the finished part closed under edges and free of cycles; a visit that finds something proves a cycle; white nodes strictly decrease |
| CycleDetection.CycleSearch.BuildAdjacency | src/validation/scenario_validator.cpp:1761-1780 | the adjacency lists hold exactly the declared edges, and every endpoint starts white |
| CycleDetection.FinishKeepsAcyclic | src/validation/scenario_validator.cpp:1811-1816 | turning a node black after all its successors are black adds no cycle to the black part |
| CycleDetection.NoCycleAnywhere | src/validation/scenario_validator.cpp:1781-1789 | when every source of an edge is black, the whole graph is acyclic |
| DepthLimits.DepthCheck.CheckDepthLimits | src/validation/scenario_validator.cpp:1702-1759 | the reported depth is the largest shortest-path distance from any root to a node it reaches, is attained, and is zero without roots; the warning is given exactly above 20 |
| DepthLimits.DepthCheck.SearchFrom | src/validation/scenario_validator.cpp:1729-1750 | one breadth-first search raises the running maximum to the largest shortest-path distance from its root, although nodes are queued several times at different depths |
| DepthLimits.FrontIsExact | src/validation/scenario_validator.cpp:1734-1741 | a node that is unvisited when it comes to the front of the queue is popped at its true distance |
| DepthLimits.VisitKeepsSearching | src/validation/scenario_validator.cpp:1737-1749 | visiting the front node keeps the queue ordered over at most two levels and every frontier edge accounted for |
| DepthLimits.Push | src/validation/scenario_validator.cpp:1745-1749 | exactly the unvisited successors are queued, one level deeper, behind the rest |
| DependencyEngine.DependencyGraph.PushInvalidation | src/engine/simulation_engine.cpp:255-281 | the stale set grows by exactly the variables reachable from the source |
| DependencyEngine.DependencyGraph.PullRecompute | src/engine/simulation_engine.cpp:283-335 | a pull clears exactly the stale ancestors of the target and itself, brings each of them up to date after its sources, applies each of their incoming edges once more and changes nothing else; the cycle error implies a cycle, the unknown-function error an unregistered function |
| DependencyEngine.DependencyGraph.Recompute | src/engine/simulation_engine.cpp:293-332 | the recursive step terminates on every graph and leaves a state that is progress towards the settled one |
| DependencyEngine.DependencyGraph.RecomputeSources | src/engine/simulation_engine.cpp:306-312 | after the loop over the incoming edges every source of the variable is clean |
| DependencyEngine.DependencyGraph.ApplyEdges | src/engine/simulation_engine.cpp:306-330 | the new value is the left fold of the incoming edges, in reverse-adjacency order, over the old value, coerced to the type of the slot |
| DependencyEngine.DependencyGraph.BuildFromCompiled | src/engine/simulation_engine.cpp:235-249 | the reverse adjacency lists every incoming edge of a target, source by source in ascending order and as often as it was declared |
| DependencyEngine.BuiltGraphIsMirrored | src/engine/simulation_engine.cpp:235-249 | forward and reverse adjacency hold the same edges with the same multiplicities |
| DependencyEngine.ProgressTransitive | src/engine/simulation_engine.cpp:283-335 | pulls compose: two successive pulls are together one step of progress from the first state |
| DependencyEngine.RefreshOne | src/engine/simulation_engine.cpp:300-331 | refreshing one stale variable whose sources are all clean is progress |
| DependencyEngine.PullClearsExactly | src/engine/simulation_engine.cpp:283-335 | on a downstream-closed stale set, progress that cleans a target and touches only its ancestors leaves exactly the stale variables that do not reach it |
| DependencyEngine.ProgressKeepsClosed | src/engine/simulation_engine.cpp:283-335 | a pull never leaves a stale variable with a clean dependant |
| DependencyEngine.SettledIsUnique | src/noisiax.cpp:778-781 | on an acyclic graph all orders of pulling all stale variables end in one and the same state |
| DependencyEngine.LazyEqualsEager | src/noisiax.cpp:778-781 | that state is the one plain evaluation in topological order computes |
| DependencyEngine.EagerProgress | src/engine/simulation_engine.cpp:283-335 | plain topological evaluation is itself progress that leaves nothing stale and applies each edge into a stale target once |
| DependencyEngine.ProgressSettles | src/engine/simulation_engine.cpp:283-335 | when nothing is stale, every formerly stale variable is the fold over the final values of its sources, every clean one is untouched, and each edge into a stale target was applied exactly once |
| DependencyEngine.TopologicalOrderExists | src/validation/scenario_validator.cpp:1536-1549 | every acyclic graph has a topological order of any finite set of variables |
| VariableStore.StoredNumberReadsBack | src/engine/simulation_engine.cpp:393-452 | a number stored in a float slot reads back unchanged, in an integer slot within one half, in a boolean slot only if it is 0 or 1; other variables are untouched |
| ReactiveRun.RunScenario | src/noisiax.cpp:726-800 | the whole v1 pipeline: rejected exactly for a cycle or an unknown function; otherwise the engine never fails, the compiled graph holds the declared edges in both directions, the reverse lists source by source in ascending order, and the registered functions, and the values are those of eager evaluation over that graph after every processed prefix; the constraints held before each event, and it stops early exactly for a failed one |
| RenamedRuns.MeaningIsUnique | src/noisiax.cpp:726-800 | the outcome, the number of processed events and the final values of a scenario are determined by it, whatever order variables are visited in |
| RenamedRuns.MeaningExists | src/noisiax.cpp:726-800 | and every scenario has them |
| ReactiveRun.ScenarioRun.Run | src/noisiax.cpp:768-787 | the run loop keeps nothing stale between events and the values equal to eager evaluation; it stops early only for a failed constraint |
| ReactiveRun.ScenarioRun.ProcessEvent | src/noisiax.cpp:773-781 | one event: payload assignments, push, and pulls of every stale variable give the eager result |
| ReactiveRun.ScenarioRun.PullStale | src/noisiax.cpp:778-781 | pulling the stale variables in any order leaves none stale and a settled state; errors imply a cycle or an unregistered function |
| ReactiveRun.ScenarioRun.ApplyAssignments | src/noisiax.cpp:240-308 | the values become those of the assignments in order, the stale set grows by everything downstream of a variable really changed, and stays downstream-closed |
| ReactiveRun.ScenarioRun.SetVariableFromPayload | src/noisiax.cpp:246-270 | an assignment that does not fit the type of its variable changes nothing and invalidates nothing |
| ReactiveRun.EnforceConstraints | src/noisiax.cpp:540-582 | the check fails exactly when some constraint does not evaluate, or is false and enforced by rejection |
| ReactiveRun.LazyEventIsEager | src/noisiax.cpp:773-781 | one processed event has its eager meaning |
| ReactiveRun.BuildAdjacencyLists | src/compiler/scenario_compiler.cpp:549-578 | compilation fails exactly for an unregistered function; otherwise each list holds the outgoing edges in declaration order |
| ReactiveRun.CompiledPairs | src/compiler/scenario_compiler.cpp:549-578 | the compiled graph has exactly the declared edges, so the cycle check of the validator applies to it |
| ReactiveRun.EagerRunIgnoresOrder | src/noisiax.cpp:778-781 | the eager meaning of a run does not depend on the topological order chosen |
| StringOrder.AscendingKeys | src/engine/simulation_engine.cpp:235-249 | the keys of a std::map in strictly ascending order, each once |
| TypedParser.ExpressionParser.EvaluateValue | src/engine/typed_runtime.cpp:321-330 | the fused parser-evaluator returns the value of the tree the grammar assigns to the whole text, consumes all of it and makes that tree's draws; it fails exactly when there is no such tree or its evaluation fails |
| TypedParser.ExpressionParser.ParseLogicalOr | src/engine/typed_runtime.cpp:363-371 | the value, draws and rest of the text are those of the tree at this level |
| TypedParser.ExpressionParser.ParseLogicalAnd | src/engine/typed_runtime.cpp:373-381 | as above, one level tighter |
| TypedParser.ExpressionParser.ParseEquality | src/engine/typed_runtime.cpp:383-416 | equality associates to the left and compares values of one kind only |
| TypedParser.ExpressionParser.ParseComparison | src/engine/typed_runtime.cpp:418-427 | at most one comparison is taken |
| TypedParser.ExpressionParser.ParseAdditive | src/engine/typed_runtime.cpp:429-443 | sums associate to the left |
| TypedParser.ExpressionParser.ParseMultiplicative | src/engine/typed_runtime.cpp:445-463 | products associate to the left; division by zero fails |
| TypedParser.ExpressionParser.ParseUnary | src/engine/typed_runtime.cpp:465-473 | prefix operators nest |
| TypedParser.ExpressionParser.ParsePrimary | src/engine/typed_runtime.cpp:475-496 | parentheses, literals, identifiers and calls |
| TypedParser.ExpressionParser.ParseStringLiteral | src/engine/typed_runtime.cpp:498-522 | the content is the unescaped text up to the matching quote |
| TypedParser.ExpressionParser.ParseNumberLiteral | src/engine/typed_runtime.cpp:524-573 | the longest mantissa with an optional complete exponent |
| TypedParser.ExpressionParser.ParseIdentifierOrCall | src/engine/typed_runtime.cpp:575-626 | the words true and false, resolved identifiers, and calls |
| TypedParser.ExpressionParser.ParseArguments | src/engine/typed_runtime.cpp:592-606 | arguments are evaluated from left to right |
| TypedParser.ExpressionParser.EvalFunction | src/engine/typed_runtime.cpp:628-663 | rng calls make one draw of their stream; other names go to the registry |
| TypedRoundTrip.PrintParseRoundTrip | src/engine/typed_runtime.cpp:321-663 | every writable tree, printed with any white space before its tokens and the fewest parentheses, parses back to itself |
| TypedRoundTrip.DrawsAreTheRandomCalls | src/engine/typed_runtime.cpp:363-381 | a successful evaluation makes exactly the draws of the tree's rng calls in left-to-right post-order, each one next after the draws made so far, its own arguments' among them, from the stream its first argument names there; neither and nor or skips an operand |
| TypedRoundTrip.ArgDrawsAreTheRandomCalls | src/engine/typed_runtime.cpp:592-606 | the same for a list of arguments |
| TypedRoundTrip.CallDrawsNext | src/engine/typed_runtime.cpp:628-653 | a random call that succeeds makes one draw of its own, after those of its arguments, from the stream its first argument names |
| TypedNormalForm.EvaluatePrinted | src/engine/typed_runtime.cpp:321-663 | the evaluator run on the printed text of any writable tree consumes all of it, returns the value of the tree or fails with it, and makes the draws of its rng calls in post-order |
| TypedNormalForm.ParsedIffWritable | src/engine/typed_runtime.cpp:321-663 | the trees that some text parses to are exactly the writable ones |
| TypedNormalForm.ReformattingKeepsMeaning | src/engine/typed_runtime.cpp:321-663 | reprinting what was parsed, with any white space, parses to the same tree |
| TypedExpression.BetweenStaysInside | src/engine/typed_runtime.cpp:646-648 | lo + d * (hi - lo) lies in [lo, hi], and below hi unless they are equal, for every normalised draw d |
| Scanning.ScanNumber | src/noisiax.cpp:462-514 | the scan consumes exactly the longest mantissa and complete exponent, and counts no digit exactly when the mantissa has none |
| Scanning.NextOperator | src/noisiax.cpp:365-424 | the first operator of the level, in source order, that comes next after white space |
| ConstraintParser.Parser.Evaluate | src/noisiax.cpp:317-324 | the parser returns the truth the grammar assigns to the whole text, and fails for exactly the other texts |
| ConstraintParser.Parser.ParseLogicalOr | src/noisiax.cpp:347-354 | both operands are always parsed |
| ConstraintParser.Parser.ParseLogicalAnd | src/noisiax.cpp:356-363 | both operands are always parsed |
| ConstraintParser.Parser.ParseComparison | src/noisiax.cpp:365-388 | one comparison at most; without one, the truth is that the number is not zero |
| ConstraintParser.Parser.ParseAdditive | src/noisiax.cpp:390-404 | sums associate to the left |
| ConstraintParser.Parser.ParseMultiplicative | src/noisiax.cpp:406-424 | products associate to the left; division by zero fails |
| ConstraintParser.Parser.ParseUnary | src/noisiax.cpp:426-434 | signs nest |
| ConstraintParser.Parser.ParsePrimary | src/noisiax.cpp:436-460 | parentheses hold arithmetic only |
| ConstraintParser.Parser.ParseNumber | src/noisiax.cpp:462-514 | the literal read is the longest one |
| ConstraintParser.Parser.ParseIdentifier | src/noisiax.cpp:516-537 | the longest word, resolved |
| ConstraintParser.LevelKinds | src/noisiax.cpp:347-434 | arithmetic levels only ever produce numbers, the logical levels only truth values |
| ConstraintRoundTrip.WriteReadRoundTrip | src/noisiax.cpp:317-537 | every written truth value, with any white space before its tokens and the fewest parentheses, is read back as itself |
| ConstraintRoundTrip.ReadIffWritten | src/noisiax.cpp:347-537 | the terms some text is read as are exactly the written truth values: logical operators and comparisons are never in parentheses, comparisons do not chain, bare arithmetic is compared with zero, and constants and names are whole tokens |
| ConstraintRoundTrip.EvaluateWritten | src/noisiax.cpp:317-324 | the evaluator run on the written text of a term returns the truth of the term, or fails with it |
| ConstraintRoundTrip.NormalFormKeepsTruth | src/noisiax.cpp:317-537 | rewriting a text in its normal form keeps its truth, or its error |
| Namespacing.RewriteSimpleIdentifiers | src/experiment/scenario_resolver.cpp:86-120 | the loop replaces exactly the maximal words that are keys of the map |
| Namespacing.EvaluateRewritten | src/experiment/scenario_resolver.cpp:490-501 | running the constraint evaluator on the rewritten text in the renamed environment gives the truth, or the error, of the original |
| Namespacing.RewriteKeepsMeaning | src/experiment/scenario_resolver.cpp:86-120 | rewriting with replacements that are words and never look like an exponent preserves the truth, or the error, of every constraint text |
| Namespacing.PrefixMapKeepsLiterals | src/experiment/scenario_resolver.cpp:79-84 | a prefix map is safe if and only if no id is e or E followed by nothing but digits |
| Namespacing.PrefixingPreservesExactly | src/experiment/scenario_resolver.cpp:490-501 | in every environment that carries over the old meanings, prefixing preserves the outcome of all constraint texts that name no taken identifier if and only if no renamed id is e or E followed by nothing but digits; taken means: not renamed itself, but equal to the prefixed form of a renamed id |
| Namespacing.PrefixingPreserves | src/experiment/scenario_resolver.cpp:490-501 | under that condition, every single text that names no taken identifier keeps its outcome |
| Namespacing.PrefixingSpoils | src/experiment/scenario_resolver.cpp:490-501 | for every id that violates the condition, the numeric literal 0 followed by the id evaluates before the rewriting, if the conversion of literals takes it, and fails after |
| Namespacing.PrefixedResolveAgrees | src/experiment/scenario_resolver.cpp:79-84 | the merged environment resolves every renamed id, and every other id that is not taken, as before |
| Namespacing.MergedCarries | src/experiment/scenario_resolver.cpp:490-501 | the merged environment carries over the meanings of every imported one |
| Namespacing.ImportKeepsConstraintsExactly | src/experiment/scenario_resolver.cpp:490-501 | for the merged environment itself: an import keeps the outcome of all its constraints that name no taken identifier if and only if none of its ids could be an exponent |
| NamespacedRuns.PrefixingKeepsRunsExactly | src/experiment/scenario_resolver.cpp:434-516 | namespacing keeps the whole run of every fragment over some ids - the same outcome after as many events, the same values under the new names - if and only if no id could be an exponent and none is changed by a payload action |
| NamespacedRuns.PrefixingKeepsRun | src/experiment/scenario_resolver.cpp:434-516 | under that condition, for one fragment: only actions that its own events carry out on its own variables are in the way |
| NamespacedRuns.ActionIsNotKept | src/noisiax.cpp:294-307 | a concrete fragment whose one event changes var_demand or var_discount_rate by an action; after namespacing it changes nothing, since the action names the variable without the prefix |
| NamespacedRuns.ExponentIsNotKept | src/experiment/scenario_resolver.cpp:490-501 | a concrete fragment whose one constraint passes before and fails after namespacing |
| NamespacedRuns.EventMovesIff | src/experiment/scenario_resolver.cpp:502-516 | a namespaced event asks for the same assignments under the new names if and only if it has no action that changes a variable of the fragment |
| NamespacedRuns.PrefixFragment | src/experiment/scenario_resolver.cpp:434-516 | the loops rename edges, constraints and payloads, and refuse exactly the invalid namespaces |
| NamespacedRuns.PrefixPayload | src/experiment/scenario_resolver.cpp:507-514 | only the two keys that name a variable are renamed, and only to ids of the fragment |
| NamespacedRuns.PrefixingKeepsOrder | src/experiment/scenario_resolver.cpp:79-84 | a common prefix keeps the order of the edge sources, so edges are still applied in the same order |
| RenamedRuns.RenamingRenamesMeaning | src/noisiax.cpp:726-800 | any renaming that merges no two names, keeps the order of the edge sources and the truth of the constraints renames the whole meaning of a scenario |
| RenamedRuns.CompiledMoves | src/compiler/scenario_compiler.cpp:549-578 | the graph compiled from renamed edges is the renamed graph: pairs, functions, and every reverse list in the same order |
| Namespacing.ReadRewrite | src/experiment/scenario_resolver.cpp:86-120 | at every precedence level, parsing the rewritten text follows parsing the original: same tree up to renaming, same rest |
| Namespacing.ConstantRewrite | src/experiment/scenario_resolver.cpp:86-120 | numeric literals, including those with exponents, are not touched |
| ImportResolution.ResolveScenario | src/experiment/scenario_resolver.cpp:916-985 | resolution succeeds exactly when the plain recursion over the imports ends in success, and with the same result; then no cycle is reachable and each reachable file is listed exactly once. Circular is reported exactly when the plain recursion would never end, which implies a reachable cycle; if all files are readable and merging never conflicts, it fails exactly for a reachable cycle |
| ImportResolution.Resolver.ResolveDefinition | src/experiment/scenario_resolver.cpp:916-974 | one call: the cached value is that of the plain recursion, the visiting set is restored, only reachable files are added, and the recursion terminates on every finite project |
| ImportResolution.Resolver.Enter | src/experiment/scenario_resolver.cpp:931-932 | a file is listed when it is first visited, and never twice |
| ImportResolution.Resolver.Leave | src/experiment/scenario_resolver.cpp:971-973 | the cache stays closed under imports |
| ImportResolution.Resolver.HangsFurtherUp | src/experiment/scenario_resolver.cpp:923-925 | a cycle found below an import makes the plain recursion of the importing file hang or lead back to a file being visited |
| ImportResolution.UnfoldIsStable | src/experiment/scenario_resolver.cpp:916-974 | a plain recursion that ends at some depth has the same outcome at every greater depth |
| ImportResolution.DoneMeansNoCycle | src/experiment/scenario_resolver.cpp:916-974 | a plain recursion that succeeds rules out reachable cycles |
| ImportResolution.LoopDiverges | src/experiment/scenario_resolver.cpp:923-925 | a recursion that leads back to itself never ends |
| ImportResolution.EndsIsUnique | src/experiment/scenario_resolver.cpp:927-929 | the outcome of the plain recursion is unique |
| AgentRuntime.Simulate | src/engine/agent_runtime.cpp:286-1010 | a whole simulation from the declared agents and shops: a run of the step relation whose luck is what the given draws and weights make of it; it ends by SIM_END, exactly at the maximum time, or by the limit on events with SIM_END still pending; every state on the way is safe and has the money of every agent and the units of every item of the start |
| AgentRuntime.SimulationIsDetermined | src/engine/agent_runtime.cpp:286-1010 | draws and weights determine a whole simulation: every state, every event, every choice, and how it ends |
| AgentChoice.SameDrawsSameRun | src/engine/agent_runtime.cpp:490-1003 | two runs from one start with the same draws and weights are the same run, as far as both go |
| AgentChoice.ChosenIsUnique | src/engine/agent_runtime.cpp:614-645 | a draw and the weights leave one choice |
| AgentChoice.CandidatesAreBuyable | src/engine/agent_runtime.cpp:525-612 | the candidates of an agent are exactly the pairs of item and shop it can buy at |
| AgentRuntime.Runtime.Run | src/engine/agent_runtime.cpp:490-1003 | the loop produces a run of the step relation from the initial state, with the luck of the given draws, and ends only by SIM_END or by the limit on events: never with an empty queue or an event past the maximum time |
| AgentRuntime.Runtime.Process | src/engine/agent_runtime.cpp:497-961 | popping and handling the first pending event is one step of the step relation |
| AgentRuntime.Runtime.Dispatch | src/engine/agent_runtime.cpp:512-961 | the switch has the effect the specification gives to the event type, for the draw and the choice it makes |
| AgentRuntime.Runtime.HandleSimStart | src/engine/agent_runtime.cpp:513-518 | one decision per agent at time 0 |
| AgentRuntime.Runtime.HandleDecide | src/engine/agent_runtime.cpp:519-696 | the purchase chosen is affordable and in stock, and is the one the draw and the weights select; none is chosen only if there is none |
| AgentRuntime.Runtime.HandleMoveStart | src/engine/agent_runtime.cpp:697-717 | the arrival is scheduled after the travel time |
| AgentRuntime.Runtime.HandleMoveArrive | src/engine/agent_runtime.cpp:718-744 | location, walking time and visited places are updated, and the queue is entered at once |
| AgentRuntime.Runtime.HandleQueueEnter | src/engine/agent_runtime.cpp:745-776 | a full queue or an impossible purchase sends the agent back to deciding; otherwise the queue grows and a purchase is scheduled |
| AgentRuntime.Runtime.HandlePurchase | src/engine/agent_runtime.cpp:777-859 | the queue shrinks; a possible purchase moves one unit and its price, tells the observers, may start a talk, and a solvent buyer decides again |
| AgentRuntime.Runtime.HandleObserve | src/engine/agent_runtime.cpp:860-892 | memories of the item and its tags are added in order, a decay and, outside conversations, a decision are scheduled |
| AgentRuntime.Runtime.HandleTalkStart | src/engine/agent_runtime.cpp:893-916 | two free agents become partners and the end of their talk is scheduled |
| AgentRuntime.Runtime.HandleTalkEnd | src/engine/agent_runtime.cpp:917-950 | both are released, the last purchase is passed on, both decide again |
| AgentRuntime.Runtime.HandleInfluenceDecay | src/engine/agent_runtime.cpp:951-957 | exactly the expired memories are dropped |
| AgentRuntime.Runtime.ScheduleEvent | src/engine/agent_runtime.cpp:380-403 | an event gets the next ordinal and its parent |
| AgentRuntime.Runtime.TellObservers | src/engine/agent_runtime.cpp:823-838 | everybody else at the place of the buyer, in index order |
| AgentRuntime.Runtime.FindNearby | src/engine/agent_runtime.cpp:474-485 | the first other agent at the same place |
| AgentRuntime.Runtime.ValidCandidates | src/engine/agent_runtime.cpp:525-612 | exactly the pairs of item and shop that can be bought, item by item and shop by shop |
| AgentRuntime.Runtime.DecayMemories | src/engine/agent_runtime.cpp:465-472 | keeps exactly the memories that expire later, in order |
| AgentChoice.WeightedChoice | src/engine/agent_runtime.cpp:614-645 | the first candidate whose cumulative weight reaches the scaled draw; over the reals the fallback to the last one is never needed |
| AgentRuns.RunIsSafe | src/engine/agent_runtime.cpp:490-1003 | every state of every run is safe (indices, queues, conversations, depth, liveness), has the money per agent and the goods per item of the start, time never decreases, SIM_END stays pending until processed, and no processed event is past the maximum time |
| AgentRuns.ChainsAreShort | src/engine/agent_runtime.cpp:512-949 | no Zeno runs: an event at time t has at most 60 t + 5 parent links |
| AgentRuns.RunIsDetermined | src/engine/agent_runtime.cpp:182-189 | two runs with the same draws and choices are the same run |
| AgentRuns.StepIsSafe | src/engine/agent_runtime.cpp:490-961 | every step keeps all invariants and conserves money and goods; the guard on the queue size never fails |
| AgentRuns.InitialIsSafe | src/engine/agent_runtime.cpp:405-406 | the state before the loop is safe, and SIM_START comes first |
| AgentRuns.BeforeIsTransitive | src/engine/agent_runtime.cpp:182-189 | the event order is transitive |
| AgentRuns.BeforeIsTotal | src/engine/agent_runtime.cpp:182-189 | it is irreflexive, asymmetric, and total on events with different ordinals |
| AgentRuns.NextExists | src/engine/agent_runtime.cpp:497-498 | every non-empty queue has a first event |
| AgentRuns.NextIsUnique | src/engine/agent_runtime.cpp:497-498 | and only one |
| AgentInvariants.ReactIsFine | src/engine/agent_runtime.cpp:512-961 | every handler keeps money per agent constant and budgets non-negative, keeps shops valid, and schedules only well-formed events that lie later or are one of the five zero-delay links |
| AgentInvariants.StepKeepsSlow | src/engine/agent_runtime.cpp:512-949 | the bound on causal depth is kept by every step |
| AgentInvariants.StepKeepsWellFormed | src/engine/agent_runtime.cpp:490-961 | indices stay in range, every pending queue or purchase event names an item its shop stocks, ordinals stay unique, and no pending event lies in the past |
| AgentInvariants.StepKeepsNumbering | src/engine/agent_runtime.cpp:380-403 | ordinals number the events, and parents are older than their children |
| AgentSafety.StepKeepsQueues | src/engine/agent_runtime.cpp:745-791 | the queue size of every shop equals its number of pending purchases and never exceeds a positive capacity |
| AgentSafety.StepKeepsConversations | src/engine/agent_runtime.cpp:893-950 | partners are paired symmetrically and distinct, with exactly one pending end per pair and no other pending ends |
| AgentSafety.EndIsCurrent | src/engine/agent_runtime.cpp:917-932 | a pending end of a conversation names two agents talking to each other |
| AgentSafety.StepKeepsGoods | src/engine/agent_runtime.cpp:777-806 | for every item, the stock of all shops plus the occurrences in all purchase lists is constant |
| AgentSafety.GoodsEffect | src/engine/agent_runtime.cpp:777-806 | only a sale moves goods: one unit, from the shop to the buyer |
| AgentSafety.StepKeepsLively | src/engine/agent_runtime.cpp:685-857 | once SIM_START is over, every agent with more than 0.01 has a pending event that drives it on |
| AgentSafety.StepKeepsFrame | src/engine/agent_runtime.cpp:405-406 | SIM_START and SIM_END are scheduled once, and SIM_END stays until it is processed |
| SplitMix.SplitMixIsBijective | src/engine/typed_runtime.cpp:50-55 | splitmix64 has a two-sided inverse on 64-bit words |
| SplitMix.DrawsNeverRepeat | src/engine/typed_runtime.cpp:68-86 | within the first 2 to the 64 draws of a stream no raw value repeats |
| SplitMix.DrawsDifferByIndex | src/engine/typed_runtime.cpp:68-86 | different draw indices of a stream give different raw values |
| SplitMix.DrawsDifferBySeed | src/engine/typed_runtime.cpp:73-76 | draws that agree in all but the seed differ |
| SplitMix.DrawsDifferByScenario | src/engine/typed_runtime.cpp:73-76 | so do draws that agree in all but the scenario hash |
| SplitMix.DrawsDifferByStream | src/engine/typed_runtime.cpp:73-76 | and draws that agree in all but the stream hash |
| SplitMix.CounterIsInjective | src/engine/typed_runtime.cpp:70-70 | a 64-bit counter takes 2 to the 64 different values before it repeats |
| SplitMix.DeterministicRng.Draw | src/engine/typed_runtime.cpp:68-86 | the draw depends only on the seed, the scenario, the key and the number of earlier draws of that key |
| SplitMix.InterleavingDoesNotMatter | src/engine/typed_runtime.cpp:68-86 | under every interleaving with other streams a stream yields the same numbers in the same order |
| SplitMix.RngStaysInBounds | src/engine/typed_runtime.cpp:629-653 | a successful rng(key, lo, hi) takes the next draw of its stream and returns a number of [lo, hi] |
| SplitMix.Normalized | src/engine/typed_runtime.cpp:81-83 | the normalised draw lies in [0, 1) |
| SplitMix.HashText | src/engine/typed_runtime.cpp:39-48 | the loop computes FNV-1a of the text |
| Checkpoint.SaveAndLoad | src/noisiax.cpp:839-861 | saving one state as base64 text and loading it into another, whatever that one held, reproduces the first |
| Checkpoint.LayoutRoundTrip | src/engine/simulation_engine.cpp:124-231 | the binary layout is read back as the state it was made from, whatever the order of the stale flags; bytes after it are ignored |
| Checkpoint.StateBuffers.CreateCheckpoint | src/engine/simulation_engine.cpp:124-174 | the bytes written are the layout of the state, for some order of the stale flags that lists each once |
| Checkpoint.StateBuffers.RestoreCheckpoint | src/engine/simulation_engine.cpp:176-231 | the state becomes the one the data describe; it fails exactly when the data end too early |
| Checkpoint.StateBuffers.WriteStale | src/engine/simulation_engine.cpp:162-171 | the stale map is written entry by entry, each once |
| Checkpoint.StateBuffers.ReadStrings | src/engine/simulation_engine.cpp:204-209 | every string of the resized buffer is overwritten |
| Checkpoint.StateBuffers.ReadStale | src/engine/simulation_engine.cpp:219-230 | the stale map is rebuilt from its entries |
| Checkpoint.WordRoundTrip | src/engine/simulation_engine.cpp:128-139 | 64-bit words, signed or not, survive their little-endian bytes |
| Checkpoint.StringRoundTrip | src/engine/simulation_engine.cpp:149-154 | a length-prefixed string is read back, whatever follows |
| Checkpoint.ListRoundTrip | src/engine/simulation_engine.cpp:141-160 | a list is read back when each of its items is |
| Base64.DecodeEncode | src/serialization/yaml_serializer.cpp:26-118 | decoding inverts encoding for every byte string |
| Base64.EncodeDecode | src/serialization/yaml_serializer.cpp:26-118 | encoding inverts decoding for exactly the texts without padding before the last group and without stray bits under the padding |
| Base64.NotEveryTextIsCanonical | src/serialization/yaml_serializer.cpp:65-118 | two concrete texts that decode but are not what the encoder writes |
| Base64.GroupRoundTrip | src/serialization/yaml_serializer.cpp:30-61 | one to three bytes survive their four characters |
| Base64.GroupRoundTripBack | src/serialization/yaml_serializer.cpp:73-114 | a group of four characters survives exactly when its padding hides no bits |
| Base64.SymbolRoundTrip | src/serialization/yaml_serializer.cpp:14-24 | the table and the decoder of single characters are inverse |
| Base64.Encode | src/serialization/yaml_serializer.cpp:26-63 | the loop writes the encoding |
| Base64.Decode | src/serialization/yaml_serializer.cpp:65-118 | the loop computes the decoding, with the error of the first bad group |
| Base64.DecodeFour | src/serialization/yaml_serializer.cpp:73-114 | one group, with its errors in source order |
| TypedRelations.Runtime.Run | src/engine/typed_runtime.cpp:1037-1330 | the loop makes a run of the specification from the present state and stops exactly when nothing is pending, at the limit on events, at an event past the end of time, or by a failure; from an empty record, the record is complete, and every list in it is within bounds and free of expired relations if the first one is within bounds |
| TypedRelations.RunIsBounded | src/engine/typed_runtime.cpp:1037-1330 | whatever the events and expressions do, every list of relations a run goes through is within the declared bounds and holds no expired relation, if the initial list is within bounds |
| TypedRelations.RunIsComplete | src/engine/typed_runtime.cpp:1037-1330 | the record of a run leaves no list out: it starts with the initial list, each entry follows from the one before by one added relation that was admitted or by the expiry of an event, and it ends with the present list |
| TypedRelations.CompleteIsGood | src/engine/typed_runtime.cpp:996-1031 | a complete record that starts within bounds stays within bounds and unexpired |
| TypedRelations.ProcessIsRecorded | src/engine/typed_runtime.cpp:1053-1055 | one event shows as the expiry at its time followed by single additions only; nothing pending is lost |
| TypedRelations.TimeIsMonotoneIff | src/engine/typed_runtime.cpp:1037-1053 | the times of a run are in order if and only if no event but the last schedules one that is earlier than itself |
| TypedRelations.AllTimesAreMonotoneIff | src/engine/typed_runtime.cpp:1037-1053 | the times of all runs of a setup are in order if and only if no event, in any state in which it comes first, schedules an event earlier than itself |
| TypedRelations.ForwardIsMonotone | src/engine/typed_runtime.cpp:1221-1230 | if no emission of a setup is scheduled before the time of its event, the times of every run are in order |
| TypedRelations.TimeCanGoBack | src/engine/typed_runtime.cpp:1221-1230 | a concrete run of two events that goes from time 5 back to time 0: an emitted timestamp only has to be non-negative |
| TypedRelations.Runtime.ProcessEvent | src/engine/typed_runtime.cpp:1053-1055 | expiry comes first, then the systems listed for the event type, in order and as often as they are listed, up to the first failure |
| TypedRelations.SystemsByEventType | src/engine/typed_runtime.cpp:875-887 | the loops list, for every event type, the systems it triggers in order: one without triggers for every type, one that names a type twice twice |
| TypedRelations.Runtime.RunSystem | src/engine/typed_runtime.cpp:1261-1306 | per-entity systems visit the matching entities, pair systems each pair once, per-relation systems the relations present at the start |
| TypedRelations.Runtime.ExecuteMatch | src/engine/typed_runtime.cpp:1105-1248 | a match evaluates its condition, then its creations, then its emissions, up to the first failure |
| TypedRelations.Runtime.CreateOne | src/engine/typed_runtime.cpp:1162-1214 | condition, roles, bounds and lifetime are checked in this order, and a relation is added only if all hold; a lifetime that is not positive is refused |
| TypedRelations.Runtime.EmitOne | src/engine/typed_runtime.cpp:1216-1248 | an event is scheduled at the present time, or at the given one if that is not negative |
| TypedRelations.Runtime.EnforceRelationBounds | src/engine/typed_runtime.cpp:996-1031 | the two counting loops decide exactly whether the relation is admitted |
| TypedRelations.Runtime.ExpireRelations | src/engine/typed_runtime.cpp:764-771 | keeps exactly the relations that expire later or never, in order |
| TypedRelations.NoCreations | src/engine/typed_runtime.cpp:1261-1306 | a match of a system without creations leaves the relations alone, so the list a per-relation system visits does not change under it |
| TypedRelations.AdmitsIsExact | src/engine/typed_runtime.cpp:996-1031 | a relation is refused if and only if adding it would break a declared bound |
| TypedRelations.UnexpiredKeepsBounds | src/engine/typed_runtime.cpp:764-771 | expiry keeps the bounds and leaves nothing expired |
| TypedStorage.Storage.constructor | src/compiler/scenario_compiler.cpp:157-254 | after compilation every field of every component of every entity holds its declared value, or zero if there is none of the right type |
| TypedStorage.BuildTables | src/compiler/scenario_compiler.cpp:171-189 | the loops build, per component, the owners of its instances in order and the last instance of every entity |
| TypedStorage.TablesAgree | src/compiler/scenario_compiler.cpp:171-189 | instance_to_entity[entity_to_instance[e]] is e for every entity with the component and -1 marks the others; the inverse holds exactly when no entity type lists the component twice |
| TypedStorage.ListedTwiceBreaksInverse | src/compiler/scenario_compiler.cpp:180-187 | a concrete layer that lists a component twice and breaks the inverse |
| TypedStorage.InverseIffDistinct | src/compiler/scenario_compiler.cpp:180-187 | positions and entries are inverse both ways exactly without duplicates |
| TypedStorage.DistinctIffListedOnce | src/compiler/scenario_compiler.cpp:175-188 | instances have distinct owners exactly when no entity lists the component twice |
| TypedStorage.Storage.ReadComponentField | src/engine/typed_runtime.cpp:200-227 | a read returns the stored value of the right type, and fails exactly for an entity without the component |
| TypedStorage.Storage.WriteComponentField | src/engine/typed_runtime.cpp:229-278 | a write changes exactly one field of one component of one entity, and fails exactly for a missing component or a value of the wrong type |
| TypedStorage.Storage.FillField | src/compiler/scenario_compiler.cpp:224-251 | a declared value is stored if the buffer takes it and ignored otherwise |
| Aggregate.ComputeAggregate | src/experiment/experiment_runner.cpp:598-625 | the one-pass mean and variance equal the two-pass ones over the reals, the variance is non-negative, and min <= mean <= max with min and max among the samples |
| Aggregate.StepOfDeviations | src/experiment/experiment_runner.cpp:611-618 | one update of mean and m2 is exact |
| Aggregate.MeanMinimises | src/experiment/experiment_runner.cpp:620-623 | no other centre has a smaller sum of squared deviations than the mean |

## Left out

- YAML loading and emission, files and directories, command line, JSON and reports: plumbing over libraries; base64 text is taken to pass through YAML unchanged.
- Trace recording and statistics: they do not feed back into the state, except travel time and duration, which events carry as numbers.
- IEEE rounding, NaN and infinities, and the text conversions of the C++ library (`stod`, `llround` beyond halves away from zero): reals and opaque conversions stand for them. The agent runtime reads travel time and duration back from text with six decimals; the model carries them exactly.
- State fingerprints: a hash is not injective, so nothing strong is true of them.
- Extension authoring transforms, extension registries and semantic versions: bulk data construction. Propagation and expression functions are opaque parameters.
- Reference and duplicate-id checks of the validator: their outcomes are preconditions (`ValidWorld`, `ValidLayer`, `Valid` and the like).
- Dotted identifier rewriting: it renames only the first path segment, so it does not preserve meaning.
- The internals of std::priority_queue: a set with a least-element pop. The v1 scheduler is not modelled; events are given in its order. The typed runtime pops any event of least time and, among those, of highest priority; the handles that break further ties are not modelled.
- Agent set-up (default walking speed, locations, inventories): `Fresh` describes its outcome.
- The scoring formula of a purchase decision: weights are arbitrary positive numbers, and candidates are tried in index order instead of sorted by id.
- Which exception is thrown first, and its text, except where a result type keeps the kind: C++ leaves the order of the operands of a comparison open.
- A scenario with no memory slots for an agent: the source erases from an empty vector there, so at least one slot is required.
- Per-relation systems that create relations: the source appends to the list it iterates, so `TypedRelations.Valid` excludes them.
- Component writes and payloads in `TypedRelations`: what expressions evaluate to is arbitrary at every evaluation, which covers every content of the components; relations carry no payload, and a write or payload that fails shows as a condition that fails.
- Ticks and initial events of the typed runtime, and its defaults for limits: `TypedRelations.Runtime` starts from any set of pending events and takes the effective limits.
- Checkpoint data that end too early: the source goes on with unspecified sizes; the model reports failure and says nothing about the state then.
- The list of import specifications in the composition report, source hashes, and the merge of scenarios and extension blocks: in `ImportResolution` merging and prefixing are an opaque function that may fail. `NamespacedRuns` prefixes the variables of a v1 fragment on its own; other ids, trigger conditions, and the agent and typed layers are not part of it.
- Scanning.NextOperator: the chain of ifs for the operators of one level is one loop over the list of those operators.
- Checkpoint.StateBuffers.RestoreCheckpoint: the numeric blocks are read by one function each, where the source reads them with one stream operation each.
