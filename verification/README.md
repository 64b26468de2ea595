# devopsctl: what the compiler and the controller promise, proved

devopsctl compiles a small configuration language to a plan (a graph of nodes with targets),
runs the plan concurrently from a controller, and synchronises directory trees through an agent.
This project models the three parts that carry its promises and proves them with Dafny 4.11:

1. **The execution-graph scheduler.** `ExecutionGraph` builds the graph and runs Kahn's loop
   imperatively. `Scheduler` is `Run` as a labelled transition system, one label per channel
   operation or critical section; the two channels are logs with a read index, the outcome of a
   target is any value an oracle gives. `SchedulerFlow`, `SchedulerPhases` and `SchedulerCauses`
   are what every step keeps, `SchedulerDecisions` why each node was skipped or not,
   `SchedulerTheorems` the guarantees over every run, `SchedulerAnswers` what a record says about the
   answers behind it, `ScheduleIndependence` the agreement with a recursive evaluation that has no
   goroutines. `PartialRuns` drives a plan only part of the way; `WhenRace` and `Cancellation` use it
   to say exactly when a `when` breaks that agreement and when cancellation leaves a record unearned.
   `Orchestrator` is the same thing as a class with `Run`'s variables, whose loop picks any ready step.
2. **The compile-time language.** `Expr` has the tree, `evaluateExpr` and `typeCheckExpr`; `Types`
   proves type soundness, let folding and lowering, `EvalRules` that both follow rules written without
   them; `Functions` has function expansion and the reference interpreter `Run` that performs calls
   instead of expanding them, `FunctionReturns` when expansion returns; `Steps` has step expansion
   with and without parameters against the validator, `StepArguments` when it agrees with expansion by
   hand; `CycleFinder` the depth-first search behind both cycle checks; `Grammar` the expression
   grammar with its printer, `Derivations` when parsing reports nothing, and `Parser` the parser
   object; `Rename`, `StepRenaming` and `Imports` aliases and the import resolver; `Primitives` custom
   primitives with nested `foreach`, `PrimitiveRules` what they expand to as rules, and `PrimitiveIds`
   the ids and dependencies they put out.
3. **The file.sync protocol.** `FileTree` is the part of a filesystem the primitive touches, with
   the failures of each call. `FileSync` has Diff, the chunk stream, and Apply and Rollback as
   functions of tree and snapshots; `FileSyncEffects` their phases; `FileSyncTheorems` convergence;
   `FileSyncUndo` undoing; `FileSyncFootprint` what they leave alone and `FileSyncAnswers` what the answer
   is worth, on any tree and stream; `FileSyncAgent` is the agent as a mutable object, statement by
   statement.

`Digraph` (walks, cycles, rankings), `Plan` (nodes and counters) and `Wrappers` are shared.
`dafny verify dfyconfig.toml` checks everything.

## How to read the statements

- Lets, functions, steps, imports and primitives recurse without a bound in the code. Each function
  here takes the depth it may use (`fuel`, `depth`) and returns a value of its own (`Diverges`,
  `NeverReturns`, `Endless`, `None`) when that is not enough. Statements hold for every depth, and
  separate lemmas say when some depth is enough: exactly for steps, imports and functions whose bodies
  name no zero-argument function outside a call's arguments; for lets, acyclic ones return and typed
  ones are acyclic; for primitives, up to ranges that depend on data.
- Parameters of functions and steps stand for the *result* of their argument, errors included; so
  "means the same" covers failures and not only values.
- One set of primitive types is shared by validator and lowerer, as a parameter (in the code the
  validator's set at internal/devlang/validate.go:1196-1203 is larger than the lowerer's at
  internal/devlang/lower.go:337-340 and 680-683, so a validated type may be refused later).
- Order of map iteration, chunk boundaries, target outcomes and scheduling are left open: the
  statements quantify over them.

## Where the code falls short of its promise

Each of these is a lemma: the exact condition where one was found, a family of inputs elsewhere.

- A `when` condition adds no edge to the graph. It is harmless on a transitive dependency, and on a
  node that can never have changed by then: the node itself, one that depends on it, one without a
  known target. On any other it races: a plan with one such `when` has a run that skips the node and
  one that applies it (`WhenRace.ScheduleMatters`, `ScheduleIndependence.ScheduleDoesNotMatter`).
- `Run` on a plan without nodes waits for ever (`SchedulerTheorems.RunReturnsIffNonempty`).
- A target that meets the cancelled context contributes neither error nor change, and a node without
  an error is recorded applied. After a timeout a whole plan can be applied without one target having
  run (`Cancellation.CancelledCountsAsApplied`); beside a node that fails and halts the run, another
  can (`Cancellation.CutRun`). Without `when`, exactly the plans without a timeout in which every node
  that may halt the run stands before or behind every other are safe (`Cancellation.RecordsAreEarned`).
- An empty file has no chunk: it is never created or truncated, and is the only thing that keeps
  Apply from converging (`FileSyncTheorems.ApplyConverges`).
- A stream that simply ends is taken for a complete one: the file in hand is installed as far as it
  came and success is reported (`FileSyncTheorems.TruncatedApply`).
- The last file's failure is not reported: the error of closing what is still open when the stream ends
  is dropped. So Apply can answer success although a file that arrived is not in place, exactly when that
  file would land on a directory (`FileSyncAnswers.SuccessIsHonestIff`). Diff does not compare kinds, so
  one source file over a destination directory is enough (`FileSyncAnswers.DirectoryInTheWay`).
- Rollback does nothing without a marker, and trusts a marker left by an earlier run. It undoes
  exactly when a snapshot was taken, or a stale one is harmless, or nothing was written
  (`FileSyncUndo.RollbackUndoesApply`). A first synchronisation that only creates files is not undone.
- A secret reference has type string but is no string literal, so a well-typed expression fails
  exactly when evaluation meets a `+` with one (`Types.SecretConcatenation`).
- A secret is neither equal to anything nor different from it, itself included: `==` and `!=` are each
  other's opposite exactly when neither side stands for a secret (`EvalRules.ComparisonsOppose`,
  `EvalRules.SecretIsNotItself`).
- Node inputs are lowered without being typed or evaluated, and lowering joins whatever it is given as
  text. On folded lets the plan holds what an input means exactly when every `+` joins strings; a
  string joined with a secret becomes text that names the secret (`Types.LoweringAgreesWithEval`,
  `Types.TypedLowering`, `Types.SecretLoweredAsText`).
- Validation accepts comparisons, logic and conditionals in inputs; lowering refuses exactly these
  (`Types.LoweringAgreesWithEval`).
- A zero-argument function named without parentheses is expanded at top level and inside a call's
  arguments, but is left as it is in a body outside them. Expansion leaves nothing behind exactly when
  no body has such a name (`Functions.CleanIffTight`, `Functions.BareNameSurvivesInBody`).
- A node's arguments are used up by its step, but a step's arguments to its parent are laid over the
  result as inputs too. So wrapping a call in a step changes what it means
  (`StepArguments.WrappingChangesMeaning`): expansion agrees with writing the steps out by hand exactly
  for inputs whose nearest giver does not give them as an argument (`StepArguments.ArgumentsLeak`).
- Renaming on import rewrites parameters in bodies but not in parameter lists: over all bodies it is
  harmless exactly when no parameter is a module name or looks like a renamed one
  (`Rename.ParameterCapture`). A name the module does not define, a callee, or a parameter without its
  argument means something else as soon as the importer defines it (`Rename.ImporterCapture`,
  `Rename.ImporterCapturesCall`, `Rename.MissingArgumentCapture`).
- The defaults of a step's parameters are not renamed at all: one that mentions the module loses what
  it meant (`StepRenaming.DefaultLosesItsLet`).
- Renaming keeps the name of a node that already has a dot while rewriting what depends on it, so no
  dependency inside a module survives two nested aliases
  (`Rename.NestedAliasLosesDependency`, `Rename.RenamedDependencyResolves`).
- The primitive cycle check reports only real cycles but does not look inside `foreach`: whatever goes
  round there in literal lists passes it and never expands
  (`Primitives.CheckedCycleNeverExpands`, `Primitives.ForeachCycleIsMissed`).
- Expanding an instance of a custom primitive drops its own dependencies and its policy, and leaves
  what depends on it with a name no node has (`Primitives.InstanceOrderIsDropped`,
  `Primitives.DependencyOnInstanceDangles`). Inside a body the same happens to a dependency on a sibling
  of custom type or on a node in a `foreach` block (`PrimitiveIds.DependencyInBody`).
- A nested `foreach` names its nodes by its own variable only, so two elements of the outer block put
  out the same ids and the graph refuses the plan (`PrimitiveIds.NestedBlockRepeats`).
- Substituting a loop variable into a node name never ends when the element contains its own
  placeholder (`Primitives.SelfReferenceNeverReturns`). It may also never end when the element only has
  a dollar sign: with variable x, name `n-${x}x}` and element `x}x}${${` a placeholder is put together
  from the pieces again and again (`Primitives.AssembledPlaceholderNeverReturns`). It
  always ends for an element without a dollar sign, for one shorter than the placeholder, and for one
  that neither contains `${` nor completes it at its ends (`Primitives.PlainElementReturns`,
  `Primitives.ShortElementReturns`, `Primitives.InertElementReturns`); between these and the looping
  ones no exact condition is given.

## Model

| member | source | states |
|---|---|---|
| `ExecutionGraph.BuildGraph` | internal/controller/graph.go:17-48 | succeeds if and only if ids are distinct, every dependency is known and the dependency graph is acyclic; which error otherwise, with a real culprit; the graph holds every edge with its multiplicity |
| `ExecutionGraph.ExecGraph.AddNodes` | internal/controller/graph.go:24-30 | registers exactly the listed nodes at degree zero, or names an id that occurs twice |
| `ExecutionGraph.ExecGraph.AddEdges` | internal/controller/graph.go:32-40 | edges and counters mirror depends_on occurrence by occurrence, or the error names a dependency no node has |
| `ExecutionGraph.ExecGraph.DetectCycles` | internal/controller/graph.go:51-83 | Kahn's loop accepts exactly the acyclic graphs; dequeued nodes come after their dependencies; on refusal a cycle exists among the nodes never dequeued |
| `ExecutionGraph.NeverDequeuedHasCycle` | internal/controller/graph.go:64-80 | when the queue runs dry early, the nodes left over contain a concrete dependency cycle |
| `ExecutionGraph.OrderIsAcyclic` | internal/controller/graph.go:64-80 | a complete dequeue order is a topological ranking, so there is no cycle |
| `ExecutionGraph.ReleaseDependents` | internal/controller/orchestrator.go:420-425 | one pass over a node's out-edges takes each counter down once per edge and queues a node exactly when its last edge is paid |
| `Plan.PendingDrops` | internal/controller/orchestrator.go:420-425 | receiving a dependency pays for all its occurrences, repeated edges included |
| `Plan.ReleaseCounters` | internal/controller/orchestrator.go:420-425 | after the pass every counter has dropped by the node's multiplicity in the out-edges |
| `SchedulerFlow.ReceiveFlow` | internal/controller/orchestrator.go:415-431 | a receive keeps the channel and counter invariant and never overflows readyQueue |
| `SchedulerFlow.QueuedAfterDependencies` | internal/controller/orchestrator.go:414-431 | a queued node's transitive dependencies have all been received |
| `SchedulerFlow.SomethingQueued` | internal/controller/orchestrator.go:414-431 | while a node is not received, some node is queued and not received |
| `SchedulerTheorems.StepInv` | internal/controller/orchestrator.go:137-432 | every atomic step keeps the whole invariant: channels, records, targets and causes |
| `SchedulerPhases.StepRecords` | internal/controller/orchestrator.go:146-182 | a step writes only a record that is still open: a settled status and changed flag stay for good |
| `SchedulerTheorems.EveryRunIsSafe` | internal/controller/orchestrator.go:109-144 | in every reachable state each node was queued and sent at most once and only after its dependencies were received, no channel send can block, and no more targets are active than the semaphore allows |
| `SchedulerTheorems.EveryRunEnds` | internal/controller/orchestrator.go:137-432 | no interleaving is longer than a bound computed from the plan |
| `SchedulerTheorems.StepSpends` | internal/controller/orchestrator.go:137-432 | every step increases one measure of progress |
| `SchedulerTheorems.SomethingCanMove` | internal/controller/orchestrator.go:137-432 | until the completion loop has left, some step other than the timeout is ready: no deadlock |
| `SchedulerTheorems.RunReturnsIffNonempty` | internal/controller/orchestrator.go:414-431 | every run that stops has finished if and only if the plan has a node |
| `SchedulerTheorems.FailuresAreContained` | internal/controller/orchestrator.go:146-172 | for every interleaving and policy mix: all nodes end settled, transitive dependents of a failed or skipped node end skipped, the run is halted, and then cancelled, if and only if some node failed under a policy other than `continue`, errors are reported exactly when a node failed, and a node is skipped if and only if, when it was judged, the run had halted, a dependency had failed or been skipped, or its `when` was not met; the cause still shows at the end unless a change asked for came later |
| `SchedulerDecisions.StepJudged` | internal/controller/orchestrator.go:146-172 | each node is judged once, and what was seen then decides for good |
| `SchedulerTheorems.FinishedIsContained` | internal/controller/orchestrator.go:380-450 | the same from the invariant, for the imperative loop |
| `ScheduleIndependence.FinishedRunIsVerdict` | internal/controller/orchestrator.go:137-432 | with policies continue, no timeout and every `when` steady (on a transitive dependency, or on a node that cannot have changed by then), a finished run records the recursive evaluation of the graph, status and changed flag |
| `ScheduleIndependence.ScheduleDoesNotMatter` | internal/controller/orchestrator.go:137-432 | two finished runs against the same targets agree on every node |
| `ScheduleIndependence.PlayOut` | internal/controller/orchestrator.go:137-432 | every run extends to a finished one under any answers, keeping what was settled |
| `WhenRace.ScheduleMatters` | internal/controller/orchestrator.go:165-171 | for every plan with policies continue, no timeout and one `when`: all finished runs against the same targets agree if and only if that `when` is steady; otherwise, every target reporting a change, the node is skipped in one run and applied in another |
| `SchedulerAnswers.RecordsTellAnswers` | internal/controller/orchestrator.go:230-396 | in every run a settled node is recorded failed if and only if one of its targets answered with an error, changed if and only if one answered with a change; in a run that was not cancelled a node that ran has an answer from each known target |
| `Cancellation.RecordsAreEarned` | internal/controller/orchestrator.go:234-396 | in a plan without `when`, all finished runs have an answer from every known target of every node recorded applied or failed, if and only if no node has a known target, or there is no timeout and any two nodes with known targets, one of which may halt the run, reach one another |
| `Cancellation.UncutAnswersAll` | internal/controller/orchestrator.go:234-396 | the same direction for every run of every plan, with `when` or without |
| `Cancellation.CutRun` | internal/controller/orchestrator.go:234-396 | two nodes with known targets, one of which may halt the run, that do not reach one another: a finished run records the other although none of its targets answered |
| `Cancellation.CancelledCountsAsApplied` | internal/controller/orchestrator.go:234-396 | every plan with a timeout and without `when` has a finished run in which all nodes are applied and no target has run |
| `Orchestrator.RunWithRetry` | internal/controller/orchestrator.go:308-366 | the result is the first successful attempt, or the last one; attempts below two mean one |
| `Orchestrator.Controller.constructor` | internal/controller/orchestrator.go:102-131 | establishes an initial state with the zero-degree nodes queued |
| `Orchestrator.Controller.DispatchNext` | internal/controller/orchestrator.go:137-142 | starts the goroutine of the next queued node |
| `Orchestrator.Controller.DecideNode` | internal/controller/orchestrator.go:146-172 | halt check, dependency scan and `when` check are one atomic decision |
| `Orchestrator.Controller.RecordSkipped` | internal/controller/orchestrator.go:174-181 | records the cascade skip |
| `Orchestrator.Controller.StartNextTarget` | internal/controller/orchestrator.go:223-229 | hands out the next target under the semaphore, or passes over an unknown one |
| `Orchestrator.Controller.FinishTarget` | internal/controller/orchestrator.go:230-376 | adds one target's error and change, nothing if it saw the cancelled context |
| `Orchestrator.Controller.FinishNode` | internal/controller/orchestrator.go:380-396 | records failed or applied and the changed flag, halts and cancels when the node failed and its policy is anything but `continue` (through the invariant of `FailuresAreContained`) |
| `Orchestrator.Controller.SendDone` | internal/controller/orchestrator.go:408-408 | sends on doneChan and ends the goroutine |
| `Orchestrator.Controller.ReceiveDone` | internal/controller/orchestrator.go:415-431 | one round of the completion loop |
| `Orchestrator.Controller.PickReady` | internal/controller/orchestrator.go:137-432 | some guard holds in every unfinished state: the object never deadlocks |
| `Orchestrator.Controller.Run` | internal/controller/orchestrator.go:137-450 | the loop terminates for every choice of steps and answers, is a run of the transition system, ends contained with every skip decided as above, and fails exactly when a node is recorded failed |
| `Types.TypeSoundness` | internal/devlang/types.go:29-186 | a typed expression evaluates to a literal of its type; the one reachable internal error is `+` on a secret, none without secrets |
| `Types.SecretConcatenation` | internal/devlang/eval.go:38-110 | a well-typed expression, whatever its shape, fails to evaluate if and only if evaluation meets a `+` with an operand that stands for a secret |
| `Types.AcyclicLetsReturn` | internal/devlang/eval.go:38-55 | with acyclic lets one lookup depth suffices for evaluating and typing every expression |
| `Types.TypedLetsAreAcyclic` | internal/devlang/types.go:29-186 | lets that all type are acyclic: one that needs itself never types |
| `Expr.EvalGivesValue` | internal/devlang/eval.go:7-189 | what evaluation returns is fully evaluated |
| `Expr.ValueEvaluates` | internal/devlang/eval.go:7-189 | a value evaluates to itself under any lets |
| `Types.FoldLets` | internal/devlang/validate.go:683-712 | folding reports exactly the lets that do not type, or if all type exactly those that do not evaluate, and otherwise maps each let to its value; then the lets are acyclic; without secrets the type check alone decides |
| `Types.FoldingPreservesEval` | internal/devlang/validate.go:697-713 | every expression evaluates, or fails, alike against folded and raw lets |
| `Types.LoweringAgreesWithEval` | internal/devlang/lower.go:158-206 | on folded lets an expression is lowered if and only if its names resolve and it uses only literals, names, `+` and lists; then to its value if every `+` joins strings, and to something although it has no value if one does not |
| `Types.TypedLowering` | internal/devlang/lower.go:158-206 | for a well-typed expression the condition is that it joins no secret |
| `Types.SecretLoweredAsText` | internal/devlang/lower.go:188-202 | text joined with a secret has type string and no value, and is lowered to text that names the secret |
| `Types.PipelineKeepsMeaning` | internal/devlang/lower.go:158-206 | folding and then lowering puts into the plan the value the unfolded program means if every `+` joins strings, and text it does not mean otherwise |
| `EvalRules.EvalFollowsRules` | internal/devlang/eval.go:7-189 | evaluation gives exactly the values, and exactly the failures met first from left to right, of rules with a table for the operators; the branch not chosen is never asked |
| `EvalRules.TypeOfFollowsRules` | internal/devlang/types.go:29-186 | an expression has a type if and only if the typing rules give it that type |
| `EvalRules.ComparisonsOppose` | internal/devlang/eval.go:117-149 | on well-typed sides that evaluate, == is equality and != its opposite if neither side stands for a secret; otherwise both are false |
| `EvalRules.SecretIsNotItself` | internal/devlang/eval.go:117-149 | a secret compared with itself is neither equal nor different |
| `EvalRules.NumberText` | internal/devlang/lower.go:188-202 | a number joined to text is a numeral without leading zeros that reads as the number, with a minus sign if it is negative |
| `EvalRules.BooleanText` | internal/devlang/lower.go:188-202 | a boolean joined to text is its keyword |
| `EvalRules.ListText` | internal/devlang/lower.go:188-202 | the text of a list's elements is joined by single spaces |
| `Functions.ExpansionPreservesMeaning` | internal/devlang/lower.go:1776-1894 | where no body has a zero-argument name outside call arguments, what expansion returns has no user function left, is a fixed point of expansion, and evaluates as the interpreter that performs the calls, whatever the arities |
| `Functions.ExpandMeans` | internal/devlang/lower.go:1776-1839 | the same for one expression, by induction with substitution |
| `Functions.BindIsByPosition` | internal/devlang/lower.go:1782-1789 | the parameters bound are those of the positions given, each to the argument at its own position, as the interpreter reads it by index |
| `Functions.SubstMeans` | internal/devlang/lower.go:1842-1894 | substituting arguments into a body and expanding the result means running the body with the arguments' results as parameters; what substitution leaves has no user function if the body has no such name |
| `Functions.CleanIsFixed` | internal/devlang/lower.go:1776-1839 | an expression without user functions is left alone |
| `FunctionReturns.ExpansionReturnsIffAcyclic` | internal/devlang/lower.go:1776-1894 | under the same condition expansion returns on every expression if and only if no body needs itself, counting exactly the calls and bare names that are expanded for each number of arguments given |
| `FunctionReturns.ReturningIsAcyclic` | internal/devlang/lower.go:1776-1894 | one half for every program: a body that needs itself never returns |
| `FunctionReturns.AcyclicCallsReturn` | internal/devlang/lower.go:1776-1894 | a check for every program: if no function mentions itself, directly or through others, expansion returns on every expression |
| `Functions.CleanIffTight` | internal/devlang/lower.go:1842-1866 | where expansion returns, it leaves no user function behind if and only if no body has a zero-argument name outside call arguments |
| `Functions.BareNameSurvivesInBody` | internal/devlang/lower.go:1828-1834 | calling any function whose body has such a name leaves the name in the result, though at top level the same name is expanded |
| `Steps.StepTakesNearest` | internal/devlang/lower.go:464-507 | a step expands or fails exactly as its chain does, to a primitive type with the nearest definition of every input and of the policy |
| `Steps.NodeTakesNearest` | internal/devlang/lower.go:423-461 | the same for a node, itself first, keeping its id, targets and dependencies; a node whose type names no step is unchanged, one without a type is refused |
| `Steps.StepExpander.Expand` | internal/devlang/lower.go:464-507 | expansion with the cache equals expansion without it, and the cache stays exact |
| `Steps.ExpandNodeWithSteps` | internal/devlang/lower.go:423-461 | the imperative expansion of a node equals its specification |
| `Steps.BuildStepGraph` | internal/devlang/validate.go:1554-1567 | the loop builds the graph of non-primitive step types |
| `Steps.ValidatedStepsExpand` | internal/devlang/validate.go:1338-1358 | no cycle and every type resolved, if and only if every step expands |
| `Steps.ValidateSteps` | internal/devlang/validate.go:1338-1358 | no error is reported if and only if every step expands; cycles are reported if and only if there are any, each starts at a declared step; without one exactly the steps are named whose type is missing or names nothing |
| `Steps.SubstParamsMeans` | internal/devlang/lower.go:889-928 | substituting parameters means evaluating with the parameters shadowing lets |
| `Steps.StepInputsMean` | internal/devlang/lower.go:830-886 | every input of an expanded step evaluates, or fails, as its nearest definition in the frame of that step, parents' parameters bound in the child's frame |
| `Steps.NodeInputsMean` | internal/devlang/lower.go:766-827 | the same for a node, whose own inputs come first except the arguments of its step |
| `Steps.NodeArguments` | internal/devlang/lower.go:766-827 | input by input: an argument of the step comes from the step, any other input of the node stays, the rest comes from the step; a node whose type names no step is unchanged, one without a type is refused |
| `Steps.ExpandStepWithParams` | internal/devlang/lower.go:830-886 | the imperative expansion with parameters equals its specification |
| `Steps.BindInOrder` | internal/devlang/lower.go:783-792 | given value, else default, else unbound, for each parameter in order |
| `Steps.ParamsShadowLets` | internal/devlang/lower.go:889-897 | over folded lets, evaluating under parameters is evaluating in the lets extended by their values |
| `StepArguments.ArgumentsLeak` | internal/devlang/lower.go:804-878 | over all expressions steps of this shape may give, an input of the expanded node means what it means with arguments used up at every level, if and only if the node gives it itself or its nearest giver does not give it as an argument to its parent |
| `StepArguments.ExpandsAsByHand` | internal/devlang/lower.go:804-878 | the sufficient direction, for one set of steps |
| `StepArguments.WrappingChangesMeaning` | internal/devlang/lower.go:872-878 | a node that gives a path gets it with the parent's prefix, through a wrapping step it gets it without |
| `CycleFinder.FindCycles` | internal/devlang/validate.go:1569-1618 | the search returns nothing if and only if the graph is acyclic, and returns only simple closed walks |
| `CycleFinder.Finder.Dfs` | internal/devlang/validate.go:1575-1602 | a search restores the stack, keeps what was found and finishes its node after its successors |
| `CycleFinder.Finder.Report` | internal/devlang/validate.go:2453-2462 | a neighbour on the stack closes a cycle, cut from the path at its first occurrence |
| `CycleFinder.CycleNamesHaveEdges` | internal/devlang/validate.go:1340-1347 | every name of a reported cycle has an out-edge, so it is declared |
| `Grammar.ParsePrint` | internal/devlang/parser.go:1134-1355 | the canonical tokens of an expressible tree, before any token that cannot continue it, parse back to the tree without error and are consumed exactly |
| `Grammar.RoundTrip` | internal/devlang/parser.go:1134-1355 | the same at every precedence level |
| `Grammar.LeftOperand` | internal/devlang/parser.go:1166-1250 | the loops of `||`, `&&` and `+` associate to the left whatever follows |
| `Grammar.ParsedIffExpressible` | internal/devlang/parser.go:1134-1355 | the trees the parser can return, after errors too, are exactly the expressible ones |
| `Grammar.ReparseIsStable` | internal/devlang/parser.go:1134-1355 | parse, print and parse again gives the same tree |
| `Derivations.NoErrorIffDerived` | internal/devlang/parser.go:1134-1355 | parsing reports nothing if and only if the tokens derive, in a grammar written without the parser, a tree that the token behind does not extend; that tree is then the result; every error points at a token that is wrong there |
| `Derivations.DerivationIsParsed` | internal/devlang/parser.go:1134-1355 | one direction at every precedence level, optional and trailing commas included |
| `Derivations.TernaryIsSound` | internal/devlang/parser.go:1134-1355 | the other: what is parsed without error derives from exactly the tokens consumed |
| `Parser.Parser.constructor` | internal/devlang/parser.go:29-45 | the first two tokens are current and lookahead |
| `Parser.Parser.ParseTernary` | internal/devlang/parser.go:1139-1163 | the conditional rule: tree, tokens consumed and errors, a missing colon included |
| `Parser.Parser.ParseLogicalOr` | internal/devlang/parser.go:1166-1183 | the loop computes the grammar's left-associative rule |
| `Parser.Parser.ParseLogicalAnd` | internal/devlang/parser.go:1186-1203 | likewise |
| `Parser.Parser.ParseEquality` | internal/devlang/parser.go:1206-1230 | at most one comparison |
| `Parser.Parser.ParseConcat` | internal/devlang/parser.go:1233-1250 | the loop computes the grammar's left-associative rule |
| `Parser.Parser.ParsePrimary` | internal/devlang/parser.go:1253-1279 | literals, names, calls, secrets and lists, or an error and an empty string; `NoErrorIffDerived` says when |
| `Parser.Parser.ParseSecretRef` | internal/devlang/parser.go:1283-1296 | key and errors |
| `Parser.Parser.ParseFunctionCall` | internal/devlang/parser.go:1300-1328 | arguments up to the closing parenthesis or the end of input |
| `Parser.Parser.ParseListLiteral` | internal/devlang/parser.go:1330-1355 | elements up to the closing bracket or the end of input |
| `Rename.RenamingKeepsMeaning` | internal/devlang/resolve.go:326-363 | a renamed expression gives in the importer what the original gives in its module, unresolved names reported renamed, when parameters are apart and nothing is captured |
| `Rename.AliasedImportKeepsMeaning` | internal/devlang/resolve.go:144-157 | the same for the lets and functions of a whole declaration list placed among the importer's own |
| `Rename.PrefixedDefinitions` | internal/devlang/resolve.go:231-277 | renamed declarations define exactly the renamed lets and functions, and nothing else |
| `Rename.ParameterCapture` | internal/devlang/resolve.go:262-266 | every body over given parameters that meets the other hypotheses keeps its meaning if and only if no parameter is a module name or a renamed one |
| `Rename.IdentityLosesItsParameter` | internal/devlang/resolve.go:262-266 | a call of the renamed identity function returns its argument if and only if its parameter is no module name |
| `Rename.ImporterCapture` | internal/devlang/resolve.go:316-332 | a name the module does not define keeps its meaning if and only if the importer does not define it |
| `Rename.ImporterCapturesCall` | internal/devlang/resolve.go:350-360 | a call of a function the module does not define keeps its meaning, an error, if and only if the importer does not define it, among importers that call only their own functions |
| `Rename.MissingArgumentCapture` | internal/devlang/resolve.go:262-266 | a call of the identity function without an argument keeps its meaning if and only if the importer does not define the parameter's name |
| `Rename.RenamedDependencyResolves` | internal/devlang/resolve.go:280-307 | in the renamed list, each declaration in its place, a node's dependency on a node of the module names a node if and only if that name has no dot or a node already carries the new name |
| `Rename.NestedAliasLosesDependency` | internal/devlang/resolve.go:284-303 | after two nested aliases no dependency of the inner module names a node |
| `Rename.RenamedTargetResolves` | internal/devlang/resolve.go:280-307 | a node's target that the module declares names a target of the renamed list if and only if it did before |
| `Rename.RenamedTypeResolves` | internal/devlang/resolve.go:280-307 | a node's type that the module declares names a step afterwards if and only if it did before; a type or policy it does not declare stays |
| `Rename.NodeInputKeepsMeaning` | internal/devlang/resolve.go:280-307 | a node keeps its input names, and each input means in the importer what it meant in the module, under the hypotheses of `AliasedImportKeepsMeaning` |
| `Rename.NestedAreRenamed` | internal/devlang/resolve.go:254-277 | what stands inside primitives and modules, at any depth, is renamed like what stands outside, in its place |
| `Rename.CollectsDeclared` | internal/devlang/resolve.go:206-229 | the names to rename are exactly those some declaration other than an import, a version or a for-loop declares |
| `StepRenaming.NodeExpandsRenamed` | internal/devlang/resolve.go:231-307 | a renamed node over renamed steps expands to the renamed expansion, errors alike, when parameters are apart from the module's names and defaults mention none |
| `StepRenaming.DefaultLosesItsLet` | internal/devlang/resolve.go:248-252 | a step that passes its parameter's default on does so if and only if the default mentions no name of the module |
| `StepRenaming.PrefixedSteps` | internal/devlang/resolve.go:231-277 | renamed declarations define exactly the renamed steps |
| `Imports.ImportResolver.ResolveImports` | internal/devlang/resolve.go:90-182 | with caches and in-progress marks the result is the uncached flattening; errors mean there is none, and each names a file reached that cannot be loaded or reaches itself; the marks are restored |
| `Imports.ImportResolver.LoadFile` | internal/devlang/resolve.go:57-85 | cached or read, the same file |
| `Imports.ResolveFile` | internal/devlang/resolve.go:186-204 | succeeds if and only if every file reached loads and none reaches itself, and then returns the flattening; otherwise errors as above |
| `Imports.FlattensIffLoadable` | internal/devlang/resolve.go:90-182 | the simple form has a result exactly under that condition |
| `Imports.AdoptDecls` | internal/devlang/resolve.go:144-169 | the loop takes over the declarations in order |
| `Imports.AdoptIsRenaming` | internal/devlang/resolve.go:144-169 | imports and versions are dropped, the rest is kept, renamed as one list under an alias |
| `Imports.FlatteningIsUnique` | internal/devlang/resolve.go:90-182 | depth does not change the result |
| `Primitives.AcyclicUsesExpand` | internal/devlang/lower.go:1067-1253 | when no primitive may use itself, counting foreach blocks over names and nonempty literal lists, expansion of every instance returns, with built-in types only and ids below the instance's |
| `Primitives.ExpandIsOneWay` | internal/devlang/lower.go:1067-1114 | nothing of a custom type comes out, and every id extends the instance's |
| `Primitives.ExpandCustomPrimitive` | internal/devlang/lower.go:1067-1114 | the imperative expansion equals its specification, missing inputs and failed prepare blocks included |
| `Primitives.ExpandPrimitiveNode` | internal/devlang/lower.go:1118-1197 | ids, internal dependencies and inherited targets are rewritten as specified, custom types expanded further |
| `Primitives.ExpandForeachBody` | internal/devlang/lower.go:1200-1253 | the loop over the range equals its specification |
| `PrimitiveRules.ExpansionFollowsRules` | internal/devlang/lower.go:1067-1286 | expansion gives exactly the nodes, in order, and exactly the failure met first, of rules that say field by field what a body node stands for, bind the declared inputs and the loop variable, and read ranges |
| `PrimitiveRules.PlanFollowsRules` | internal/devlang/lower.go:1048-1063 | a whole plan is expanded node by node in its own order |
| `Primitives.CheckedCycleNeverExpands` | internal/devlang/validate.go:2414-2434 | an instance of a primitive on a reported cycle never expands |
| `Primitives.DirectUseIsTopLevel` | internal/devlang/validate.go:2416-2424 | the check sees a use exactly where a node of that type stands at the top of a body |
| `Primitives.FirmCycleNeverExpands` | internal/devlang/lower.go:1067-1253 | an instance on a cycle through top-level nodes and foreach blocks over nonempty literal lists, nested ones included, never expands |
| `Primitives.FirmCycleIsEndless` | internal/devlang/lower.go:1067-1253 | and goes on for ever where inputs, prepare blocks and ranges give no other error |
| `Primitives.ForeachCycleIsMissed` | internal/devlang/validate.go:2416-2424 | every program whose custom nodes stand in foreach blocks passes the check, whatever goes round in them |
| `Primitives.SelfUseInForeach` | internal/devlang/validate.go:2416-2424 | a primitive that uses itself in one block over any nonempty literal list is such a program, with a cycle |
| `Primitives.PlanIsBuiltIn` | internal/devlang/lower.go:1048-1063 | no custom type is left in the plan; every node stood there before or is named below one that did |
| `Primitives.DependencyResolves` | internal/devlang/lower.go:1048-1063 | a dependency of the expanded plan resolves if and only if a built-in node has that name or an instance puts one out; built-in nodes stay as they were |
| `Primitives.DependencyOnInstanceDangles` | internal/devlang/lower.go:1048-1063 | so a built-in node that depends on an instance keeps a dependency no node answers to |
| `Primitives.InstanceOrderIsDropped` | internal/devlang/lower.go:1118-1197 | an instance's own dependencies and policy have no influence on what it expands to |
| `PrimitiveIds.DependencyInBody` | internal/devlang/lower.go:1134-1151 | a dependency inside a body on a top-level node is rewritten and resolves if and only if a built-in node of that name is made; on any other node it keeps a bare name that no node of the expansion has |
| `PrimitiveIds.IdsAreDistinct` | internal/devlang/lower.go:1067-1253 | an expansion in which every instance makes nodes with different dotless names puts out every id once |
| `PrimitiveIds.BodyRepeats` | internal/devlang/lower.go:1067-1253 | and a body that makes two built-in nodes under one name puts out an id twice |
| `PrimitiveIds.NestedBlockRepeats` | internal/devlang/lower.go:1200-1253 | as a nested block over literal lists does as soon as the outer list has two elements |
| `Primitives.SubstituteVarInString` | internal/devlang/lower.go:1428-1440 | what is returned contains no placeholder |
| `Primitives.TemplateIsFilled` | internal/devlang/lower.go:1432-1440 | an element without a dollar sign takes the place of every placeholder of a name, and the pieces between stay |
| `Primitives.PlainElementReturns` | internal/devlang/lower.go:1432-1440 | an element without a dollar sign is substituted within as many rounds as the name has dollar signs |
| `Primitives.ShortElementReturns` | internal/devlang/lower.go:1432-1440 | an element shorter than the placeholder is substituted within as many rounds as the name is long |
| `Primitives.InertElementReturns` | internal/devlang/lower.go:1432-1440 | an element that contains no opening and completes none at its ends is substituted within as many rounds as the name has openings |
| `Primitives.SelfReferenceNeverReturns` | internal/devlang/lower.go:1432-1440 | an element containing its own placeholder keeps the loop going for ever |
| `Primitives.AssembledPlaceholderNeverReturns` | internal/devlang/lower.go:1432-1440 | a family of elements that do not contain the placeholder and keep the loop going for ever |
| `FileSync.Diff` | internal/primitive/filesync/diff.go:16-67 | each difference is listed once, under its kind, and nothing else |
| `FileSync.StreamFiles` | internal/controller/orchestrator.go:900-936 | fails exactly on a path that is no file; else sends each nonempty file's bytes in order under any chunking, nothing for an empty file, and the sentinel |
| `FileTree.MkdirAllEffect` | internal/primitive/filesync/apply.go:30-42 | creating directories adds only directories on the way and fails only at a file |
| `FileSyncAgent.Agent.FinishCurrentFile` | internal/primitive/filesync/apply.go:56-81 | closes, renames into place, or fails and leaves the file closed |
| `FileSyncAgent.Agent.ReceiveChunk` | internal/primitive/filesync/apply.go:83-144 | one round of the chunk loop |
| `FileSyncAgent.Agent.Apply` | internal/primitive/filesync/apply.go:22-203 | the object ends in the state the specification computes, for every change set and every stream; the answer is success if and only if nothing failed, and failed if and only if something did and nothing was applied |
| `FileSyncAgent.Agent.Rollback` | internal/primitive/filesync/rollback.go:19-82 | likewise, answer included, with and without a marker |
| `FileSyncTheorems.ApplyShape` | internal/primitive/filesync/apply.go:22-203 | after a session that may stop anywhere: exactly the carried files changed, the deleted are gone, the snapshot holds every overwritten or deleted file, the marker is there exactly then; what is reported applied is the directories, the carried files and the deletions, in order |
| `FileSyncTheorems.ApplyStatus` | internal/primitive/filesync/apply.go:191-198 | for every session: success if and only if the stream had no read error; with one, failed if and only if no directory, delivered file or deletion was applied, partial otherwise |
| `FileSyncTheorems.ApplySynchronises` | internal/primitive/filesync/apply.go:22-203 | where digests tell contents apart, a whole session leaves every source file in place if and only if it is nonempty or was there already, every source directory made, and files only the destination had kept, or removed with deleteExtra |
| `FileSyncFootprint.ApplyTouchesOnlyItsPaths` | internal/primitive/filesync/apply.go:22-203 | on any tree and fed any stream, chunks nobody asked for included, Apply touches only the paths to create, update or delete and the marker, and adds nothing else but directories |
| `FileSyncAnswers.SuccessIsHonestIff` | internal/primitive/filesync/apply.go:83-146 | on any tree and fed any stream: where Apply answers success, every requested file that arrived is in place if and only if the file still open when the stream ends would not land on a directory |
| `FileSyncAnswers.SuccessMeansDone` | internal/primitive/filesync/apply.go:29-42 | success also means that every directory is made and everything to delete is gone |
| `FileSyncAnswers.DirectoryInTheWay` | internal/primitive/filesync/apply.go:145-146 | a source file where the destination has a directory, sent in one chunk not flagged as last: success with nothing applied; flagged, the answer is failed |
| `FileSyncAnswers.MkdirsTell` | internal/primitive/filesync/apply.go:29-42 | on any tree each directory is reported once, and made unless reported as failed |
| `FileSyncAnswers.DeletesTell` | internal/primitive/filesync/apply.go:170-183 | on any tree each path to delete is reported once, as failed if it was not there or is there still |
| `FileSyncTheorems.TruncatedApply` | internal/primitive/filesync/apply.go:83-144 | fed any prefix of the chunks, without the sentinel, Apply reports success; every requested nonempty file is as in the source if and only if no chunk was lost |
| `FileSyncTheorems.ApplyConverges` | internal/primitive/filesync/diff.go:16-67 | fed the whole stream nothing fails and every requested nonempty file arrives; a second Diff is empty if and only if no requested file is empty |
| `FileSyncTheorems.ApplyConvergesWithDelete` | internal/primitive/filesync/apply.go:170-189 | with deleteExtra at most the marker is left to delete, exactly when a snapshot was taken |
| `FileSyncUndo.RollbackUndoesApply` | internal/primitive/filesync/rollback.go:19-67 | Rollback after Apply restores every file, absent ones included, if and only if a snapshot was taken, or a stale marker is harmless, or nothing was written |
| `FileSyncUndo.RollbackReportsAll` | internal/primitive/filesync/rollback.go:34-82 | on any tree a rollback with a marker reports each path it was to restore or remove exactly once, as applied or as failed |
| `FileSyncFootprint.RollbackTouchesOnlyItsPaths` | internal/primitive/filesync/rollback.go:19-67 | the same for a rollback, whatever its marker names |
| `FileSyncAgent.ApplyThenRollback` | internal/primitive/filesync/rollback.go:19-67 | the same on the running agent |
| `FileSyncEffects.WritePieces` | internal/primitive/filesync/apply.go:83-144 | chunks of one file end up as its content, however they are cut |
| `FileSyncEffects.DeletesEffect` | internal/primitive/filesync/apply.go:170-183 | the delete phase removes exactly the listed files and snapshots each |

## Left out

- Network, TLS, wire encoding, the agent server, builtin handlers, the store, hashing, time, printing,
  secrets providers, the execution context and the language server: a target's answer is an oracle,
  a digest an opaque function of the content, the snapshot directory's name a parameter that is new.
- Orchestrator.Controller.FinishNode: does not start RollbackLast after a failed node with policy
  rollback, because that runs over the store's history; the policy is modelled as halting only.
- Orchestrator.Controller.Run: one entry is kept per failed node where the code keeps one error per
  target, because only emptiness decides what Run returns; and a positive parallelism is assumed.
- Orchestrator.Controller.FinishTarget: resume and history-based skips appear as answers without an
  error, because which one is taken depends on the store.
- WhenRace.ScheduleMatters: is exact for plans with one `when`; for several, that each is steady is
  sufficient (`ScheduleIndependence.ScheduleDoesNotMatter`), because one that races may stand on a node
  another condition skips in every run.
- Cancellation.RecordsAreEarned: is exact for plans without `when`; with conditions its sufficient half
  holds (`Cancellation.UncutAnswersAll`), for the same reason.
- Mode and owner metadata, chmod and chown: Run passes none. Failures of write, close and rename
  other than those the tree explains; temporary files left behind by a failed rename; file modes.
- FileSyncAgent.Agent.Apply: directories are made in the order of the change set, not sorted, because
  creating parents makes the order immaterial; copying in place is not modelled as partial.
- FileSyncTheorems.ApplyConverges: assumes trees that agree on which paths are directories and a
  source without the marker's path, because Diff compares kinds only one way.
- The lexer, declaration parsing and error recovery: the model starts at tokens, a NUMBER token
  carries its value, and positions are token indices.
- Rename.AliasedImportKeepsMeaning: needs parameters apart from module names, calls with enough
  arguments and no capture by the importer, because without them the code changes meaning (the lemmas
  on capture give the inputs); the hypotheses on calls and capture are sufficient for a whole
  expression, exact for one name. Steps are compared by their expansion
  (`StepRenaming.NodeExpandsRenamed`). For-loops are kept as they are, as in the code; targets, policies
  and dependencies are renamed in the model without an evaluation to compare with.
- Imports.ImportResolver.ResolveImports: paths are already absolute, and a file that cannot be read or
  parsed is one that is not in the map.
- Primitives.ExpandPrimitiveNode: the prepare block is a parameter, because it reads the filesystem;
  input substitution and lowering are parameters too, because the theorems hold whatever they give.
  Contracts, probe, desired state and secrets are not carried.
- Primitives.SubstituteVarInString: strings only, not the fields of map elements.
- Steps.ExpandNodeWithSteps: values are copied, so the aliasing that deepCloneNode prevents is not
  modelled.
- Functions.ExpansionPreservesMeaning: says nothing of programs with a zero-argument name in a body
  outside call arguments, because expansion leaves the name behind there.
- FunctionReturns.ExpansionReturnsIffAcyclic: for such programs the two halves stand apart
  (`ReturningIsAcyclic`, `AcyclicCallsReturn`), because what a call leaves behind may be expanded later.
- The v0.1 to v0.4 pipelines, for-loop unrolling, fleets, contracts and the duplicate-name checks:
  each is one branch or one pass without an interaction to state.
