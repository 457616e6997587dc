# Verified model of the workflow engine

A Dafny model of the parts of the engine that are hardest to get right, with
proofs of what they promise.

| part | files |
|---|---|
| expressions: lexer, token cache, Shunting-Yard parser, lambdas, interpolation | `Tokens`, `Tokenizer`, `TokenWriting`, `TokenizerClass`, `ExpressionParser`, `ParserClass`, `ExpressionTrees`, `ExpressionProofs`, `ExpressionTheorems`, `MinimalPrinting`, `Groupings`, `OperatorLadder`, `LambdaSlices`, `ExpressionEngine`, `Interpolation`, `InterpolationErrors` |
| workflow graphs and their execution | `Graph`, `Workflow`, `SchemaValidator`, `References`, `ApprovalWarnings`, `StateMachine`, `RetryPolicies`, `Orchestrator`, `NodeOutcomes`, `RetryStuttering`, `RollbackRuns` |
| protocols with other actors between two awaits | `TaskQueue`, `TaskQueueProgress`, `TaskQueueLosses`, `TaskQueueOutcomes`, `TaskQueueWorkers`, `TaskQueueManager`, `InstanceStore`, `InstanceManager`, `InstanceMemory`, `WebhookDelivery`, `WebhookCleanups`, `WebhookRetries`, `WebhookRetention`, `WebhookManager`, `ConcurrencyControl` |
| validation against a schema | `DataValidator`, `DataIssues` |
| indexes kept consistent | `WorkflowVersions`, `DeadLetters`, `DeadLetterContents`, `DeadLetterOverlaps`, `DeadLetterQueue` |
| shared | `Basics`, `JsText`, `StableSort` |

Where the source changes state, a class has its fields, and each method is
proved equal to a function on the state before; lemmas are about that function.
Values, operators, registered functions, compiled patterns, node executions,
other writers and the clock are parameters, so each result holds for all of
them. Ids and contents are types of which only equality is known.

What the code does that a reader of its comments might not assume:

- A grouping parenthesis inside a call argument or a lambda body is an error:
  the delimited parse stops at its closing parenthesis (`ParseIsMeaningIff`,
  `GroupedArgumentFails`).
- The unreachable-node check does not follow approval targets, although the
  cycle check collects them (`WarningsRightIff`, `ApprovalTargetMissed`).
- A retry policy without `maximumAttempts` retries for ever, so the run is
  shown to end for policies with a limit (`SettlesIffLimited`).
- A queue created under the name of an existing one drops its pending tasks,
  awaited ones included (`CreateKeepsIff`); so does registering a worker for a
  name without queue, for the tasks routed to it before (`RegisterKeepsIff`,
  `RoutedTaskLost`). There is no third way (`NeverLostIff`).
- A node that is rolled back next to others lets the nested run complete the
  instance while the outer batch goes on; when another node of that batch then
  fails, the run throws and the instance stays completed
  (`ThrowLeavesCompletedIff`, `ThrowsCompleted`).
- `enum` compares arrays and objects by identity (`ListedArrayRefused`).
- A retry by hand does not look at the status of its delivery. It keeps the
  attempt maximum exactly when the delivery is at rest (terminal, so without
  timer or request), has attempts left, and loading is done (`RetrySafeIff`);
  a dead letter has none left, and a delivery being posted is not at rest
  (`RetryWhilePosting`). A cleanup already begun removes what was retried
  exactly if it lists it (`RemovalSafeIff`, `CleanupTakesRetried`).
- The constructor does not wait for loading, nor does src/api/router.ts:93: a
  delivery triggered meanwhile gets a second timer when loading ends, and can
  exceed the attempt maximum without any retry (`TriggerSafeIff`,
  `TriggerWhileLoading`).
- A crash while the record of an answer is being saved brings back the older one:
  a failed delivery is posted again without its delay, and one that was received
  is posted again (`RetriesInTimeIff`).
- An update that meets a conflict sends the caller's whole object again under
  the fresh version. What others committed before its first write is
  overwritten unread (`NothingOverwrittenIff`, `CommitOverwritten`). One that
  gives up puts in memory what it loaded last, which another may have passed
  (`MemoryCurrentIff`, `GivingUpPutsBack`).
- A push to a full dead-letter queue waits between evicting and appending, so
  overlapping pushes carry the queue past its capacity, and it stays there
  (`QueueAlways`, `SizeReached`, `PushNeverShrinks`). What is pushed while a
  clear waits is lost to memory (`StorageMirroredIff`, `PushedDuringClear`).
- Registering a worker dispatches nothing, and the end of a task dispatches only
  to its own queue: a task can stay pending beside a free worker
  (`AlwaysProgressingIff`, `RegistrationStrands`).
- A holder that asks again for a lock it has is given it again, so bodies of one
  holder id overlap (`MutualExclusionIff`, `ReusedHolderOverlaps`).
- Paths of array items at the root read `//0`, as the root path is `/`.

`dafny verify dfyconfig.toml` checks everything.

## Model

| member | source | states |
|---|---|---|
| Groupings.WellFormedIff | src/engine/ExpressionEvaluator.ts:809-1127 | Of all ways to put groups into a tree, outside call arguments and lambda bodies, exactly those in which every child binds tightly enough for its place, or is grouped, are read as the tree is meant in every environment and context: the operator table decides, both ways. |
| Groupings.FewestOfAll | src/engine/ExpressionEvaluator.ts:79-189 | Of all groupings of a tree that are read as it is meant, none has fewer groups than the one that groups a child exactly where it binds too loosely, which is read so too. |
| Groupings.SamePlaces | src/engine/ExpressionEvaluator.ts:809-1127 | Two groupings of one tree that print the same tokens are the same. |
| MinimalPrinting.FewestParenthesesParse | src/engine/ExpressionEvaluator.ts:79-189 | Every tree, printed with the fewest parentheses that precedence and associativity need, is parsed and evaluated to its meaning; no well-formed grouping of the tree, in which every child binds tightly enough for its place or is grouped, has fewer groups. |
| MinimalPrinting.ParenthesiseFewest | src/engine/ExpressionEvaluator.ts:79-189 | Grouping a child exactly where it binds too loosely gives at most as many groups as any well-formed grouping of the same tree. |
| OperatorLadder.ChainsParse | src/engine/ExpressionEvaluator.ts:79-189 | Every chain of literals, variables and parenthesised chains, with any prefixes, is parsed to the value its split at the loosest operator gives, by a ladder written down apart from the parser's table: or; and; the four equalities; the four comparisons; plus and minus; times, divide and remainder; power. Of several on the loosest rung the last one splits, but of powers the first. |
| OperatorLadder.ThreeOperands | src/engine/ExpressionEvaluator.ts:79-189 | For any two operators between three literals the ladder says which is applied first; on one rung the left one is, and of two powers the right one. |
| OperatorLadder.PrefixFirst | src/engine/ExpressionEvaluator.ts:175-188 | A minus or a negation before an operand applies before any operator, a power included. |
| OperatorLadder.ChainTextEvaluates | src/engine/ExpressionEvaluator.ts:1176-1203 | The text of such a chain, however it is written, evaluates to that value. |
| ExpressionTheorems.ParseIsMeaning | src/engine/ExpressionEvaluator.ts:809-1127 | For every well-formed tree whose groups stay outside call arguments and lambda bodies, the Shunting-Yard pass with its queue evaluation returns the denotation, or fails with the denotation's error. |
| ExpressionTheorems.ParseIsMeaningIff | src/engine/ExpressionEvaluator.ts:818-823 | Of a tree that has a meaning, the parser computes it if and only if no group lies inside a call argument or a lambda body; otherwise it reports mismatched parentheses. |
| ExpressionTheorems.StrayTokens | src/engine/ExpressionEvaluator.ts:836-1040 | A stray arrow, comma or parenthesis and an operator without meaning each end in their own error, whatever follows. |
| ExpressionTheorems.IncompleteFails | src/engine/ExpressionEvaluator.ts:1116-1166 | A missing operand, a missing operator, an open parenthesis and an empty expression each end in their own error. |
| ExpressionTheorems.GroupedArgumentFails | src/engine/ExpressionEvaluator.ts:818-823 | The least failing input: a registered function called with a grouped literal ends in mismatched parentheses, although the tree has a meaning. |
| ExpressionTheorems.UnsafeTree | src/engine/ExpressionEvaluator.ts:1116-1123 | An operand with a group in a wrong place ends in the mismatched-parentheses error from any parser state that may read it. |
| ExpressionProofs.ReadTree | src/engine/ExpressionEvaluator.ts:809-1127 | Reading an operand's tokens from any state of output queue and operator stack has the effect of appending its queue and pending operators, whatever follows. |
| ExpressionProofs.ReadMeansDenote | src/engine/ExpressionEvaluator.ts:1129-1166 | Running the queue an operand leaves puts exactly its denotation on the value stack. |
| ExpressionProofs.PopWhileFlushes | src/engine/ExpressionEvaluator.ts:1042-1059 | Popping for an incoming operator moves exactly the pending operators of the operand to its left that bind at least as tightly. |
| ExpressionTheorems.LambdaIsMeaning | src/engine/ExpressionEvaluator.ts:785-807 | Calling a lambda value gives the denotation of its body with the parameters laid over the context of its definition. |
| ExpressionTheorems.BindShadows | src/engine/ExpressionEvaluator.ts:796-799 | Each parameter is bound to its argument, a missing one to undefined, and of a repeated name the last binding wins. |
| ExpressionTheorems.BindKeeps | src/engine/ExpressionEvaluator.ts:796-799 | Names that are not parameters keep the value of the definition's context. |
| LambdaSlices.LambdaSliceMeaning | src/engine/ExpressionEvaluator.ts:785-807 | For any tokens and total functions: once a lambda body was read in place, calling the lambda returns what reading the body in place gives in the new context, and that reading takes the same tokens. |
| LambdaSlices.RunSpan | src/engine/ExpressionEvaluator.ts:809-1127 | The tokens a parse takes do not depend on the context nor on the values already in its queue. |
| LambdaSlices.RunCut | src/engine/ExpressionEvaluator.ts:801-804 | A parse cut off after the tokens it takes, or later, gives the same value; a stop token ends it as the end of the tokens does. |
| TokenWriting.TokenizeRoundTrip | src/engine/ExpressionEvaluator.ts:350-598 | However a list of tokens is written, strings in either quote with any escapes the rendering chooses, and white space only where a token would run on into the next, it is tokenised back to that list and the end token. |
| TokenWriting.StringsRead | src/engine/ExpressionEvaluator.ts:395-433 | Between single or double quotes any sequence of plain and escaped characters, of which only the backslash and the quote itself must be escaped, is read as what it stands for, whatever follows; without a closing quote the string ends with the text. |
| TokenWriting.SpellingsRead | src/engine/ExpressionEvaluator.ts:445-521 | Each operator, mark and keyword is read from its spelling, all of them listed, unless what follows runs on from it. |
| TokenWriting.CharacterClasses | src/engine/ExpressionEvaluator.ts:371-441 | Which characters numbers and names are made of, and which separate tokens, listed. |
| TokenWriting.TokenReadIff | src/engine/ExpressionEvaluator.ts:523-584 | A token at the front of any text is read back, with all that follows, if and only if what follows does not run on from it: no further digit or name character, and no longer operator. |
| TokenizerClass.Lexer.ReadString | src/engine/ExpressionEvaluator.ts:395-433 | The loop over an escaped string moves the position past it and returns what the specification of string bodies gives. |
| TokenizerClass.Lexer.NextToken | src/engine/ExpressionEvaluator.ts:523-584 | One call of the lexer agrees with the specification on the text not read yet, errors included. |
| TokenizerClass.Lexer.Tokenize | src/engine/ExpressionEvaluator.ts:586-598 | The whole loop agrees with the specification of tokenising. |
| ParserClass.Parser.ParseExpression | src/engine/ExpressionEvaluator.ts:809-1127 | The parser with its position and two stacks agrees with the specification from wherever it stands, and moves over exactly the tokens the specification takes. |
| ParserClass.Parser.TryParseLambda | src/engine/ExpressionEvaluator.ts:754-807 | The lambda header is recognised, or the position restored, as the specification has it; the value keeps the slice of body tokens. |
| ParserClass.Parser.ParseCallArguments | src/engine/ExpressionEvaluator.ts:850-877 | Arguments are read up to a token that is no comma, each as a lambda or an expression. |
| ParserClass.EvaluateRPN | src/engine/ExpressionEvaluator.ts:1129-1166 | The stack loop over a queue agrees with its specification, errors included. |
| ExpressionEngine.CacheTransparent | src/engine/ExpressionEvaluator.ts:612-648 | After any sequence of requests and clears the cache holds at most 2000 entries and every answer was what tokenising afresh gives. |
| ExpressionEngine.CacheHasLast | src/engine/ExpressionEvaluator.ts:612-648 | After any commands the cache has, oldest first, the last 2000 of the texts put in since it was cleared: those of at most 4000 characters that have tokens and were not among the last 2000. |
| ExpressionEngine.TokenCache.TokenizeCached | src/engine/ExpressionEvaluator.ts:624-643 | One request returns the tokens of the text and keeps the cache valid, evicting the oldest entry at the bound. |
| ExpressionEngine.Evaluate | src/engine/ExpressionEvaluator.ts:1176-1203 | Text is evaluated through cache, lexer and parser as the specification has it. |
| ExpressionEngine.EvaluateIsMeaning | src/engine/ExpressionEvaluator.ts:1176-1203 | However a tree is written out as text, it evaluates to its meaning from end to end. |
| ExpressionEngine.SpacedIsMeaning | src/engine/ExpressionEvaluator.ts:1176-1203 | Every tree with printable names and literals can be so written, and evaluates to its meaning. |
| Interpolation.InterpolationMeaning | src/engine/ExpressionEvaluator.ts:1443-1503 | On every object graph, cyclic or shared, the walk throws exactly when the unfolding has an object at nesting depth 100 or more; otherwise it returns the structural map of text interpolation over the unfolding, and nothing else is one. |
| Interpolation.ThrowsDeep | src/engine/ExpressionEvaluator.ts:1466-1478 | A throw at any depth means that an object lies deep enough, or that an object being walked is met again. |
| Interpolation.CycleDeep | src/engine/ExpressionEvaluator.ts:1473-1478 | An object met again below itself has objects at every nesting depth. |
| Interpolation.UnfoldingUnique | src/engine/ExpressionEvaluator.ts:1480-1497 | A value has at most one unfolding. |
| InterpolationErrors.ErrorsMean | src/engine/ExpressionEvaluator.ts:1466-1478 | The walk ends as too deep only if a hundred different objects are nested in one another, and as circular only if an object is nested in itself. |
| Interpolation.Interpolator.Interpolate | src/engine/ExpressionEvaluator.ts:1451-1503 | The recursive walk agrees with its specification and leaves the set of objects being walked as it found it, whether it returns or throws. |
| SchemaValidator.DetectCircularDependencies | src/engine/SchemaValidator.ts:698-787 | A circular dependency is reported exactly when the collected edge multigraph, duplicate edges and self-loops included, has a directed cycle, and the nodes named are those on or after a cycle, in key order. |
| SchemaValidator.BuildGraph | src/engine/SchemaValidator.ts:698-748 | In-degrees and adjacency lists are those of the collected multigraph. |
| SchemaValidator.KahnEnd | src/engine/SchemaValidator.ts:750-787 | When the queue runs empty the unvisited nodes are exactly those on or after a cycle. |
| SchemaValidator.ReleaseOne | src/engine/SchemaValidator.ts:762-773 | Releasing a successor keeps every in-degree equal to the number of edges from nodes not yet done, and queues a node once, when its last one is done. |
| SchemaValidator.DetectUnreachableNodes | src/engine/SchemaValidator.ts:792-845 | The warnings are exactly the nodes that no walk from the start node reaches over next, failure, conditional and default targets, in key order, on cyclic graphs and with dangling targets; the search ends. |
| ApprovalWarnings.WarningsRightIff | src/engine/SchemaValidator.ts:792-845 | The search does not follow approval targets: its warnings name exactly the nodes no walk over all targets reaches if and only if every existing approval target of a reached node is reached otherwise too. |
| ApprovalWarnings.ApprovalTargetMissed | src/engine/SchemaValidator.ts:792-845 | A failing input of two nodes: the target of an approval at the start, reached only by approving, is warned of as unreachable. |
| References.ValidateNodeReferences | src/engine/SchemaValidator.ts:515-635 | The reference errors are exactly the references of the definition to nodes that do not exist. |
| References.Validate | src/engine/SchemaValidator.ts:515-635 | Both checks pass exactly for definitions without dangling references and without cycles in the collected graph. |
| References.AcceptedTargets | src/engine/SchemaValidator.ts:515-635 | In an accepted definition failure and rollback targets exist, and failure targets are collected edges. |
| References.CollectedAreNamed | src/engine/SchemaValidator.ts:721-742 | A node is an edge's target in the cycle check exactly if it exists and the next, failure, conditional, default or, for approvals, approved or rejected field of the other names it. |
| References.VisitedAreNamed | src/engine/SchemaValidator.ts:805-835 | The reachability check follows exactly what next, failure, conditional and default fields name. |
| StateMachine.TerminalAbsorbs | src/engine/StateMachine.ts:26-58 | Completed and cancelled instances stay so under any events, and a failed one unless it is rolled back. |
| StateMachine.EventsLead | src/engine/StateMachine.ts:26-58 | Each event has one goal and is taken from its own statuses only: start from pending and rolled back, complete, fail and pause from running, rollback from running and failed, resume from paused, cancel from all but the finished ones. |
| RetryPolicies.RetriedIff | src/model/RetryPolicy.ts:31-51 | A failure is retried, with the node's counter one higher, if and only if the node has a policy with attempts left and the policy lists neither the error's type nor a part of its message; otherwise the node settles on it and the counters stay. |
| RetryPolicies.SettleSkipsFailures | src/engine/ExecutionOrchestrator.ts:359-419 | A node that fails as often as its policy allows, by failures the policy does not list, and then succeeds settles on that success, its counter raised by the failures. |
| NodeOutcomes.NodeLeads | src/engine/ExecutionOrchestrator.ts:341-505 | However often a node is tried again, within the run it then leads where its last attempt does: to the successors, else to its failure targets, else to its rollback target, else to the end of the run; its counter is higher by the retries. |
| NodeOutcomes.JumpsAllowed | src/engine/ExecutionOrchestrator.ts:432-434 | A jump back is made while the counter of the first active node is below the maximum of the node that fails, two if it has none, and runs the instance again from the target alone; the next one fails the instance. |
| RetryPolicies.SettlesIffLimited | src/model/RetryPolicy.ts:44-51 | Given a failure its policy does not list, a node settles whatever its attempts do if and only if its policy has a limit; zero, the default, means none. |
| Orchestrator.Instance.Execute | src/engine/ExecutionOrchestrator.ts:98-166 | The batch loop always ends, and with rollbacks, retries and fan-out together leaves the instance, counters and trace of the specified run; a normal return has completed it; a throw has failed it in a sequential or rollback-free run, where at most as many rounds run as there are nodes. |
| Orchestrator.Instance.RunBatch | src/engine/ExecutionOrchestrator.ts:118-165 | One round executes the batch in order, whatever the nested runs of rollbacks do to the instance meanwhile, then makes the de-duplicated successors the next batch, or completes the instance; the next batch is one step further on. |
| Orchestrator.Instance.ExecuteNode | src/engine/ExecutionOrchestrator.ts:280-505 | A node's successors, or its failure targets, are appended once after its retries; otherwise it rolls back, and goes on when the nested run returns, or fails the instance: all as the specified run has it. |
| Orchestrator.Instance.RollBack | src/engine/ExecutionOrchestrator.ts:938-1031 | A rollback raises the counter of the first active node and runs the instance again from the target alone, to the end of that nested run, unless the counter passes its bound, when the instance fails. |
| Orchestrator.BumpSpends | src/engine/ExecutionOrchestrator.ts:953-958 | Raising a counter below the limit of some node lowers the sum of unspent retries, the first part of the termination measure. |
| Orchestrator.RunEnds | src/engine/ExecutionOrchestrator.ts:110-166 | A run of an accepted definition without rollback targets has no active node after as many rounds as there are nodes, or an error ended it. |
| Orchestrator.BatchesDistinct | src/engine/ExecutionOrchestrator.ts:132-133 | Every batch of such a run is free of duplicates and made of existing nodes. |
| Orchestrator.PointForward | src/engine/ExecutionOrchestrator.ts:110-166 | Each node of the k-th batch ends a walk of k + 1 existing nodes over collected edges. |
| Orchestrator.DedupeDistinct | src/engine/ExecutionOrchestrator.ts:132-133 | De-duplication keeps exactly the nodes that occur, each once. |
| Orchestrator.DedupeOrder | src/engine/ExecutionOrchestrator.ts:132-133 | They keep the order in which they first occurred. |
| RollbackRuns.ThrowLeavesCompletedIff | src/engine/ExecutionOrchestrator.ts:98-166 | Of any accepted definition: a run that throws leaves the instance completed if and only if a rollback had returned into it since it was last started, and not the bound on rollbacks ended it; one that returns has completed it. |
| RollbackRuns.ThrowsCompleted | src/engine/ExecutionOrchestrator.ts:938-1031 | A failing input of three nodes: two run side by side, the first fails once and is rolled back to itself, its nested run completes the instance, and then the second fails: the throw leaves it completed. |
| RetryStuttering.RetriesStutter | src/engine/ExecutionOrchestrator.ts:359-419 | A run in which nodes fail any allowed number of times before succeeding visits the same batches as the run without failures: each batch is the de-duplicated successors of the one before, in batch order. |
| RetryStuttering.BatchStutters | src/engine/ExecutionOrchestrator.ts:280-301 | Within a batch each node adds its successors once and in batch order, however often it was retried. |
| TaskQueue.SubmittedOnce | src/engine/TaskQueueManager.ts:68-233 | In every reachable state each submitted task is settled at most once; while it is not, it is in exactly one pending list or worker slot; the settlements kept are exactly those still to be made. |
| TaskQueueOutcomes.CallersAreTold | src/engine/TaskQueueManager.ts:74-94 | Over every legal run: the caller of a submitted task is told a result if and only if the worker that has it returned, an error if and only if that worker threw, and a deletion if and only if its queue was deleted while the task was pending there. |
| TaskQueueWorkers.QueuesAreGiven | src/engine/TaskQueueManager.ts:49-100 | After any run a queue exists exactly if it was made, or a worker was registered for it, and it was not deleted since; its routing is the one given last since then. |
| TaskQueueWorkers.TasksArrive | src/engine/TaskQueueManager.ts:102-146 | A task enqueued or submitted goes to the queue the routing given for its queue chooses, or else to that queue: it waits there or a worker has it from there. |
| TaskQueueWorkers.WorkersAreGiven | src/engine/TaskQueueManager.ts:235-268 | After any legal run the workers are those registered and not unregistered since, in that order, each with the queues and the maximum of its last registration. |
| TaskQueueWorkers.FirstWorkerTakes | src/engine/TaskQueueManager.ts:186-203 | Dispatch gives the first pending task to the first worker that is registered for the queue and runs fewer tasks than it may; if there is none it does nothing. |
| TaskQueue.ActiveCountExact | src/engine/TaskQueueManager.ts:186-233 | A registration's active count equals its running tasks and, when positive, never exceeds its maximum. |
| TaskQueue.SubmitOnlyFifo | src/engine/TaskQueueManager.ts:186-203 | A list to which only submitted tasks came gives them out in the order in which they came. |
| TaskQueue.StepKeeps | src/engine/TaskQueueManager.ts:49-268 | Every enabled step between two awaits keeps the invariant: create, delete, enqueue, submit, completion or failure, register, unregister. |
| TaskQueue.CreateKeepsIff | src/engine/TaskQueueManager.ts:49-58 | Creating a queue keeps every awaited task in its place if and only if no caller waits for a task already pending under that name. |
| TaskQueue.CarefulIsEnough | src/engine/TaskQueueManager.ts:49-58 | With new queue names and routing to existing queues only, a step never creates a queue over pending tasks, and leaves no list without its queue. |
| TaskQueue.CarefulRunLegal | src/engine/TaskQueueManager.ts:49-268 | A whole run of such steps with fresh ids is legal, so that all results about legal runs hold for it. |
| TaskQueue.RecreatedQueueLosesTask | src/engine/TaskQueueManager.ts:49-58 | A concrete run: creating a queue again while a submitted task is pending leaves the caller waiting for a task that is nowhere. |
| TaskQueue.RegisterKeepsIff | src/engine/TaskQueueManager.ts:235-257 | Registering a worker keeps every awaited task in its place if and only if no caller waits for a task routed to one of its names that has no queue yet. |
| TaskQueueLosses.StepLosesIff | src/engine/TaskQueueManager.ts:49-257 | A step with fresh ids leaves somebody waiting for a task that is nowhere if and only if it creates a queue over an awaited pending task, or registers a worker for a name without queue to which one was routed. |
| TaskQueueLosses.NeverLostIff | src/engine/TaskQueueManager.ts:49-257 | Over whole runs of such steps: no caller is ever left waiting for a task that is nowhere, and the invariant holds in every state, if and only if no step of the run is one of those two. |
| TaskQueueLosses.RoutedTaskLost | src/engine/TaskQueueManager.ts:235-257 | A concrete run: a task is submitted and routed to a name without queue, a worker is registered for that name, and the caller waits for a task that is nowhere. |
| TaskQueue.RejectAllKeeps | src/engine/TaskQueueManager.ts:74-94 | Deleting a queue fails exactly the callers that wait for its pending tasks, each once. |
| TaskQueue.PutBackKeeps | src/engine/TaskQueueManager.ts:213-227 | A failed task nobody waits for goes back to the front of the list it came from, if that list is still the queue's, and the invariant is kept. |
| TaskQueueProgress.ProgressIff | src/engine/TaskQueueManager.ts:186-260 | Where no queue has both a pending task and a free worker that serves it, a step brings this about if and only if it registers a worker for a queue with pending tasks, or ends a task of a full worker that serves another queue with pending tasks while dispatch does not fill the place again. |
| TaskQueueProgress.AlwaysProgressingIff | src/engine/TaskQueueManager.ts:186-260 | Over whole legal runs: no task is ever left pending beside a free worker that serves its queue if and only if no step of the run is one of those two. |
| TaskQueueProgress.RegistrationStrands | src/engine/TaskQueueManager.ts:235-260 | A concrete run: a task is submitted, then a worker is registered for its queue; the caller waits, the task is pending, and the worker is free. |
| TaskQueueManager.Manager.DispatchTask | src/engine/TaskQueueManager.ts:186-205 | Dispatch starts the first pending task at the first worker with capacity, as its step has it. |
| TaskQueueManager.Manager.Resume | src/engine/TaskQueueManager.ts:207-233 | What follows a worker's return or throw is the completion step. |
| TaskQueueManager.Manager.Enqueue | src/engine/TaskQueueManager.ts:102-184 | Enqueue and submit are their steps; a submitted task is awaited before a worker can take it; a missing queue is an error. |
| TaskQueueManager.Manager.DeleteQueue | src/engine/TaskQueueManager.ts:68-100 | Deleting a queue is its step, callers failed in the order of the list. |
| TaskQueueManager.Manager.RegisterWorker | src/engine/TaskQueueManager.ts:235-260 | Registering a worker is its step: a new registration, and queues for names that have none. |
| InstanceStore.UpdateOutcome | src/engine/InstanceManager.ts:139-225 | Against any commits of others between storage calls: normal return means exactly one own write was committed, taking the stored version from v to v + 1; conflict means none was, and the last loaded snapshot is what is stored; a storage failure means at most one was. |
| InstanceStore.ConflictIffOutrun | src/engine/InstanceManager.ts:156-208 | With a stored instance and no failing call, the update conflicts if and only if its first version is stale and another writer commits between each reload and the next write. |
| InstanceStore.NothingOverwrittenIff | src/engine/InstanceManager.ts:156-208 | With a version that was read from storage: an update that returns normally stores the very next version, and so replaces no commit it did not read, if and only if nobody committed before its first write. |
| InstanceStore.CommitOverwritten | src/engine/InstanceManager.ts:156-208 | A concrete run: what another writer committed in between is replaced by an update that never read it and returns normally. |
| InstanceStore.VersionsGapFree | src/engine/InstanceManager.ts:139-225 | Over every interleaving of the calls of many writers the committed versions are consecutive, each by one writer, who has as many commits as updates that returned or lost their answer. |
| InstanceStore.WriterIsAttempts | src/engine/InstanceManager.ts:139-225 | Of many writers each does, call by call, what the retry loop does in the environment the others make for it: same stored instance, same history as it sees it, same outcome. |
| InstanceStore.InducedEnvironment | src/engine/InstanceManager.ts:139-225 | Whatever the others do between a writer's calls, there is an environment that does the same. |
| InstanceStore.CasKeeps | src/engine/InstanceManager.ts:161-174 | A compare-and-swap commits exactly when its version is the stored one and the call is not refused. |
| InstanceManager.Manager.UpdateInstance | src/engine/InstanceManager.ts:139-225 | The retry loop has the specified outcome; on success the caller's and the memory entry's version are v + 1, on conflict the caller's is unchanged and memory holds the last snapshot loaded, if any; every instance stays under its own id. |
| InstanceManager.Manager.ReplaceInstance | src/engine/InstanceManager.ts:130-133 | Replacing puts the instance in memory under its own id and changes no other entry; every instance stays under its own id. |
| InstanceManager.Manager.GetInstance | src/engine/InstanceManager.ts:85-87 | What is found under an id is the instance with that id, which rests on every operation keeping each instance under its own id. |
| InstanceMemory.MemoryCurrentIff | src/engine/InstanceManager.ts:139-225 | Over every interleaving of updates of one instance with each other and with other processes: from the end of an update until another begins, memory has what is stored if and only if nobody committed since the last storage call of that update took effect, and else is behind by as many versions as there were commits since. |
| InstanceMemory.MemoryIsCallers | src/engine/InstanceManager.ts:139-146 | From the begin of an update until one ends, memory has the caller's object of the update begun last. |
| InstanceMemory.CallsBounded | src/engine/InstanceManager.ts:156-208 | Over every interleaving an update makes at most two storage calls for each of its retries, every other one a write, and none without retries. |
| InstanceMemory.GivingUpPutsBack | src/engine/InstanceManager.ts:210-223 | A concrete run: an update that gives up puts the snapshot it loaded into memory after another one has stored the next version and returned, so memory ends one version behind. |
| WebhookDelivery.DeliveryLifecycle | src/api/WebhookManager.ts:594-771 | In every state reachable without unsafe retries, and without triggers before loading is done, attempts are at most five and fit the status (scheduled for retry strictly between none and all, dead-lettered exactly at the maximum), and a delivery has a timer or is in flight, not both, exactly while it is not terminal and loading is done. |
| WebhookDelivery.AttemptsAreRequests | src/api/WebhookManager.ts:622-771 | As many requests were begun as attempts are counted, plus the one being posted: never more than the maximum. |
| WebhookDelivery.OneInFlight | src/api/WebhookManager.ts:566-620 | No two suspended calls hold the same delivery. |
| WebhookDelivery.TerminalStays | src/api/WebhookManager.ts:186-231 | A terminal record is changed only by a retry of its own, and a record is removed, with its timer and from storage, only by a cleanup that comes to it in its list; a restart goes back to what was saved. |
| WebhookDelivery.StepKeeps | src/api/WebhookManager.ts:155-231 | Every step between two awaits keeps the invariant: a trigger once loading is done, a save landing, a timer, an answer, cleanup, removal, restart, resume, and a safe retry by hand. |
| WebhookRetries.AnswerOutcome | src/api/WebhookManager.ts:662-770 | An answer makes the record successful; a failure schedules a retry, and the fifth dead-letters it; either way one attempt more is counted. |
| WebhookRetries.FireOutcome | src/api/WebhookManager.ts:622-660 | A timer begins a request if the webhook is active; otherwise it gives the delivery up without one. |
| WebhookRetries.RetryDelays | src/api/WebhookManager.ts:617-620 | In every such state a scheduled retry is due one, two, four or eight seconds after the record was changed, by its attempts, and its timer is no earlier; the waits double up to thirty seconds. |
| WebhookRetries.TimersOnTime | src/api/WebhookManager.ts:594-615 | A timer is set to when the delivery is due, or to now if that is past, when its record was saved and, after a restart, when loading ends. |
| WebhookRetries.RetriesInTimeIff | src/api/WebhookManager.ts:576-660 | After an answer no timer of the delivery fires before its retry is due, and none ever if it was received or given up, whatever else happens short of a retry by hand, crashes included, if and only if storage has no unfinished record of it that is due sooner. |
| WebhookRetries.SavedRetriesInTime | src/api/WebhookManager.ts:712-731 | And always if the process does not crash before the new record is saved. |
| WebhookDelivery.RetrySafeIff | src/api/WebhookManager.ts:473-491 | After a retry by hand no run without unsafe retries and early triggers exceeds the attempt maximum if and only if the record was terminal, so had no timer and nothing in flight, had attempts left, and loading was done; the code looks at none of these. |
| WebhookDelivery.TriggerSafeIff | src/api/WebhookManager.ts:566-594 | After a trigger no such run exceeds the attempt maximum if and only if loading was done when it came; the code does not look at that either. |
| WebhookDelivery.AttemptsBoundedIff | src/api/WebhookManager.ts:473-594 | Over whole runs with any triggers and any retries by hand: the maximum holds in every state, and in whatever may follow it, if and only if every retry of the run was safe and every trigger came when loading was done. |
| WebhookDelivery.RetryWhilePosting | src/api/WebhookManager.ts:473-491 | A reachable failing input: a delivery whose first request is being posted, with attempts left, is retried, and the attempts can exceed the maximum. |
| WebhookDelivery.TriggerWhileLoading | src/api/WebhookManager.ts:66-82 | A reachable failing input without any retry: a delivery triggered while a new process still loads is given a second timer when loading ends, and its attempts can exceed the maximum. |
| WebhookCleanups.RemovalSafeIff | src/api/WebhookManager.ts:186-222 | After a safe retry no run has a cleanup remove an unfinished delivery if and only if no unfinished cleanup lists the one retried; the runs are those whose retries are safe and of deliveries not so listed. |
| WebhookCleanups.RunsKeptIff | src/api/WebhookManager.ts:186-222 | Over whole runs with any triggers and retries: attempts stay bounded and cleanups remove nothing unfinished, in every state and whatever may follow, if and only if every trigger came when loading was done and every retry was safe and of a delivery no unfinished cleanup listed. |
| WebhookCleanups.CleanupsTakeTerminalIff | src/api/WebhookManager.ts:186-222 | The same for cleanups alone, over whole runs whose retries are safe and whose triggers come after loading. |
| WebhookCleanups.RemovedIsTerminal | src/api/WebhookManager.ts:186-222 | In such runs only the cleanup that comes to a record in its list removes it, and it is terminal then. |
| WebhookRetention.RecentIsKept | src/api/WebhookManager.ts:202-222 | A cleanup lists only finished records last changed before its cutoff, and what it removes, however much later, still is one. |
| WebhookDelivery.CleanupTakesRetried | src/api/WebhookManager.ts:202-222 | A reachable run in which a cleanup removes a delivery that was retried after it was listed, while its save is in flight. |
| WebhookManager.Manager.ProcessDelivery | src/api/WebhookManager.ts:622-640 | A timer removes itself and posts the delivery, or fails it when the webhook is missing or inactive. |
| WebhookManager.Manager.RequestDone | src/api/WebhookManager.ts:662-770 | An answer makes the record successful, schedules a retry, or dead-letters it at the maximum. |
| WebhookManager.Manager.RetryDelivery | src/api/WebhookManager.ts:473-491 | A retry by hand is its step, whatever the status; an unknown id is an error and changes nothing. |
| WebhookManager.Manager.BeginCleanup | src/api/WebhookManager.ts:202-211 | A cleanup lists exactly the terminal records older than the cutoff, each once. |
| WebhookManager.Manager.ResumePendingDeliveries | src/api/WebhookManager.ts:155-164 | After loading every delivery still to be made gets its timer, and no other. |
| DataValidator.ValidIffSatisfies | src/engine/DataValidator.ts:53-181 | A value has no issues if and only if it satisfies the schema (JSON Schema Validation 2020-12, sections 6.1.1, 6.1.2, 6.2.2, 6.2.4, 6.3.1-6.3.3, 6.5.3; Core 2020-12, sections 10.3.1.2 and 10.3.2.1) and no array or object meets a list of values. |
| DataValidator.ScalarListsDecide | src/engine/DataValidator.ts:79-85 | With schemas that list scalars only, the validator decides conformance. |
| DataValidator.ListedArrayRefused | src/engine/DataValidator.ts:79-85 | A listed array is refused although it is equal to a listed value: membership is by identity. |
| DataIssues.IssuesAreBroken | src/engine/DataValidator.ts:53-168 | An issue is reported if and only if it is wrong at a place the schema comes to: the type, the list of values, a bound, the pattern, the email form or a required field, at the path of that place; parts of a value of the wrong type are not looked at. |
| DataValidator.IssuesUnderPath | src/engine/DataValidator.ts:135-167 | Every issue is reported at the path of the value, or at a path that continues it after a separator. |
| DataValidator.ValidateValue | src/engine/DataValidator.ts:53-168 | The accumulator passed down the recursion grows by exactly the issues of the value. |
| DataValidator.ValidateAgainstSchema | src/engine/DataValidator.ts:173-181 | The verdict is conformance, and the issues are those of the specification. |
| ConcurrencyControl.MutualExclusionIff | src/engine/ConcurrencyControl.ts:54-118 | In every run bodies on a resource never overlap if and only if no holder id is used again while its body runs, and whoever asks for a lock finds the body that has the resource, if any, before its lock expires. |
| ConcurrencyControl.MutualExclusion | src/engine/ConcurrencyControl.ts:146-166 | If no holder id is used twice at a time and every body ends before its lock expires, two bodies on a resource never overlap, in any interleaving with cleanup and a monotone clock. |
| ConcurrencyControl.LateReleaseHarmless | src/engine/ConcurrencyControl.ts:96-118 | However late a body ends, its release takes away no lock but its own. |
| ConcurrencyControl.ExpiredBodiesOverlap | src/engine/ConcurrencyControl.ts:62-78 | A body that outlives its lock overlaps with the next holder's. |
| ConcurrencyControl.ReusedHolderOverlaps | src/engine/ConcurrencyControl.ts:66-72 | A holder id used twice renews the lock: both bodies run at once, and the end of the first takes the lock from the second. |
| ConcurrencyControl.Controller.AcquireLock | src/engine/ConcurrencyControl.ts:54-91 | A lock is acquired, or renewed, for the time given or else the default one, unless another holder's has not expired. |
| ConcurrencyControl.Controller.ReleaseLock | src/engine/ConcurrencyControl.ts:96-118 | Only the holder's own lock is released; a missing one counts as released. |
| ConcurrencyControl.CleanupInvisible | src/engine/ConcurrencyControl.ts:256-270 | Cleanup leaves no expired lock and changes for nobody, now or later, whether a resource can be acquired. |
| ConcurrencyControl.Controller.CleanupExpiredLocks | src/engine/ConcurrencyControl.ts:256-270 | Cleanup removes exactly the expired locks. |
| WorkflowVersions.CompareTotalPreorder | src/engine/WorkflowVersionManager.ts:143-157 | Comparison is a total preorder on zero-padded component lists: zero exactly for equal padded lists, antisymmetric in sign, transitive. |
| WorkflowVersions.DifferenceMeans | src/engine/WorkflowVersionManager.ts:144-156 | The sign of the comparison tells the lexicographic order of the padded lists. |
| WorkflowVersions.CompareVersions | src/engine/WorkflowVersionManager.ts:143-157 | The loop over components computes the comparison. |
| WorkflowVersions.PrintedVersionsCompare | src/engine/WorkflowVersionManager.ts:143-157 | Versions of numbers between dots compare as the lists of the numbers do, number by number, zeros for those missing. |
| WorkflowVersions.SuffixIgnored | src/engine/WorkflowVersionManager.ts:144-145 | What follows the number of a part, as in a pre-release, is ignored. |
| WorkflowVersions.LatestAlways | src/engine/WorkflowVersionManager.ts:17-45 | After any sequence of register, deleteVersion and deleteWorkflow each version gives what was registered under it last, and the latest version of a workflow is a registered one that none exceeds, present exactly when any version is. |
| WorkflowVersions.GetLatest | src/engine/WorkflowVersionManager.ts:50-65 | Asking without a version gives a registered workflow whose version no registered one exceeds, whenever there is one. |
| WorkflowVersions.RegisteredUnder | src/engine/WorkflowVersionManager.ts:17-45 | A workflow without a version, or with an empty one, is found under 1.0.0 once registered, any other under the version it has. |
| StableSort.SortSorts | src/engine/WorkflowVersionManager.ts:70-74 | Sorting by any comparison that is a preorder, as for listed versions and restored letters, permutes a list into order, ties in their old order. |
| WorkflowVersions.VersionManager.RegisterWorkflow | src/engine/WorkflowVersionManager.ts:17-45 | Registering is its step: an empty version counts as 1.0.0, and the latest moves only to a strictly greater version. |
| WorkflowVersions.VersionManager.DeleteOneVersion | src/engine/WorkflowVersionManager.ts:93-119 | Deleting a version is its step: the latest is found again when it was deleted, and the workflow goes with its last version. |
| DeadLetters.QueueAlways | src/dlq/DeadLetterQueue.ts:45-361 | Over every interleaving of push, pop, remove, clear and their awaits on a restored queue: ids are distinct; entries and waiting pushes are at most the capacity, or what was restored, or one, plus the most pushes that waited when another began; what was popped or evicted left in order of arrival before all that is there; no id is issued twice or was restored. |
| DeadLetterContents.LettersMove | src/dlq/DeadLetterQueue.ts:124-361 | After any step exactly those entries are in the queue that were and did not leave, and that came: the oldest leaves by a pop or a push at capacity, one by its removal, all when a clear goes on; one comes by a push, or when a push that waited goes on. |
| DeadLetterContents.WaitsMove | src/dlq/DeadLetterQueue.ts:162-176 | A push at capacity waits until it goes on, and so does a clear; what departed in order is what was popped or evicted. |
| DeadLetterOverlaps.SizeReached | src/dlq/DeadLetterQueue.ts:162-176 | That bound is reached: for every capacity and every number of waiting pushes some run ends with exactly so many entries and no push waiting. |
| DeadLetterOverlaps.PushNeverShrinks | src/dlq/DeadLetterQueue.ts:162-176 | A queue above its capacity stays above it whatever is pushed: a push evicts one and appends one. |
| DeadLetterOverlaps.StorageMirroredIff | src/dlq/DeadLetterQueue.ts:324-361 | Over every such interleaving storage never has an entry that memory has not if and only if every clear finds storage empty when its deletions are done. |
| DeadLetterOverlaps.PushedDuringClear | src/dlq/DeadLetterQueue.ts:351-358 | A concrete run: what is pushed while a clear waits is dropped from memory, counted nowhere as removed, and still stored. |
| DeadLetters.SuffixOfId | src/dlq/DeadLetterQueue.ts:86-89 | The number after the last underscore of an issued id is its counter. |
| DeadLetters.NewId | src/dlq/DeadLetterQueue.ts:126-131 | A new id differs from every restored or issued one. |
| DeadLetterQueue.Queue.RestoreFromStorage | src/dlq/DeadLetterQueue.ts:79-92 | Restoring sorts by time of failure, rebuilds the index and continues the counter from the highest number restored. |
| DeadLetterQueue.Queue.PushEntry | src/dlq/DeadLetterQueue.ts:124-182 | Push takes a new id and appends under it, array and index alike; at capacity it first evicts the oldest entry and waits. |
| DeadLetterQueue.Queue.FinishPush | src/dlq/DeadLetterQueue.ts:166-176 | A push that waited appends its entry to what array and index are by then. |
| DeadLetterQueue.Queue.PopOldest | src/dlq/DeadLetterQueue.ts:187-205 | Pop takes the oldest entry out of array and index. |
| DeadLetterQueue.Queue.RemoveEntry | src/dlq/DeadLetterQueue.ts:288-319 | Removal takes the entry with the id out of array and index, and says whether there was one. |
| DeadLetterQueue.Queue.BeginClear | src/dlq/DeadLetterQueue.ts:351-356 | A clear counts the entries and has each deleted from storage; array and index stay until it goes on. |
| DeadLetterQueue.Queue.FinishClear | src/dlq/DeadLetterQueue.ts:357-360 | Then it empties array and index, whatever is in them by now, and returns the number counted before. |
| DeadLetterQueue.Queue.UpdateStatus | src/dlq/DeadLetterQueue.ts:420-443 | The index reaches the very entry in the array: its status changes there, and nothing else does. |
| DeadLetterQueue.Queue.IncrementRetry | src/dlq/DeadLetterQueue.ts:448-467 | The retry count of the entry in the array goes up by one; a missing id is an error. |

## Left out

- Pipe operator: the model answers with an error of its own; the source clears the operator stack and reads the rest as an argument (src/engine/ExpressionEvaluator.ts:999-1032).
- Array literals, method chaining and indexing: the lexer never produces their tokens (src/engine/ExpressionEvaluator.ts:577).
- Merging of adjacent hyphenated identifiers, context values that look like operator tokens, and traces.
- OperatorLadder.ChainsParse: calls and lambdas are not operands of its chains; ExpressionTheorems.ParseIsMeaning has them, by the parser's own table.
- Numeric literals keep their text: floating-point values and arithmetic are parameters. Characters are Unicode scalars, not UTF-16 units.
- The function library, property lookup and the regular expressions of text interpolation are parameters; own keys named `__proto__` in interpolated objects.
- Checks of the validator on the schema, node types, node configurations and expressions: they look at one field or node at a time, without the graph.
- Hooks, spans, metrics, logging, timers, event waits and leases of the orchestrator; its recursive advance, which the batch loop never uses; pause, resume and migration.
- InstanceManager.Manager.UpdateInstance: the search index is not modelled, nor a caller changing its object while the update waits; what updates of the same instance in one process do to each other's memory entry is stated by InstanceMemory instead.
- Storage is modelled by what its calls promise; the compare-and-swap succeeds exactly when the versions match (src/engine/InstanceManager.ts:167-168).
- Webhook and dead-letter saves do not fail. A webhook save reaches storage when its call goes on; webhook removals and all dead-letter calls reach it when they are made.
- The bulk retry of webhook deliveries, which retries one after the other those that failed or were dead-lettered.
- HTTP requests, signatures, webhook records, cleanup timers and their status, and the dead-letter push of a delivery.
- WebhookDelivery.AttemptsAreRequests: counts requests since the delivery was created or last loaded; a crash forgets attempts that were not saved.
- Semaphores and the back-off of lock retries: a failed attempt to acquire a lock changes nothing, so a retry is another attempt.
- DataValidator.ValidIffSatisfies: numbers are finite, lengths count characters, and names inherited from the object prototype are not fields.
- WorkflowVersions.CompareTotalPreorder: components are unbounded integers; dates and statistics are not kept.
- InstanceMemory.MemoryCurrentIff: storage calls do not fail there, the instance is stored, and no update begins after the last end it speaks of; failing calls and a missing instance are those of InstanceStore.
- WebhookDelivery.TriggerSafeIff: after a restart the saved deliveries are in memory at once, and get their timers when loading ends.
- Redis branches, listing and statistics of the dead-letter queue; restored ids are distinct, as they key the stored records.
- Dry runs, event deduplication, search attributes, sticky execution, the workflow registry, the parallel executor, servers, configuration and the user interface.
