# Connector Fabric Manager: verification model

A Dafny model of the algorithmic parts of Connector Fabric Manager, with proofs of what they promise. Each module says
in its first lines which files of the repository it models.

## What is modelled

**The orchestration engine.** An orchestration is one record in a compare-and-swap key-value store. Activities travel as
messages that are delivered at least once, and any number of executors and callers of Execute race on the record.
`Orchestrations` holds the record and its read-only questions. `Engine` is a step system: every read, write, publish,
acknowledgement, crash and panic is one event, events of different processes interleave freely, and writes may conflict,
fail, or be applied without an answer. `EngineSafety`, `EngineProgress`, `EngineTerminal`, `EngineCounts`, `EngineRetry` and
`EngineHandOver` prove that every event keeps an invariant, each under its own hypothesis; `EngineTheorems` states what
follows for all runs, and `EngineLimits` gives, for each hypothesis, a reachable state that shows why it is needed.
`EngineWrites` says field by field what writes leave in the record and where handlers go on. `Messaging` and `Executors` are
the imperative code: each operation on the store or the stream requires that the step system is at just that operation
with just those arguments, so that a handler is a run of the step system among arbitrary steps of others.

The hypotheses, which are those of the code:

- `Calm`: no panic, no message reaches its delivery limit, and the write of a fatal error succeeds.
- `OneHandler`: a message is not delivered while its activity is being handled, nor for the last time.
- `OneWriter`: a message is not delivered while another handler of its activity may still merge its copy into the record,
  nor for the last time.
- `Retriable`: no message is delivered for the last time, and activities report no fatal errors of their own.
- `Solo`: a message is not delivered while any other handler may still merge its copy into the record, nor for the last
  time, and the write of a retriable or fatal error succeeds.

**The graph kernel.** `Dag` has the depth-first search with its shared maps, Kahn's sort and the grouping into levels;
maps are iterated in an arbitrary order. `Levels` proves what the levels are, `Instantiation` builds the steps of an
orchestration from them, and `Assembler` starts services in the order of their requirements.

**Subjects.** `Subjects` gives patterns their languages of concrete subjects and proves that the two index loops decide
inclusion and intersection; `SubjectMerging` proves what merging computes. Concrete tokens are non-empty, without dots,
and neither `*` nor `>`; in a well-formed pattern `>` is the last token.

**Queries.** `Query` evaluates predicates on records, `SqlBuilder` generates SQL as a syntax tree with numbered
placeholders, and `SqlMeaning` evaluates that SQL under three-valued logic. A leaf is
`Faithful` if the row stores the record and the leaf is one of these tests: equality or membership of texts, ordering of
numbers, or a null test, on a plain column, an exact-case path through objects, or an array of objects; equality of texts or
ordering of numbers on an array of scalars; equality of texts on a map of arrays. Negated tests and null tests have
conditions on the value, which the lemmas `...Exactly` show to be the exact ones.

**Tenant Manager.** `Participants` is the deployment state of a profile. `ProfileTransactions` has the transactions that
change it: each reads the profile without a lock and later overwrites the whole row, and others may write in between.
`AlwaysCurrent` says of a run that each update is of a profile that is as its transaction read it. `Locks`
interleaves these accesses with the statements of deployments and deletes under shared and exclusive row locks; a lock is
granted as soon as no other transaction holds a conflicting one. `LockLimits` has runs that show why its hypothesis is
needed.

**Index and compensation.** `Watcher` has the index of orchestrations, the start of compensations, and the de-duplication
of starts.

## Where the code differs from what one would expect

- An activity that waits in one handler and completes in another can leave a full step without a message
  (`EngineLimits.WaitLosesHandOver`). Without a second handler of the activity this cannot happen
  (`EngineTheorems.NoLostHandOver`).
- A data key that an activity deletes is deleted from the record only if its handler's write meets no conflict
  (`EngineWrites.WriteLands`).
- The retry count of an activity can go back even if every step has one activity, because a stale copy of any other
  handler is merged over it (`EngineLimits.StaleCopyForgetsRetries`). A count is never ahead
  (`EngineTheorems.CountsNeverAhead`), and exact if one handler at a time may merge (`EngineTheorems.RetryBound`).
- A comment in service_participant.go calls the handling of responses idempotent. A failed compensation leaves the
  deployment pending, and its response, delivered again, takes a disposed profile back
  (`Participants.DisposedProfileComesBack`, `Participants.RevivesExactly`); its cell may have been deleted by then
  (`LockLimits.RevivalBreaksIntegrity`, `Locks.RevivalKeepsExactly`).
- Profiles are read without a lock and overwritten without a test of their version. Two copies of one response that are
  read before either is written are both applied, and what was written in between is lost
  (`ProfileTransactions.AppliedTwice`). A dispose request or a reversal that read a profile early is written over a
  disposed profile that waits for nothing, whose cell may have been deleted (`LockLimits.StaleDisposeBreaksIntegrity`,
  `LockLimits.StaleRevertBreaksIntegrity`). An update takes a disposed profile back exactly if it is not that of a dispose
  response (`ProfileTransactions.TakesBackExactly`). Without such updates the transactions have the effect of their steps
  one after another (`ProfileTransactions.Serializable`).
- Some leaves do not mean the same in the database and in memory. IN and NOT IN on an array of scalars
  compare elements with their JSON quotes (`SqlMeaning.MembershipOfScalarsDiffers`), and != on such an array is built as =
  (`SqlMeaning.InequalityOfScalarsDiffers`). A path below an untyped map held by something untyped leads
  nowhere in memory (`SqlMeaning.UntypedMapsExactly`). A negated test of NULL is not true (`SqlMeaning.ColumnExactly`,
  `SqlMeaning.ScalarPathExactly`); JSON null is not NULL (`SqlMeaning.ScalarPathExactly`); IS NULL below an array means
  some element in the database, and none with a value in memory (`SqlMeaning.NullInArrayExactly`).

## Model

| member | source | states |
|---|---|---|
| Orchestrations.GetStepForActivity | pmanager/api/types.go:139-148 | the first step that holds the activity, or an error exactly if none does |
| Orchestrations.CanProceedToNextStep | pmanager/api/types.go:120-136 | true exactly if every other activity of the activity's step is in Completed; an error exactly if no step holds it |
| Orchestrations.CanProceedExactly | pmanager/api/types.go:120-136 | the same for the function the step system uses, over the activities of the first step that holds the activity |
| Orchestrations.GetNextStepActivities | pmanager/api/types.go:152-168 | the activities of the step after the activity's own, none after the last step or for an unknown activity |
| Orchestrations.GetInitialActivities | pmanager/natsorchestration/orchestration.go:163-170 | the activities of the first step that has any |
| Orchestrations.MergeRetries | pmanager/api/types.go:106-111 | retry counts of the merged-in state replace those of the same activity, all others are kept |
| Engine.OnlyUpdatesWrite | pmanager/natsorchestration/client.go:94-122 | once the record exists, no event but the compare-and-swap of an update changes it or its revision |
| EngineSafety.SafeEvent | pmanager/natsorchestration/activity.go:135-526 | every event of any process keeps the safety invariant: snapshots never ahead of the record, publishing in step order, Completed only when all is done |
| EngineProgress.WakesEvent | pmanager/natsorchestration/activity.go:135-526 | every event keeps the wake-up invariant, given no panic, no final delivery, and fatal errors that are recorded |
| EngineTerminal.ExclusiveEvent | pmanager/natsorchestration/activity.go:331-511 | if at most one handler per activity may still write for it, every event keeps: no handler can record a failure of a completed activity, none can finish an errored orchestration |
| EngineTerminal.TerminalStays | pmanager/natsorchestration/activity.go:389-397 | under that invariant no event changes a terminal state |
| EngineCounts.LimitedEvent | pmanager/api/types.go:95-112 | under any concurrency, every event keeps: no stored or captured count is ahead of the retriable errors, and an error is recorded only if an activity has used up its retries |
| EngineRetry.CountedEvent | pmanager/natsorchestration/activity.go:439-478 | if one handler at a time may still merge its copy, every event keeps the counts equal to the retriable errors, in the record or in the copy about to be persisted |
| EngineRetry.BoundedEvent | pmanager/natsorchestration/activity.go:455-463 | every event keeps: completed only if no activity has used up its retries |
| EngineHandOver.KeptEvent | pmanager/natsorchestration/activity.go:331-387 | with one handler per activity, every event keeps: the activity that closed a step has a message until the next step is wholly published, and an activity that waits is not completed |
| EngineTheorems.DependenciesFirst | pmanager/api/types.go:120-167 | in every reachable state, everything a published activity depends on is in the stored Completed set |
| EngineTheorems.CompletedMeansAllDone | pmanager/natsorchestration/activity.go:356-397 | in every reachable state, State Completed implies that every activity of every step is in Completed |
| EngineTheorems.CompletedIsCommitted | pmanager/natsorchestration/activity.go:339-350 | the stored Completed set is exactly the set of activities whose completion was written, under any race, crash or conflict |
| EngineTheorems.HistoryOnlyAdvances | pmanager/natsorchestration/orchestration.go:151-154 | from any reachable state on: steps are fixed, completions stay, terminal stays terminal, nothing returns to Initialized, Running is entered only from Initialized |
| EngineTheorems.FirstCallWins | pmanager/natsorchestration/orchestration.go:92-140 | over any number of calls of Execute exactly one event creates the record, with the content of the call that won, and the steps stay its own |
| EngineTheorems.StartedMeansPublished | pmanager/natsorchestration/orchestration.go:143-159 | State Running or Completed implies that all activities of the first step were published |
| EngineTheorems.ReturnedMeansStarted | pmanager/natsorchestration/orchestration.go:92-159 | after an Execute that returned nil the record has left Initialized for good |
| EngineTheorems.NoLostWakeUp | pmanager/natsorchestration/activity.go:331-387 | while not terminal: a published activity that has not completed has an unacknowledged message or has waited; the activity that closed a full step has one or has waited, unless the next step is wholly published |
| EngineTheorems.NoLostHandOver | pmanager/natsorchestration/activity.go:331-387 | with one handler per activity at a time: a full step has its next step wholly published, or an unacknowledged message of one of its activities, whether or not any has waited |
| EngineTheorems.OnlyWaitersHoldUp | pmanager/natsorchestration/activity.go:248-253 | with one handler per activity at a time: a running orchestration without any message has a published, uncompleted activity that waits |
| EngineTheorems.NeverStuck | pmanager/natsorchestration/activity.go:331-387 | if no activity waits, a running orchestration always has an unacknowledged message of one of its activities |
| EngineTheorems.TerminalIsFinal | pmanager/natsorchestration/activity.go:389-397 | if at most one handler per activity may still write for it, and without final delivery, Completed and Errored are never left, not even for each other |
| EngineTheorems.UpdateIsAtomic | pmanager/natsorchestration/client.go:94-122 | a write that lands is the update function applied to the record it replaces, before the 50th conflict; on the first attempt a merge writes exactly the handler's own data and counts |
| EngineTheorems.SiblingDataSurvives | pmanager/natsorchestration/activity.go:339-350 | a stored data key survives the write of a handler that neither held it in its copy nor set it |
| EngineWrites.WriteLands | pmanager/natsorchestration/activity.go:339-350 | in every reachable state, after any number of conflicts, a write of an executor that lands leaves every data key and retry count of the handler in the record with its value, keeps all others but keys that the handler deleted before any conflict, adds the activity exactly if it completes it, and sets exactly the state that the write is for |
| EngineWrites.MarkRunningLands | pmanager/natsorchestration/orchestration.go:151-154 | the write of a caller of Execute makes an Initialized orchestration Running and changes nothing else |
| EngineWrites.OutputIsStored | pmanager/natsorchestration/activity.go:314-350 | what an activity leaves in the data is in the record when its handler's write lands, whatever happens in between and however often the write conflicts |
| EngineWrites.RunIsCaptured | pmanager/natsorchestration/activity.go:241-275 | the result decides what the handler writes; the values are those the activity left; only a retriable error counts, once and for its own activity |
| EngineWrites.ConflictsAreRetried | pmanager/natsorchestration/client.go:94-122 | a conflict is retried until the 50th; then fatal errors are acknowledged unrecorded, calls of Execute fail, and other messages are delivered again |
| EngineWrites.CompletedIsNotRunAgain | pmanager/natsorchestration/activity.go:179-186 | in every reachable state an activity that is run had not completed in the record that its handler read, and is not on its final delivery |
| EngineWrites.ErrorStopsTheNextStep | pmanager/natsorchestration/activity.go:356-359 | in every reachable state a handler that publishes a step has completed its activity in a record that was not errored |
| EngineWrites.MessageLeaves | pmanager/natsorchestration/activity.go:135-160 | a message leaves the stream exactly by a successful acknowledgement, a panic, or a final delivery that cannot read the record |
| EngineWrites.CallResumes | pmanager/natsorchestration/orchestration.go:122-136 | a call of Execute that finds an orchestration resumes an Initialized one, returns nil for any other, and fails if it cannot read it |
| EngineTheorems.RetryBound | pmanager/natsorchestration/activity.go:439-478 | if one handler at a time may still merge its copy: whenever no error is waiting to be persisted, the counts are the numbers of retriable errors, and the orchestration is errored if and only if one has reached the limit of its activity |
| EngineTheorems.CountsNeverAhead | pmanager/natsorchestration/activity.go:439-478 | under any concurrency, crash or failure to persist: no stored count exceeds the retriable errors so far, and errored implies that an activity has used up its own number of retries |
| EngineLimits.FatalErrorLost | pmanager/natsorchestration/activity.go:489-510 | a reachable state that shows why the write of handleFatalError must succeed: no message is left of an activity that has not completed |
| EngineLimits.SecondHandlerFails | pmanager/natsorchestration/activity.go:483-511 | a reachable completed record that a second handler of the same activity is about to mark errored |
| EngineLimits.FinalDeliveryFails | pmanager/natsorchestration/activity.go:179-220 | a reachable completed record that the final delivery of its activity is about to mark errored |
| EngineLimits.WaitLosesHandOver | pmanager/natsorchestration/activity.go:248-253 | an activity that waits in one handler and completes in another: a reachable running state without any message, whose next step is not published |
| EngineLimits.StaleCopyForgetsRetries | pmanager/api/types.go:95-112 | a reachable state in which a stale copy has taken the retry count of another, single-activity step back |
| Messaging.Cluster.Get | pmanager/natsorchestration/client.go:72-83 | a read returns the record and its revision at that moment, and leaves the process where the step system continues |
| Messaging.Cluster.Create | pmanager/natsorchestration/orchestration.go:116-133 | a write at revision 0 succeeds only if there is no record |
| Messaging.Cluster.Update | pmanager/natsorchestration/client.go:101-110 | a write succeeds only at the current revision, and then replaces the record of that revision |
| Messaging.Cluster.PublishMsg | pmanager/natsorchestration/client.go:36-64 | one message of the step being published, dropped if the stream has seen its ID |
| Executors.EnqueueActivityMessages | pmanager/natsorchestration/client.go:36-64 | publishes the activities of a step in order; on success all of them were published |
| Executors.UpdateOrchestration | pmanager/natsorchestration/client.go:94-122 | on success the stored record is the update function applied to the one it replaced, which others may have written meanwhile; its control flow is that of the step system |
| Executors.Start | pmanager/natsorchestration/orchestration.go:143-159 | publishes, then moves the record out of Initialized only; follows the step system |
| Executors.Execute | pmanager/natsorchestration/orchestration.go:92-140 | returns without error only if the record has left Initialized; refuses an orchestration without activities without any effect |
| Executors.Resume | pmanager/natsorchestration/orchestration.go:122-136 | an existing orchestration is started only if it is still initialized; follows the step system |
| Executors.PersistState | pmanager/natsorchestration/activity.go:314-328 | follows the step system; on success all of the handler's data and counts were in the record |
| Executors.ProcessOnActivityCompletion | pmanager/natsorchestration/activity.go:331-387 | records the completion and goes on from there; if it acknowledges, the record held the completion together with all of the activity's data and counts, whatever conflicted |
| Executors.ContinueAfter | pmanager/natsorchestration/activity.go:357-386 | acknowledges if the orchestration is errored, or siblings are open, or the next step was published, or everything is complete and marked so; every operation is the one the step system has next |
| Executors.HandleOrchestrationCompletion | pmanager/natsorchestration/activity.go:389-414 | acknowledges only if every activity is complete and the state is terminal |
| Executors.HandleRetryError | pmanager/natsorchestration/activity.go:439-478 | acknowledges only if the count has reached the limit; otherwise the count is persisted and the message is delivered again after the delay the activity asked for, or the scheduled one |
| Executors.HandleFatalError | pmanager/natsorchestration/activity.go:483-526 | acknowledges because the record is errored, and then held all of the activity's data and counts, or because that could not be recorded |
| Executors.HandleDelivery | pmanager/natsorchestration/activity.go:179-275 | redelivery of a completed activity, final delivery, and running the activity: the step system takes the same branch |
| Executors.HandleResult | pmanager/natsorchestration/activity.go:241-275 | each of the five results is handled as in the step system; an acknowledgement means that the activity's data was recorded, unless a fatal error could not be; the delay is the one asked for or the scheduled one |
| Executors.ProcessMessage | pmanager/natsorchestration/activity.go:135-275 | one delivery from start to end, among arbitrary steps of others and arbitrary failures, is a run of the step system; at the end the handler is gone; if it acknowledged, the message is gone, the reason for it holds and what the activity left was recorded; a chosen delay is that of a retriable error or of a request to be scheduled |
| Retry.RetryDelay | common/natsclient/retry.go:47-60 | 1, 2, 5, 10, 30 and 60 seconds, the first one below and the last one beyond the schedule |
| Retry.RetryDelayNonDecreasing | common/natsclient/retry.go:47-60 | delays never decrease and lie between one second and one minute |
| Slices.Reverse | common/dag/dag.go:360-363 | in-place swapping from both ends yields the reversed slice |
| Graphs.RankedAcyclic | common/dag/dag.go:338-376 | a graph whose edges all lead to a lower rank has no closed walk |
| Dag.Search.TraceBack | common/dag/dag.go:345-365 | the parent back-trace ends and yields a closed walk of real edges whose interior vertices are distinct |
| Dag.Search.DetectCycle | common/dag/dag.go:338-376 | the search ends; it reports a real cycle, or numbers all it visits so that edges lead to lower numbers |
| Dag.Graph.AddVertex | common/dag/dag.go:78-82 | the first value of an ID is kept |
| Dag.Graph.AddEdge | common/dag/dag.go:85-101 | adds the edge at the end unless it exists or an end is missing |
| Dag.Graph.DetectCycleWithPath | common/dag/dag.go:315-336 | reports a cycle if and only if the graph has a closed walk, and then returns one without repetitions |
| Dag.InDegrees | common/dag/dag.go:127-140 | the number of edges into each vertex |
| Dag.Graph.TopologicalSort | common/dag/dag.go:111-178 | reports a cycle if and only if there is one; otherwise every vertex once with all edges forward; the final count check cannot fail |
| Dag.SourcesOf | common/dag/dag.go:233-239 | the remaining vertices of in-degree 0, in any order of the map |
| Dag.RemoveLevel | common/dag/dag.go:259-269 | in-degrees of what remains count exactly the edges from what remains |
| Dag.Graph.ParallelTopologicalSort | common/dag/dag.go:182-274 | reports a cycle if and only if there is one; otherwise the levels partition the vertices, predecessors lie lower and one just below, levels are sorted; the empty-level fallback is unreachable |
| Levels.OneLevel | common/dag/dag.go:224-272 | every vertex is in exactly one level, once |
| Levels.EdgesLeadUp | common/dag/dag.go:259-269 | every edge leads to a strictly higher level |
| Levels.LevelIsLongestPath | common/dag/dag.go:224-272 | the level of a vertex is the length of the longest path that ends in it |
| Levels.FewestLevels | common/dag/dag.go:224-272 | no grouping with all edges leading to later groups has fewer groups |
| Slices.SortedIsIncreasing | common/dag/dag.go:247-250 | sorting a level keeps its vertices and puts them in increasing order of ID |
| Slices.LessExactly | common/dag/dag.go:247-250 | one string is less than another exactly if it ends or has the smaller character at the first difference |
| Instantiation.AddDependencies | pmanager/api/types.go:297-303 | the edges of one activity's dependencies, or the first dependency that does not exist |
| Instantiation.BuildGraph | pmanager/api/types.go:293-304 | an edge for exactly every dependency, the first activity of each ID as the vertex |
| Instantiation.WellFormedSteps | pmanager/api/types.go:310-322 | the reversed levels are well-formed steps: none empty, an ID in one only, dependencies in earlier ones |
| Instantiation.FewestSteps | pmanager/api/types.go:305-322 | no schedule that puts dependencies first has fewer groups than there are steps |
| Instantiation.InstantiateOrchestration | pmanager/api/types.go:267-325 | fails exactly on a missing definition, a missing dependency or cyclic dependencies, with such a witness; otherwise an initial orchestration with well-formed steps, as few as possible, holding the first activity of each ID |
| Assembler.ServiceAssembler.MapProviders | common/system/assembler.go:159-168 | each service is mapped to the assembly that registered it last |
| Assembler.LastRegistered | common/system/assembler.go:159-168 | an assembly is the provider of a service exactly if it provides it and no assembly registered later does |
| Assembler.BuildGraph | common/system/assembler.go:159-178 | an edge for exactly every requirement, or a requirement that nothing provides |
| Assembler.ServiceAssembler.RunPhase | common/system/assembler.go:197-203 | one phase calls the assemblies in order and stops at the first failure |
| Assembler.ServiceAssembler.Assemble | common/system/assembler.go:158-224 | rejects exactly the unprovided and the cyclic requirements; otherwise calls Init, Prepare and Start of all assemblies in an order that puts providers first, up to the first failure |
| Assembler.ProvidersFirst | common/system/assembler.go:158-224 | an assembly is called only after its providers in the same phase, and after all assemblies in the phase before |
| Strings.SplitJoin | common/query/reflect.go:64-72 | a path that is joined at dots and split again is the same |
| Strings.FoldsExactly | common/query/reflect.go:93-97 | names are equal up to letter case exactly if they differ only where both have the same letter |
| Subjects.SubjectCovers | common/natsclient/stream.go:218-242 | true exactly if every concrete subject that matches the one pattern matches the other |
| Subjects.SubjectsCollide | common/natsclient/stream.go:246-264 | true exactly if some concrete subject matches both patterns |
| Subjects.CoversIsInclusion | common/natsclient/stream.go:216-217 | covering is inclusion of languages, for well-formed patterns of any length |
| Subjects.CollideIsIntersection | common/natsclient/stream.go:244-245 | colliding is a common concrete subject |
| SubjectMerging.AnySubjectCovers | common/natsclient/stream.go:207-214 | true exactly if one of the subjects covers the given one |
| SubjectMerging.MergeStreamSubjects | common/natsclient/stream.go:180-205 | the merge loops compute the merge that the lemmas are about |
| SubjectMerging.MergeIsRight | common/natsclient/stream.go:172-205 | the result is pairwise disjoint, matches exactly what existing and additional match, and consists of the maximal patterns |
| SubjectMerging.OrderDoesNotMatter | common/natsclient/stream.go:180-205 | merging the same subjects in two orders, where both succeed, gives the same set |
| SubjectMerging.MergeAgain | common/natsclient/stream.go:186-188 | merging the same subjects again changes nothing |
| SubjectMerging.ChangedIsExact | common/natsclient/stream.go:180-205 | changed is false exactly if the set of subjects is unchanged |
| SubjectMerging.FailureIsPartialOverlap | common/natsclient/stream.go:195-197 | an error names two subjects that overlap without one covering the other |
| Query.FieldLike | common/query/reflect.go:85-104 | the one field whose name equals the part up to letter case; none if several do |
| Query.GetFieldValue | common/query/reflect.go:25-83 | the loop and its recursion through slices compute the value at the end of the path |
| Query.ComparesExactly | common/query/reflect.go:126-203 | numbers compare as numbers and texts by the first difference, for every comparison operator |
| SqlBuilder.BuildJSONBAccessor | common/sqlstore/query.go:558-579 | the chain of arrows along the path, the last one as text if wanted |
| SqlBuilder.NextPlaceholders | common/sqlstore/query.go:448-452 | one new placeholder number for each value |
| SqlBuilder.PostgresJSONBBuilder.WithJSONBFields | common/sqlstore/query.go:136-146 | fields are arrays of objects unless their type is known |
| SqlBuilder.PostgresJSONBBuilder.WithJSONBFieldTypes | common/sqlstore/query.go:149-156 | each field gets the type given for its name in some letter case |
| SqlBuilder.PostgresJSONBBuilder.BuildSQLFrom | common/sqlstore/query.go:173-212 | the counter runs on through all parts of the tree |
| SqlBuilder.PostgresJSONBBuilder.BuildSQL | common/sqlstore/query.go:166-170 | placeholders are $1 to $k for k arguments, in order, and the arguments are those of the leaves |
| SqlBuilder.AtomNumbers | common/sqlstore/query.go:215-538 | every operator and every field type uses exactly the next placeholders, one for each argument of the leaf |
| SqlBuilder.BuildNumbers | common/sqlstore/query.go:166-317 | for every predicate tree the placeholders read left to right are numbered without gaps, and the i-th argument belongs to the leaf that emitted the i-th placeholder |
| SqlMeaning.PathAgrees | common/sqlstore/query.go:558-609 | along an exact-case path through objects, the accessor finds in the database what is found in memory, as text or as JSON |
| SqlMeaning.ColumnExactly | common/sqlstore/query.go:215-240 | a test of texts or for null of a plain column means the same in the database and in memory if and only if it is faithful |
| SqlMeaning.ColumnAgrees | common/sqlstore/query.go:215-240 | a leaf on a plain column selects exactly if it matches: of texts, of numbers, or for null |
| SqlMeaning.NoPathExactly | common/sqlstore/query.go:320-351 | the same for a null test of a whole JSONB column |
| SqlMeaning.ScalarPathExactly | common/sqlstore/query.go:320-397 | a test of texts on a scalar path means the same if and only if it is not negated or the value is not nil; a null test if and only if the value is not JSON null, and not a slice that hides or shows a nil |
| SqlMeaning.ScalarPathAgrees | common/sqlstore/query.go:354-397 | a leaf on a scalar path selects exactly if it matches: equality and membership of texts, ordering of numbers, null tests |
| SqlMeaning.ObjectsAgree | common/sqlstore/query.go:612-637 | a faithful leaf on an array of objects selects exactly if it matches: equality and membership of texts, ordering of numbers, and null tests |
| SqlMeaning.ScalarsAgree | common/sqlstore/query.go:619-626 | an equality or numeric leaf on an array of scalars selects exactly if it matches |
| SqlMeaning.ListsAgree | common/sqlstore/query.go:362-366 | an equality leaf on a map of arrays selects exactly if it matches |
| SqlMeaning.GeneratedSqlPreservesMeaning | common/sqlstore/query.go:166-278 | for every AND/OR tree of faithful leaves the WHERE clause is true exactly on the records that match |
| SqlMeaning.MembershipOfScalarsDiffers | common/sqlstore/query.go:467-480 | IN and NOT IN on an array of texts test the elements with their JSON quotes; against values without quotes IN never selects and agrees with memory exactly if no element is in the list, NOT IN selects unless the array is empty and agrees exactly if it is or some element is not in the list |
| SqlMeaning.InequalityOfScalarsDiffers | common/sqlstore/query.go:612-626 | != on an array of scalars selects exactly if an element equals the text, and so agrees with memory exactly if there is no element, or both one that equals it and one that does not |
| SqlMeaning.NullInArrayExactly | common/sqlstore/query.go:320-334 | IS NULL below an array of objects means the same if and only if there is an element and either all have a value at the path or none has |
| SqlMeaning.UntypedMapsExactly | common/query/reflect.go:38-51 | on every path that leads below an untyped map held by something untyped, nothing is found in memory; a null test then means the same exactly if the accessor is NULL, a test of texts exactly if the accessor finds none that passes |
| SqlMeaning.NestedMapsDiffer | common/query/reflect.go:38-51 | such a path does find a text in the database |
| SqlMeaning.NullDiffers | common/sqlstore/query.go:228-239 | a negated test (!= or NOT IN) of a NULL column does not select what matches in memory |
| Participants.AgentsShareOneState | tmanager/core/service_participant.go:234-513 | over dispose requests, reversals and responses one after another all agents of a profile share one state |
| Participants.AppliedAtMostOnce | tmanager/core/service_participant.go:362-378 | one after another: after a successful response was applied, every response that names no manifest started since is ignored |
| Participants.DisposedIsFinal | tmanager/core/service_participant.go:475-513 | one after another: a disposed profile without a pending orchestration never changes again |
| Participants.RevivesExactly | tmanager/core/service_participant.go:488-511 | a step on the profile as it is takes a disposed profile back exactly if it is a deploy response for the pending orchestration or reverts the pending dispose |
| Participants.UsesNoMore | tmanager/core/references.go:18-38 | any other such step makes the profile use no further cell and keeps it disposed |
| Participants.DisposedProfileComesBack | tmanager/core/service_participant.go:488-511 | a failed compensation leaves the deployment pending, and its failure, delivered again, takes the disposed profile to the error state |
| Participants.ResponseExactly | tmanager/core/service_participant.go:435-505 | which responses are applied, and what each field is then: all agents active after a successful deployment, in error after a failed one, disposed after a disposal; a failure sets the error and stays pending, a success ends the wait; any other response changes nothing |
| Participants.DisposeExactly | tmanager/core/service_participant.go:246-288 | a dispose request is accepted exactly if the profile is deployed and all agents are active; then all are disposing and the manifest is pending |
| Participants.RevertExactly | tmanager/core/service_participant.go:318-337 | a reversal is accepted exactly if its manifest is the pending dispose; then all agents are active and nothing is pending |
| Participants.RevertUndoesDispose | tmanager/core/service_participant.go:316-337 | the reversal restores the profile, but for what was pending before |
| ProfileTransactions.ParticipantStore.FindByID | common/sqlstore/sqlstore.go:65-67 | reads the profile as it is at that moment, without a lock |
| ProfileTransactions.ParticipantStore.Write | common/sqlstore/sqlstore.go:181-235 | overwrites the row, whatever was written since the transaction read it; fails exactly if it is gone |
| ProfileTransactions.ParticipantStore.DisposeProfile | tmanager/core/service_participant.go:234-294 | writes exactly if the profile that was read is the tenant's, accessible, deployed, wholly active, its dataspace profiles can be read, and the update succeeds, whatever others do in between; then all agents are disposing and the manifest is pending |
| ProfileTransactions.ParticipantStore.RevertDispose | tmanager/core/service_participant.go:318-337 | makes the agents active again exactly if the manifest was pending when the profile was read |
| ProfileTransactions.ParticipantStore.Handle | tmanager/core/service_participant.go:441-513 | applies a response exactly if it is that of the orchestration, or of the compensation of it, that was pending when the profile was read; then all agents are active, in error or disposed, a failure sets the error and stays pending, and a success ends the wait |
| ProfileTransactions.AgentsShareOneState | tmanager/core/service_participant.go:234-513 | in every run of overlapping transactions the agents share one state, in all profiles and all copies that were read |
| ProfileTransactions.UntouchedIsCurrent | common/sqlstore/sqlstore.go:181-235 | if no other access writes or removes the profile between a transaction's read and its update, the update is of the profile as it was read |
| ProfileTransactions.Serializable | tmanager/core/service_participant.go:234-513 | if all updates are of profiles as they were read, overlapping transactions have the effect of their steps one after another, in the order of the updates |
| ProfileTransactions.AppliedAtMostOnce | tmanager/core/service_participant.go:362-378 | in every such run: once a successful response was written, no transaction finds a response to apply that names no manifest started since |
| ProfileTransactions.DisposedIsFinal | tmanager/core/service_participant.go:475-513 | in every such run: a disposed profile without a pending orchestration never changes again |
| ProfileTransactions.TakesBackExactly | tmanager/core/service_participant.go:488-511 | in any run: an update over a disposed profile takes it back if and only if it is not that of a dispose response; if the profile is as it was read, if and only if the step brings it back |
| ProfileTransactions.UsesNoMore | tmanager/core/references.go:18-38 | any other update, also of a stale copy, makes the profile use no further cell |
| ProfileTransactions.LastUpdateDecides | tmanager/core/service_participant.go:234-513 | however transactions overlap, the last update of a profile decides the state of all its agents, and which state that is |
| ProfileTransactions.ActiveOnlyAfterSuccess | tmanager/core/service_participant.go:421-424 | however transactions overlap, an agent that was not active is active only after a successful deploy response or a reversal was written |
| ProfileTransactions.AppliedTwice | tmanager/core/service_participant.go:475-513 | two copies of a successful response that are read before either is written are both applied; a dispose request in between is overwritten, and its response will be ignored |
| Locks.CommitDeployKeeps | tmanager/core/service_participant.go:85-203 | committing a deployment keeps all references valid, since all rows it references are share-locked |
| Locks.CommitDeleteKeeps | tmanager/core/service_tenant.go:85-112 | committing a delete keeps all references valid, since the row is locked exclusively and was found unused |
| Locks.ScanExactly | tmanager/core/references.go:18-38 | the check of a delete refuses a tenant exactly if a profile is its own, a cell exactly if an agent in it is not disposed, a dataspace profile exactly if a participant profile lists it and has no agents or one that is not disposed |
| Locks.DeleteExactly | tmanager/core/service_dataspace.go:47-66 | a delete that nobody holds locks against removes exactly the row if nothing uses it, and otherwise changes nothing |
| Locks.WithdrawUndoesDeploy | tmanager/core/service_participant.go:160-174 | a deployment that could not be sent leaves nothing behind |
| Locks.EventKeeps | tmanager/core/service_participant.go:85-203 | every statement of every transaction, reads and updates of profiles included, keeps the invariant of locks and references, under the condition for updates that take a disposed profile back |
| Locks.ReferencesStayValid | tmanager/core/service_cell.go:48-76 | over every interleaving of statements in which a disposed profile is overwritten by one that is not only while what that refers to exists and is not about to be deleted: the tenant of each profile, the cells of its agents that are not disposed, and the dataspace profiles of each profile not disposed exist |
| Locks.RevivalKeepsExactly | common/sqlstore/sqlstore.go:181-235 | an update that writes a profile over a disposed one keeps all references valid if and only if the cells of its agents and its dataspace profiles exist, and keeps the invariant if and only if, besides, none of them is about to be deleted |
| Locks.NoDeadlock | tmanager/core/service_participant.go:179-203 | no transactions wait for each other in a circle |
| Locks.SomeoneCanProceed | tmanager/core/service_dataspace.go:47-66 | while there are transactions, one of them is not waiting |
| Locks.ProceedIsEnabled | tmanager/core/service_tenant.go:85-112 | the next statement of a transaction that is not waiting can be executed |
| LockLimits.RevivalBreaksIntegrity | tmanager/core/service_cell.go:48-76 | from a database without profiles, for every profile with an agent in a cell: a run of deployment, failure, failed compensation and deletion of the cell, with all references valid, after which the failure delivered again breaks them; no transactions on the profile overlap |
| LockLimits.StaleDisposeBreaksIntegrity | tmanager/core/service_participant.go:234-294 | the same for a profile that is deployed and disposed and waits for nothing, when a second dispose request that read it before is written |
| LockLimits.StaleRevertBreaksIntegrity | tmanager/core/service_participant.go:318-337 | the same when a reversal that read it before the dispose response is written |
| Watcher.OrchestrationIndexWatcher.OnMessage | pmanager/natsorchestration/watcher.go:59-112 | acknowledges exactly if the transaction commits; the entry, and the compensation that is requested, follow from the old entry and the update |
| Watcher.AcknowledgedExactly | pmanager/natsorchestration/watcher.go:64-111 | a delivery is acknowledged, and a compensation requested, exactly if the fields of the entry and the update and the failures say so |
| Watcher.IndexFollows | pmanager/natsorchestration/watcher.go:83-91 | while no terminal state has been committed, the index shows state and timestamp of the last delivery that committed, and nothing if none has |
| Watcher.FirstFinalStays | pmanager/natsorchestration/watcher.go:83-91 | the first terminal state that is committed is what the index shows from then on |
| Watcher.CompensationIDIsInjective | pmanager/natsorchestration/watcher.go:114-118 | different orchestrations have different compensation IDs |
| Watcher.TerminalEntryNeverChanges | pmanager/natsorchestration/watcher.go:83-88 | once terminal, an index entry is never changed by any delivery |
| Watcher.CompensatedAtMostOnce | pmanager/natsorchestration/watcher.go:95-100 | over any duplicated, reordered or rolled-back deliveries a change to Errored with a compensation is committed at most once |
| Watcher.DisposeNotCompensated | pmanager/natsorchestration/watcher.go:96 | a dispose orchestration is never compensated |
| Watcher.IndexConverges | pmanager/natsorchestration/watcher.go:83-94 | if one terminal state only occurs and is delivered once with success, the index ends in it |
| Watcher.FailureIsCompensated | pmanager/natsorchestration/watcher.go:74-101 | a failure is compensated if and only if it is delivered with success after a first successful delivery that was not the failure |
| Watcher.ProvisionManager.Start | pmanager/core/provision.go:37-102 | the result and the whole new state in each case: a new start leaves Running, or Initialized if publishing failed; a known Initialized one with the same type and correlation ID becomes Running; one in another state is returned unchanged; another manifest with the ID is refused; any other failure changes nothing |

## Left out

- NoLostWakeUp: under `Calm`; an activity that has waited counts as having its turn, which `EngineLimits.WaitLosesHandOver` shows to be needed without `OneHandler`; `EngineLimits.FatalErrorLost` shows why the write of a fatal error must succeed.
- NoLostHandOver: under `Calm` and `OneHandler`.
- TerminalIsFinal: under `OneWriter`; `EngineLimits.SecondHandlerFails` and `EngineLimits.FinalDeliveryFails` show that both parts are needed.
- RetryBound: under `Solo` and `Retriable`; while an error is waiting to be persisted, it is in the handler's copy and not yet in the record.
- GeneratedSqlPreservesMeaning: LIKE, CONTAINS and the other substring tests, the order of texts (which depends on the collation), equality of numbers, tests other than equality on a map of arrays, paths that nest one array in another, and null tests below arrays of scalars and maps of arrays are built and numbered but not compared.
- GetFieldValue: struct fields are known by their JSON names, taken to differ from the Go names in letter case only and to include those of embedded structs, so fields that shadow each other are not told apart; pointers lead to no further pointers; where a leaf ends in a pointer, no agreement with the database is claimed.
- ReferencesStayValid: under `AlwaysRestores`; `Locks.RevivalKeepsExactly` is the condition at each update, and the runs of `LockLimits` break it.
- AppliedAtMostOnce, DisposedIsFinal, Serializable: under `AlwaysCurrent`; `ProfileTransactions.AppliedTwice` and `LockLimits.StaleDisposeBreaksIntegrity` show that it is needed.
- NoDeadlock: for DeployProfile of participants and the three deletes; locks are not queued behind other requests for the same row. An update of a profile and its commit are one event; it is the only row that such a transaction locks.
- ReturnedMeansStarted: a call of Execute that meets no record is given an orchestration as InstantiateOrchestration builds it; one that meets a record may be given anything.
- The error texts, timestamps, attempt counts and trace contexts that are stored with an orchestration: they do not decide control flow.
- The delivery of the final response: a failed publish is not repeated, so no theorem says that completions are announced.
- Two index watchers that read and update one entry at the same time.
- Deployments of dataspace profiles to cells, and the check of DeleteCell for them: the profile is rewritten without a lock.
- The services of the Tenant Manager that lock, check and delete are statements of a step system, not methods; vertices of a graph are known by their IDs, so aliasing of vertex objects is not captured.
- The generation of participant profiles and the choice of a cell: the profile that is deployed is arbitrary.
- CountByPredicate and FindByPredicate in the deletes are modelled by what they select.
- The builder of ANSI SQL, predicates of unknown kind, and compound operators other than AND and OR.
- ProvisionManager.Start: executing an orchestration is one step with one outcome; `Executors.Execute` has the details for one record.
- Shutdown of assemblies, configuration, health checks, telemetry, REST handlers, the parser of query expressions, and the clients of NATS, Postgres and HTTP.
- Ordering tests in memory of two values that are neither both numbers nor both texts: the code formats them as text and compares the texts; here such a test is false, and no agreement with the database is claimed for it.
- Letter case: names are compared up to the case of ASCII letters, where the code folds Unicode.
- Unbounded integers stand for Go's counters, revisions and delivery counts.
