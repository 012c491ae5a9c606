# Verification of cpjview

cpjview analyses a C++ code base in a client, stores classes, inheritances and code in a
server, and shows the classes as an inheritance forest in the browser. This project models
the four parts whose correctness does not follow from reading one function, and proves what
they promise. `dafny verify dfyconfig.toml` checks everything.

**The scheduler** (`SchedulerModel`, `SchedulerInvariant`, `SchedulerSteps`,
`SchedulerTheorems`, `SchedulerClosing`, `SchedulerOrder`, `SchedulerScenes`,
`SchedulerOvertaking`, `SchedulerEarlyRun`, `SchedulerLosingRun`, `SchedulerCalls`,
`SchedulerCompletion`, `SchedulerCounterexamples`, `ClientGraph`, `SchedulerRuntime`, with sums
in `Sums`). A task
counts how many of its pre-tasks are finished and enters a priority queue when the count
meets its goal. The model is a state machine whose steps are the lock-held sections: one
`insert_post`, the closing update of a registration, one pop, the return of the function,
`post_run` taking its lock, one notification, and marking the task finished. A run picks any
enabled step; nothing is assumed about fairness, the number of workers, the dependency graph
(a pre-task may be listed repeatedly) or which threads register. `SchedulerRuntime` holds the
mutable objects; each of its methods is proved to take exactly one step of the machine, and
its loops are proved to be runs of it. A valid scheduler object carries the run that led to
it, so that the results about runs speak about its objects.

The central fact is that the closing update of a registration tests the counter even when it
adds 0. Call a registration *overtaken* when the task has a pre-task, all its entries were
stored, and its counter had its goal before the closing update. The proofs show, on every
interleaving, that a task is pushed at most twice, and twice exactly when it was overtaken.
If no pre-task goes through `post_run` twice, overtaken means that every slot had been
notified before the closing update; in general it does not, because a second run of an
overtaken pre-task notifies all its posts again. For the same reason the posts of overtaken
tasks can start too early or be lost for good; `SchedulerCounterexamples` gives the runs, with
one registering thread and one worker.

What goes wrong is characterised exactly, for single runs and for programs. A push comes after
all pre-tasks have been credited exactly if no entry has been credited twice, and a task is
lost exactly by a closing update that takes its counter from below the goal to beyond it. For
programs whose functions wait for pre-tasks of their own task only, and with repeated
pre-tasks allowed, the exact conditions are:

- On every run each task is pushed at most once, if and only if no task has a pre-task.
- On every run each function is called at most once, if and only if one worker runs or no task
  has a pre-task; otherwise two workers may be inside the same function at a time.
- On every run tasks are queued in order, if and only if the program cannot *start early*: it
  has no task t with a pre-task q such that the entries of t reach its goal without q. Here an
  entry counts 0 if its pre-task is q or below q, otherwise 2 if its pre-task has pre-tasks,
  and otherwise 1. Without repetitions that is the same as having no pre-tasks p and q of one
  task such that p has pre-tasks and q is not one of them at any depth.
- On every run no task is lost, if and only if the program cannot *lose tasks*: no task with
  three entries or more names a pre-task that has pre-tasks itself.
- If functions wait for nothing, all runs that can go no further have finished everything, if
  and only if the program cannot lose tasks. If every function waits for all pre-tasks of its
  task and one worker runs, the same holds if and only if it can neither start early nor lose
  tasks.

Each "only if" is a run built for every program that violates the condition
(`SchedulerOvertaking`, `SchedulerCalls`, `SchedulerEarlyRun`, `SchedulerLosingRun`,
`SchedulerCompletion`, with the pieces in `SchedulerScenes`); in these runs the registrations
of several tasks are open at a time. Programs with one entry per task at most, the client's
among them, and programs whose pre-tasks have no pre-tasks keep the order, lose nothing and
always finish, whatever was overtaken. What holds without any hypothesis is proved as such:
mutual exclusion by the task locks, conservation of notifications, a linear bound on the
length of every run, freedom from lock-level deadlock, and the exact condition under which a
run that can go no further has finished everything. The comment in
`include/cpjview/common/scheduler.hpp:26` on lock order is what makes the lock argument work:
ids grow from pre to post.

**The project graph** (`StringPools`, `Entities`, `Projects`, `StorageModel`, `Storages`).
Interned strings, a node map, owned relationships, and per-symbol adjacency lists that
duplicate the relationship set. The objects refine an abstract state with three sets per
project: classes, (derived, base) pairs and (name, code) pairs. The assertions of the source
become the predicate `Acceptable` on the abstract state: no node is related to itself, and
no text is both a class and a code. For facts that satisfy this in every order (`Clean`) the
state is a function of the set of facts sent, and no assertion fails; cleanness is exactly
the condition for that. Since node and relationship maps are keyed by addresses, every
iteration order is arbitrary in the model and answers are stated as sets without repetition.

**The forest** (`NameOrder`, `ForestModel`, `InheritanceTrees`, `Displays`). Pairs are grouped
by base, rebuilt into a shared object graph and unfolded recursively with in-place sorting.
Name comparison is an arbitrary total order. The unfolding ends exactly if no path from a root
repeats a class, as for all acyclic facts; then its nodes are one to one the paths from a root
to a class, and the whole pipeline from requests to forest computes a function of the set of
requests. What is shown is also said node by node, of keys, titles and children only, and in
terms of the requests as they were sent; one forest meets that description.

**Names** (`Naming`). The printed template arguments are node keys of the graph, so they must
tell specializations apart. Their form is stated on the text itself. An inverse parser is
given, with the round trip and the conditions on the compiler's printer that it needs.

## Model

| member | source | states |
|---|---|---|
| SchedulerModel.RunAppend | src/common/scheduler.cpp:26-76 | runs compose, so results about runs hold of any interleaving cut into pieces |
| SchedulerInvariant.CreditsFrame | src/common/scheduler.cpp:51-57 | what the entries of one task have received changes only through its own slots |
| SchedulerInvariant.CreateKeepsInv | src/common/scheduler.cpp:18-24 | creating a task keeps the invariant |
| SchedulerInvariant.InsertKeepsInv | src/common/scheduler.cpp:30-34 | storing or tallying an entry keeps the invariant |
| SchedulerInvariant.CloseKeepsInv | src/common/scheduler.cpp:35 | the closing update, which runs even when the tally is 0, keeps the invariant |
| SchedulerInvariant.NotifyKeepsInv | src/common/scheduler.cpp:53-55 | one notification raises one credit of one task by one and keeps the invariant |
| SchedulerInvariant.StageStepKeepsInv | src/common/scheduler.cpp:43-57 | pop, return, lock and finish move one run of one task one stage on and keep the invariant |
| SchedulerInvariant.StepKeepsInv | src/common/scheduler.cpp:26-76 | every lock-held section keeps the invariant |
| SchedulerInvariant.RunKeepsInv | src/common/scheduler.cpp:26-76 | every run keeps the invariant |
| SchedulerSteps.RunGrows | src/common/scheduler.cpp:26-76 | pushes, starts, exits and finished flags never run backwards |
| SchedulerSteps.OnlyCloseCloses | src/common/scheduler.cpp:35 | a registration is closed by its own closing update only |
| SchedulerSteps.LockProtects | src/common/scheduler.cpp:51-76 | while post_run holds the lock of a task, no other section changes its counter, finished flag, posts or place in the queue |
| SchedulerTheorems.PushedAtMostTwice | src/common/scheduler.cpp:68-76 | on every interleaving a task is pushed at most twice, twice exactly when it was overtaken, and its function is called no more often than it is pushed |
| SchedulerTheorems.PushedAtMostOnceIff | src/common/scheduler.cpp:68-76 | all tasks are pushed at most once exactly in the runs without an overtaken registration |
| SchedulerTheorems.Conservation | src/common/scheduler.cpp:51-76 | the finished counter is the tally, once added, plus all deliveries to stored entries, reruns included |
| SchedulerTheorems.EntryIsPlaced | src/common/scheduler.cpp:59-66 | a processed entry is tallied, its pre-task being finished, or stored in a slot of its pre-task, never both |
| SchedulerTheorems.SlotIsUnique | src/common/scheduler.cpp:62 | no entry is stored in two slots |
| SchedulerTheorems.StartsAfterPres | src/common/scheduler.cpp:43-57 | a task is queued or started only after the functions of all its pre-tasks have returned, if none of these was overtaken |
| SchedulerTheorems.RunsAreBounded | src/common/scheduler.cpp:26-76 | every run, of any program, has at most 12 steps per task and 3 per pre-task entry |
| SchedulerTheorems.StepDropsMeasure | src/common/scheduler.cpp:26-76 | every step lowers a measure that is never negative |
| SchedulerTheorems.LockHolderMoves | include/cpjview/common/scheduler.hpp:26 | while any task lock is held, its holder of largest id can notify or finish: no deadlock on locks |
| SchedulerTheorems.RegistrationMoves | src/common/scheduler.cpp:26-36 | with no lock held, an open registration can go on |
| SchedulerTheorems.WorkerMoves | src/common/scheduler.cpp:130-140 | with no lock held, a busy worker can go on, the tasks its function waits for being finished |
| SchedulerTheorems.AllPresFinishedMeansPushed | src/common/scheduler.cpp:68-76 | a registered task whose pre-tasks are all finished was pushed, unless its counter passed the goal |
| SchedulerTheorems.NotOvertakenMeansNotLost | src/common/scheduler.cpp:72-75 | in any state of the invariant a counter is beyond its goal unpushed only if a pre-task of the task was overtaken (the exact guard is `SchedulerClosing.LostIffJumped`) |
| SchedulerTheorems.EndIsGoodIff | src/common/scheduler.cpp:26-76 | a run that can go no further has finished everything exactly when no task is lost and no function still waits |
| SchedulerTheorems.SomeStepIsEnabled | src/common/scheduler.cpp:38-76 | without overtaken pre-tasks some step is possible until everything is finished |
| SchedulerTheorems.MaximalRunFinishesAll | src/common/scheduler.cpp:38-57 | without overtaken pre-tasks a run that can go no further has finished every task, and every wait returns |
| SchedulerTheorems.StepUnlessAtRest | src/common/scheduler.cpp:38-76 | with no task queued too early and none lost some step is possible until everything is finished |
| SchedulerClosing.ClosingStep | src/common/scheduler.cpp:35 | a closed registration was closed by exactly one step, and nothing it decided changes afterwards |
| SchedulerClosing.SerialRegistersInTurn | src/common/scheduler.cpp:18-36 | with one registering thread all created tasks but the last are registered |
| SchedulerClosing.OvertakenIff | src/common/scheduler.cpp:68-76 | a registration is overtaken exactly if the task has pre-tasks and, when the closing update added nothing, its counter had its goal already |
| SchedulerClosing.OvertakenIffAllNotified | src/common/scheduler.cpp:51-76 | if no pre-task goes through post_run twice, overtaken means that every entry was stored and every slot notified before the closing update |
| SchedulerClosing.OvertakenMeans | src/common/scheduler.cpp:26-36 | an overtaken task has pre-tasks, each entry was stored, and its counter had its goal before the closing update, which added nothing |
| SchedulerClosing.ExactPushCount | src/common/scheduler.cpp:68-76 | once registered, with each pre-task through post_run once, the counter is at its goal and the task was pushed once; or twice, exactly if it has pre-tasks and all its slots were notified before the closing update |
| SchedulerClosing.StepLosesIff | src/common/scheduler.cpp:72-75 | a step loses a task exactly if it is its closing update and takes the counter from below the goal to beyond it |
| SchedulerClosing.LostIffJumped | src/common/scheduler.cpp:72-75 | on every run a closed task is lost exactly if its counter jumped over the goal in its closing update |
| SchedulerClosing.JumpNeedsTwice | src/common/scheduler.cpp:53-55 | such a jump needs three entries and one that an overtaken pre-task has notified twice |
| SchedulerClosing.LostNeedsOvertakenPre | src/common/scheduler.cpp:51-76 | a lost task has three entries at least and an overtaken pre-task |
| SchedulerOrder.PushInOrderIff | src/common/scheduler.cpp:72-75 | at a push all entries are registered and credited exactly if none is credited twice |
| SchedulerOrder.PushedAfterAllAbove | src/common/scheduler.cpp:43-57 | on a program that cannot start early, whatever was overtaken, a task is queued only after the functions of all tasks above it have returned |
| SchedulerOrder.NeverLoses | src/common/scheduler.cpp:26-36 | a program in which no task with three entries names a pre-task with pre-tasks loses no task on any run |
| SchedulerOrder.TwoEntriesLoseNone | src/common/scheduler.cpp:26-36 | in particular, with two entries per task at most no task is lost on any run |
| SchedulerOrder.OrderlyProgramFinishes | src/common/scheduler.cpp:38-57 | a program that can neither start early nor lose tasks has finished everything when it can go no further, whatever was overtaken |
| SchedulerOrder.UnwaitingProgramFinishes | src/common/scheduler.cpp:38-57 | a program whose functions wait for nothing and that cannot lose tasks has finished everything when it can go no further, in order or not |
| SchedulerOrder.SimplePrograms | src/common/scheduler.cpp:26-76 | with one entry per task at most, or with pre-tasks that have no pre-tasks, order, completion and absence of lost tasks hold on every run |
| SchedulerScenes.Drain | src/common/scheduler.cpp:130-140 | from every state the workers reach one in which none of them can go on, also if one task is never picked |
| SchedulerOvertaking.OvertakingRun | src/common/scheduler.cpp:35 | for every task with a pre-task, in any program, a run that pushes it twice |
| SchedulerOvertaking.PushedOnceOnAllRunsIff | src/common/scheduler.cpp:68-76 | on every run tasks are pushed at most once exactly if no task has a pre-task |
| SchedulerEarlyRun.EarlyRun | src/common/scheduler.cpp:26-76 | for every task that reaches its goal without one of its pre-tasks, repeated entries included, a run in which it is queued and that pre-task was never called |
| SchedulerEarlyRun.EarlyIffLoose | src/common/scheduler.cpp:51-57 | a program without repeated pre-tasks can start early exactly if some task has pre-tasks p and q such that p has pre-tasks and q is not above p |
| SchedulerLosingRun.LosingRun | src/common/scheduler.cpp:26-76 | for every task with three entries and a pre-task with pre-tasks, a run that loses it |
| SchedulerCalls.RunKeepsWaitsMet | src/common/scheduler.cpp:38-49 | every run keeps that whatever a returned function has waited for is finished |
| SchedulerCalls.PopCalls | src/common/scheduler.cpp:43-46 | a pop calls the function exactly if no run of its task has returned, and nothing else calls it |
| SchedulerCalls.RunKeepsStartsAreCalls | src/common/scheduler.cpp:43-46 | every run keeps that until a function has returned every start of its task has called it |
| SchedulerCalls.OneWorkerCallsOnce | src/common/scheduler.cpp:43-46 | with one worker no function is called twice, however often its task is queued |
| SchedulerCalls.CallingTwiceRun | src/common/scheduler.cpp:43-46 | for two workers and every task with a pre-task, a run with both workers inside its function |
| SchedulerCalls.CalledOnceOnAllRunsIff | src/common/scheduler.cpp:43-46 | on every run functions are called at most once exactly if one worker runs or no task has a pre-task |
| SchedulerCompletion.AlwaysInOrderIff | src/common/scheduler.cpp:26-76 | on every run tasks are queued in order exactly if no task can reach its goal without one of its pre-tasks |
| SchedulerCompletion.NeverLosesIff | src/common/scheduler.cpp:72-75 | on every run no task is lost exactly if no task with three entries names a pre-task with pre-tasks |
| SchedulerCompletion.AlwaysFinishesIff | src/common/scheduler.cpp:38-57 | if functions wait for nothing, every run that can go no further has finished everything exactly if the program cannot lose tasks |
| SchedulerCompletion.OneWorkerFinishesIff | src/common/scheduler.cpp:38-57 | if functions wait for all pre-tasks of their task and one worker runs, every run that can go no further has finished everything exactly if the program can neither start early nor lose tasks |
| SchedulerCounterexamples.OvertakenIsReachable | src/common/scheduler.cpp:35 | a run in which a task is pushed twice |
| SchedulerCounterexamples.TaskStartsBeforePre | src/common/scheduler.cpp:53-55 | a run in which a task starts although one of its pre-tasks has not started |
| SchedulerCounterexamples.OvertakenBeforePre | src/common/scheduler.cpp:35 | a run in which a task is overtaken although one of its slots is unnotified and that pre-task has not started |
| SchedulerCounterexamples.TaskIsLost | src/common/scheduler.cpp:72-75 | a run that can go no further with a registered task that was never pushed |
| SchedulerClosing.LostForever | src/common/scheduler.cpp:72-75 | nothing that happens later pushes a lost task |
| ClientGraph.ClientSafety | src/client/analysis/analysis_manager.cpp:11-25 | on all interleavings a load is pushed at most once, an analysis at most twice, no analysis starts before the function of its load has returned, and none returns before its load has finished |
| ClientGraph.ClientCompletes | src/client/client.cpp:74-82 | the client's runs have at most 27 steps per file; at their end each load was pushed once, each analysis once or twice, and the waiting loop returns |
| ClientGraph.AnalysisPushedTwice | src/client/analysis/analysis_manager.cpp:11-25 | for any number of files and workers, and with one registering thread, a run in which an analysis is pushed twice |
| ClientGraph.AnalysisHasItsLoad | src/client/analysis/analysis_manager.cpp:14 | the function of an analysis has returned only if its load has finished |
| ClientGraph.AnalysisCalledTwice | src/client/analysis/analysis_manager.cpp:11-25 | for any number of files, two workers or more and one registering thread, a run with two workers inside the same analysis |
| ClientGraph.LoadHasOnePost | src/client/loader/loader.cpp:57-58 | a load has at most one post, its own analysis |
| ClientGraph.NoAnalysisQueued | include/cpjview/client/utils/task_priority.hpp:7-8 | a load is popped only when no analysis is queued |
| ClientGraph.StepKeepsFlight | src/common/scheduler.cpp:79-125 | every step keeps the bound on loaded syntax trees |
| ClientGraph.InFlightBound | include/cpjview/client/utils/task_priority.hpp:7-8 | queued and running analyses and loads that have not notified exceed the workers by no more than the pushes of closing updates |
| ClientGraph.QueueAndWorkersBound | include/cpjview/client/utils/task_priority.hpp:7-8 | the same bound, counted in the queue and the hands of the workers |
| SchedulerRuntime.TaskNode.InsertPost | src/common/scheduler.cpp:59-66 | stores the post and says so, or says that the task is finished and stores nothing |
| SchedulerRuntime.Scheduler.CreateTask | include/cpjview/common/scheduler.hpp:70-73 | appends a new task object; the machine takes its creation step |
| SchedulerRuntime.Scheduler.RegisterNext | src/common/scheduler.cpp:30-34 | the objects after one registration entry are those of the machine's step |
| SchedulerRuntime.Scheduler.UpdateFinishedPreCount | src/common/scheduler.cpp:68-76 | adds to the counter and queues the object exactly when the counter equals its goal |
| SchedulerRuntime.Scheduler.CloseRegistered | src/common/scheduler.cpp:35 | the objects after the closing update are those of the machine's step |
| SchedulerRuntime.Scheduler.PopReady | src/common/scheduler.cpp:109-125 | takes a queued object of maximal priority; the machine pops the same task |
| SchedulerRuntime.Scheduler.QueueTop | src/common/scheduler.cpp:79-84 | a queued object of maximal priority is a top of the machine's queue |
| SchedulerRuntime.Scheduler.CallReturned | src/common/scheduler.cpp:44-46 | the function has returned and is swapped for the empty one |
| SchedulerRuntime.Scheduler.TakeLock | src/common/scheduler.cpp:52 | post_run locks its own task |
| SchedulerRuntime.Scheduler.NotifyNext | src/common/scheduler.cpp:53-55 | the objects after one notification are those of the machine's step |
| SchedulerRuntime.Scheduler.FinishTask | src/common/scheduler.cpp:56-57 | the task is marked finished and unlocked |
| SchedulerRuntime.Scheduler.SyncWithPreTasks | src/common/scheduler.cpp:26-36 | without interference a registration is one insertion per entry and then the closing update |
| SchedulerRuntime.Scheduler.PostRun | src/common/scheduler.cpp:51-57 | without interference post_run is lock, one notification per stored post in order, finish |
| SchedulerRuntime.Scheduler.HandledAtMostTwice | src/common/scheduler.cpp:43-76 | a task object is in the queue and in the hands of workers twice at most |
| SchedulerRuntime.Scheduler.QueuedAfterPres | src/common/scheduler.cpp:43-76 | in a program that cannot start early the functions of all pre-task objects of a queued object have returned |
| SchedulerRuntime.Scheduler.ObjectsFinish | src/common/scheduler.cpp:38-57 | such a program, if it cannot lose tasks either, ends with every task object finished and unlocked |
| Naming.GetTemplateName | src/client/analysis/naming.cpp:12-29 | the loop and its recursion into packs print the argument list: atoms as they are, packs in braces, and exactly a comma and a blank between arguments |
| Naming.GetRecordName | src/client/analysis/naming.cpp:31-47 | the node key: the qualified name, and for a specialization then the argument list between an opening and a closing angle bracket |
| Naming.ShowsAllIff | src/client/analysis/naming.cpp:12-29 | a text with atoms as they are, packs in braces and comma and blank between arguments is the printed list, and the other way round |
| Naming.NamesIff | src/client/analysis/naming.cpp:31-47 | a text is the node key of a record exactly if it reads name, bracket, argument list, bracket |
| Naming.RenderIsClosed | src/client/analysis/naming.cpp:16-28 | a printed argument list has balanced brackets |
| Naming.TopCommaAfterItem | src/client/analysis/naming.cpp:28 | a scan for the first comma outside brackets stops exactly behind an argument |
| Naming.ParseRender | src/client/analysis/naming.cpp:12-29 | reading a printed argument list back gives the arguments, nested packs included |
| Naming.RenderIsInjective | src/client/analysis/naming.cpp:12-29 | different argument lists have different texts |
| Naming.RenderCollidesWithoutConditions | src/client/analysis/naming.cpp:24 | each condition on printed atoms is needed |
| Naming.OnlyBalanceIsMissing | src/client/analysis/naming.cpp:24 | the collision for unbalanced brackets breaks no other condition |
| Naming.RecordNameIsInjective | src/client/analysis/naming.cpp:31-47 | different records have different node keys |
| StringPools.StringPool.EnsureStringInCache | include/cpjview/server/persistence/string_pool.hpp:15-19 | one index per text; indices handed out earlier stay |
| StringPools.StringPool.IndexIsText | include/cpjview/server/persistence/string_pool.hpp:13-19 | pooled indices are equal exactly when their texts are |
| Entities.Symbol.AddRelationship | include/cpjview/server/persistence/entity.hpp:47-50 | appends to the list of one kind and leaves the other lists |
| Entities.Symbol.GetRelationship | include/cpjview/server/persistence/entity.hpp:81-92 | the only relationship of a kind, or none |
| Projects.Project.EnsureNode | src/server/persistence/project.cpp:9-25 | returns the node of that name whatever its kind, or adds one; all invariants stay |
| Projects.Project.Scan | src/server/persistence/project.cpp:30-34 | the scan of the mixed incoming and outgoing list finds the edge exactly when the project owns it |
| Projects.IndexGrows | src/server/persistence/project.cpp:54-55 | after both appends each list again holds exactly the owned relationships of its symbol, each once |
| Projects.Project.EnsureRelationship | src/server/persistence/project.cpp:27-56 | the pairs of one kind grow by the pair, the others stay, and index agreement, well-typedness and uniqueness are kept |
| Projects.Project.HasSingleCode | include/cpjview/server/persistence/entity.hpp:90 | the assertion on the number of relationships holds exactly if the name has one code text at most |
| Projects.Project.Relate | src/server/persistence/project.cpp:58-67 | what the project means becomes the abstract update of what it meant |
| Projects.Project.EnsureLabelled | src/server/persistence/storage.cpp:155 | a label adds a class unless the text is a node already |
| Projects.Project.CodeNodesAreCodes | src/server/persistence/project.cpp:58-67 | the code nodes are exactly the codes of the stored pairs |
| Projects.Project.PairsAreDistinct | src/server/persistence/project.cpp:30-34 | no two owned relationships share kind, source name and target name |
| Projects.Project.CollectInheritances | include/cpjview/server/persistence/project.hpp:44-54 | the inheritance pairs as a list without repetition |
| Projects.Project.CollectClasses | include/cpjview/server/persistence/project.hpp:29-39 | the class names as a list without repetition |
| Projects.Project.OneCodeOneEdge | include/cpjview/server/persistence/entity.hpp:90 | a class with one code text has one source-code edge, so the size assertion holds |
| StorageModel.ExecuteAfterPut | src/server/persistence/storage.cpp:16-18 | making sure of the project first changes nothing else |
| StorageModel.PairsAreRequests | src/server/persistence/storage.cpp:50-63 | after any requests a pair is stored exactly if it was sent |
| StorageModel.CodesAreRequests | src/server/persistence/storage.cpp:91-101 | after any requests a code of a name is stored exactly if it was sent |
| StorageModel.ClassesAreRequests | src/server/persistence/project.cpp:58-67 | after clean requests a name is a class exactly if it was sent as derived, as base, as owner of a code or as a label |
| StorageModel.StateIsFunctionOfFacts | src/server/persistence/project.cpp:9-67 | for clean facts every assertion holds and the state is that of the set of facts |
| StorageModel.OrderDoesNotMatter | src/server/persistence/project.cpp:27-67 | any order and repetition of the same operations gives the same state |
| StorageModel.AllOrdersSucceedIffClean | src/server/persistence/project.cpp:9-29 | all permutations of the operations, and all lists of the same operations, pass all assertions exactly when the facts are clean |
| StorageModel.ExecuteFrames | src/server/persistence/storage.cpp:50-63 | an operation leaves every other project and removes no fact |
| StorageModel.OrderMattersForClashes | src/server/persistence/project.cpp:10-13 | a class and code clash passes in one order and fails in the other |
| Storages.Storage.Intern | src/server/persistence/storage.cpp:19-21 | adds a string; projects, meanings and earlier indices stay |
| Storages.Storage.EnsureProject | include/cpjview/server/persistence/kv.hpp:30-32 | the project of a name, a new one only if there is none |
| Storages.Storage.PutProject | src/server/persistence/storage.cpp:32-36 | an existing project keeps everything; all other projects stay |
| Storages.Storage.AddInheritance | src/server/persistence/storage.cpp:50-63 | the storage means the abstract update; objects of other projects are untouched |
| Storages.Storage.PutCode | src/server/persistence/storage.cpp:91-101 | the storage means the abstract update; objects of other projects are untouched |
| Storages.Storage.PutLabel | src/server/persistence/storage.cpp:139-157 | a record label adds a class; any other label is refused and changes no project |
| Storages.Storage.GetProjects | src/server/persistence/storage.cpp:38-44 | exactly the project names, each once |
| Storages.Storage.GetInheritances | src/server/persistence/storage.cpp:65-85 | exactly the pairs, each once; not found exactly for unknown projects |
| Storages.Storage.GetClasses | src/server/persistence/storage.cpp:163-179 | exactly the classes, each once; not found exactly for unknown projects |
| Storages.Storage.GetCode | src/server/persistence/storage.cpp:103-133 | a stored code of the name; not found only if the project is unknown or the name has none; no defined answer exactly for a known project and a name that is no node of it or has several codes |
| Storages.Serve | src/server/persistence/storage.cpp:32-179 | over every acceptable history the objects mean what the abstract state prescribes |
| NameOrder.SortedIsUnique | src/frontend/inheritance_tree.tsx:27 | a multiset of names has one sorted list |
| NameOrder.SortArranges | src/frontend/inheritance_tree.tsx:53-55 | sorting a list without repetition depends on its set only |
| ForestModel.PathIsBounded | src/frontend/inheritance_tree.tsx:22-30 | in an acyclic graph paths repeat no class, so the unfolding ends |
| ForestModel.UnfoldingEndsIff | src/frontend/inheritance_tree.tsx:22-30 | the unfolding of the roots is defined exactly when the paths from roots are bounded in length |
| ForestModel.UnfoldShows | src/frontend/inheritance_tree.tsx:22-30 | the tree below a path shows exactly the continuations of the path, each once, with the right titles and keys, that of a root being its title |
| ForestModel.ForestShowsRootPaths | src/frontend/inheritance_tree.tsx:83-89 | the nodes of the forest are, one to one, the paths from a root to a class |
| ForestModel.ForestIsLaid | src/frontend/inheritance_tree.tsx:22-30 | roots and the children of every node are sorted by title, children are those of the lists, a root's key is its title and a child's key is its parent's key, a dash and its title |
| ForestModel.LaidForestIsUnique | src/frontend/inheritance_tree.tsx:22-30 | and only one forest looks like this |
| ForestModel.OccursOncePerPath | src/frontend/inheritance_tree.tsx:22-30 | a class is shown as often as there are paths from a root to it |
| ForestModel.ShownIffReached | src/frontend/inheritance_tree.tsx:83-89 | a class is shown exactly if a root reaches it |
| ForestModel.RootlessCycle | src/frontend/inheritance_tree.tsx:83-89 | two classes derived from each other have no root: the code ends and shows nothing |
| ForestModel.EveryClassIsShown | src/frontend/inheritance_tree.tsx:83-89 | no class of an acyclic graph is missing |
| ForestModel.JoinIsInjective | src/frontend/inheritance_tree.tsx:28 | names without a dash can be read off a key |
| ForestModel.NestedJoinIsInjective | src/frontend/inheritance_tree.tsx:28 | names whose dashes are inside balanced brackets can be read off a key |
| ForestModel.KeysAreDistinct | src/frontend/inheritance_tree.tsx:22-30 | the keys of a forest are pairwise distinct if no class name has a dash, or if all dashes of all names are inside balanced brackets |
| ForestModel.DashesClash | src/frontend/inheritance_tree.tsx:28 | for any two names, the class named by their path makes a key occur twice |
| InheritanceTrees.GroupByBase | src/server/http/http.cpp:133-142 | for each base that occurs, the derived classes of its pairs in the order of the pairs, given by increasing positions |
| InheritanceTrees.PicksIsUnique | src/server/http/http.cpp:133-142 | the positions leave one list only |
| InheritanceTrees.DerivedOfCounts | src/server/http/http.cpp:133-142 | each pair counts once, in the list of its base only |
| InheritanceTrees.CppClass.SortDerived | src/frontend/inheritance_tree.tsx:26-27 | sorts in place; the object graph stays the same up to the order of derived classes |
| InheritanceTrees.CppClass.ToTreeNode | src/frontend/inheritance_tree.tsx:22-30 | the recursion over the shared objects gives the unfolding of the graph |
| InheritanceTrees.ClassMapping.GetOrCreate | src/frontend/inheritance_tree.tsx:39-40 | the one object of a name, a new first base if there is none |
| InheritanceTrees.ClassMapping.Derive | src/frontend/inheritance_tree.tsx:44-45 | the object graph represents the lists read so far, with one derived class more |
| InheritanceTrees.CreateCppClasses | src/frontend/inheritance_tree.tsx:33-56 | the objects represent exactly the lists; one object per name mentioned or listed, sorted by name |
| InheritanceTrees.RootsAreNeverDerived | src/frontend/inheritance_tree.tsx:45 | the roots of the graph are the classes that are never derived |
| InheritanceTrees.DrawRoots | src/frontend/inheritance_tree.tsx:83-89 | the root loop gives the forest of the graph, roots and children sorted by title and keys as in ForestIsLaid |
| InheritanceTrees.BuildTree | src/frontend/inheritance_tree.tsx:33-89 | from lists and class names to the forest: sorted roots that no list contains, sorted children with the multiplicity of the lists, keys joined by dashes |
| Displays.Rebuild | src/frontend/inheritance_tree.tsx:33-56 | grouping and rebuilding keep the pairs with multiplicity; nodes are pair ends and listed classes; first bases are the classes never derived |
| Displays.GroupedGraph | src/server/http/http.cpp:133-142 | lists without repetition of the stored sets rebuild the graph of the facts |
| Displays.HistoryKeepsEnds | src/server/persistence/project.cpp:63-66 | both ends of a stored pair are classes |
| Displays.ShowProject | src/frontend/inheritance_tree.tsx:67-89 | the answers of the storage give the forest of its facts |
| Displays.ForestIsUnique | src/frontend/inheritance_tree.tsx:67-89 | the requests determine that forest, keys and order included |
| Displays.Display | src/frontend/inheritance_tree.tsx:67-89 | any order, interleaving and repetition of the same clean requests whose roots reach no cycle shows the same forest; its roots are the requested classes never sent as derived, the children of a node the classes sent as derived from it, both sorted and each once, with the right keys |

## Left out

- StartsAfterPres: one direction only, for single runs; the exact conditions are PushInOrderIff for one push and AlwaysInOrderIff for all runs of a program.
- AlwaysInOrderIff: the runs that break the order, and those of NeverLosesIff, PushedOnceOnAllRunsIff and CalledOnceOnAllRunsIff, need functions that wait for pre-tasks of their own task only (no other wait occurs in the client), and several open registrations; with one registering thread the conditions suffice, but whether they are necessary depends on priorities and workers and is not stated, but for the client (AnalysisPushedTwice, AnalysisCalledTwice).
- OrderlyProgramFinishes: one direction only for functions that wait for some of their pre-tasks or with several workers; the exact conditions are AlwaysFinishesIff, OneWorkerFinishesIff and, for single runs, EndIsGoodIff.
- MaximalRunFinishesAll: one direction only; the exact condition for all runs is EndIsGoodIff.
- NotOvertakenMeansNotLost: one direction only; the exact condition is LostIffJumped.
- KeysAreDistinct: one direction only; a dash outside brackets causes a clash in some graphs (DashesClash) but not in every graph.
- RenderIsInjective: character arguments that print as a quoted bracket or comma are counted as brackets and commas by Printable, so that names with such arguments are outside the condition.
- Serve: handles requests one after the other; the storage takes no lock, and concurrent requests are not modelled.
- GetCode: Undefined stands for a null dereference or a failed assertion of the source; what the process then does is not modelled.
- Display: requires clean facts in which no root reaches a cycle; on other facts an assertion of the storage fails or the recursion in the browser does not end.
- Scheduler shutdown, thread joining and `~Task` waiting: the destructor sets the stop flag without the queue lock, so shutdown is not claimed to end.
- Condition variables and spurious wakeups: waiting is modelled by the condition that is waited for, and taking the lock inside `Task::wait` is not a step of its own.
- The queue lock: pushing happens inside the locked section of the counter update and never waits for a task lock, so push and update are one step.
- The priority queue's internals and its order among equal priorities: any queued task of maximal priority may be taken.
- The history counters of the state machine (pushes, starts, exits, locks, dones, overtaken) have no counterpart in the source; they only record what has happened.
- Atomicity of a function's own effects: load and analysis functions are opaque; they return once the tasks they wait for are finished.
- Integer widths: ids and counters are unbounded, as no program creates enough tasks to wrap them.
- HTTP routing, JSON text, protocol decoding and the client's HTTP calls.
- Clang visitors, syntax tree building, the compilation database, path filters and argument parsing.
- Strings with embedded NUL characters, which the pool's C strings would cut short.
- Lifetimes and ownership of C++ objects; nothing is ever removed from a project.
- Locale collation: comparison is an arbitrary total order on names, so names that a locale considers equal are not modelled.
- The integer-key-first iteration order of JavaScript objects: bases are read in arbitrary order.
- React components, dragging, selection and fetching.
