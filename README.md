# simpkg, modelled in Dafny

simpkg is a Go toolkit for automation bots. Its centre is a task pipeline and a worker registry:

- A **task** runs a handler with bounded retries. A predicate may veto a retry. The task moves through the statuses pending, start, retry, fail and success, and fires its lifecycle hooks in a fixed order.
- A **task manager** sorts its tasks once by `Order`. It runs them one at a time, each next task started from the end-of-run callback of the one before. The chain stops on an error or when a task suppresses chaining.
- A **worker manager** keeps an ordered registry of workers. It builds a worker and lets it parse its configuration. It rejects duplicate ids, hands the worker its cache, logger, task manager and HTTP client, and boots it. Each change is published as an event.

Around that centre sit small in-memory structures and string routines:

- slice helpers and the search-expression matcher;
- a keyed row store;
- a proxy switcher with use/release rules;
- a captcha token pool with deduplication by checksum;
- the identity service's client and UI-token tables;
- the translator with its locale list and placeholder substitution;
- a synchronous event bus;
- the logger's paging and file naming;
- the file cache's path composition;
- the encryptor's key normalisation and daily key;
- `format.Replace`;
- request forms and their registry;
- the five-minute repeating time range;
- base64 data URLs for images.

## How the model is built

- There is one Dafny module per Go source file. The modules `Common`, `GoStrings`, `Paths` and `Sorting` support the others: results and errors, the parts of Go's `strings`, `path/filepath` and `sort` packages that the code calls.
- Objects whose methods update their fields are classes with the same fields. Their methods state the whole new state.
- Pure computations are functions. Lemmas state the properties the code promises, against those functions.
- Callbacks, hooks and published events are recorded in an appended trace.
- A task's handler is the supplied sequence of its results.
- The fields of a Go `Task` that `Start` reads but never writes are grouped into one `config` value of the Dafny `Task`. These are `Handler`, `RetryCondition`, the four message flags, the hooks `OnStart`, `OnRetry`, `OnError` and `OnSuccess`, and whether a task manager has installed `onRunEnd`.
- The chain of `runNext` calls, which Go makes through each task's end-of-run callback, is a loop. Its contracts are stated over a value snapshot of the manager (module `TaskChain`): the tasks run, what each run did, and why the chain stopped.
- A worker type of the application is described by the answers its `Init` and `Boot` give.
- Time, randomness, checksums, url parsing, the cipher, the base64 codec of the encryptor, file contents and the directory walks are parameters.
- The code's own error strings appear verbatim in `Common.Error`.

Two behaviours of the code are worth knowing before reading the task contracts:

- The task sort uses `sort.Sort`, which is not stable. `TaskManager.Manager.Sort` therefore promises a permutation ordered by `Order`, and nothing about the order of tasks with equal `Order`.
- A failure followed by a vetoed retry counts the vetoed iteration as an attempt, so `Attempts()` is 2. See `Tasks.VetoedRetryCountsAttempt`.

## Model

| member | source | states |
|---|---|---|
| Tasks.Notify | tasks/manager.go:86-92 | one event per registered status observer, in registration order, each carrying the task and its status |
| Tasks.ResetState | tasks/task.go:100-105 | `reset` clears the error, sets pending and zero attempts, and keeps the retry count, the message and the handler position |
| Tasks.Task.constructor | tasks/task.go:28-55 | a task literal: the given name, order, retries and handler, every other field at its Go zero value (empty status, no hooks, chaining off) |
| Tasks.Task.Reset | tasks/task.go:100-105 | after `reset`: no error, pending, `executeNextTask` set, no attempts; every other part of the state kept |
| Tasks.Task.Attempts | tasks/task.go:73-76 | the attempts counted by the last run |
| Tasks.Task.IsError | tasks/task.go:78-81 | true exactly when an error is stored |
| Tasks.Task.IsDone | tasks/task.go:83-86 | true exactly when the status is success or fail; a task that `IsSuccess` is done |
| Tasks.Task.IsSuccess | tasks/task.go:88-91 | true exactly when the status is success |
| Tasks.Task.Start | tasks/task.go:108-193 | the new state and the event trace of `Start` are those of the reference function `StartRun` on the old state, the lemmas below state what that function does |
| Tasks.Task.RetryLoop | tasks/task.go:134-167 | the counted loop with its two `break` exits leaves the state and events the reference iteration gives from index 0 |
| Tasks.Task.Iteration | tasks/task.go:135-166 | one loop body: a `break` (veto or nil result) finishes the loop, otherwise the remaining iterations continue from the next index |
| Tasks.Task.Conclude | tasks/task.go:169-192 | error hook, success hook, final status and the end-of-run callback, as the reference `Finish` gives them |
| Tasks.FireShape | tasks/manager.go:97-111 | a (possibly wrapped) hook only notifies observers of the status it was fired for and calls user hooks with its own arguments |
| Tasks.IterateFacts | tasks/task.go:134-167 | the loop keeps `Retries`, counts one attempt per entered iteration (between 1 and the remaining count), calls the handler until its first nil result, and leaves `err` as the last handler result |
| Tasks.AttemptFacts | tasks/task.go:155-166 | one handler call: a nil result ends the loop with `err` cleared, an error is stored and the loop goes on |
| Tasks.StartRunOutcome | tasks/task.go:121-189 | on a task not yet succeeded: `Retries == 0` is stored as 1, 1 <= attempts <= R, every handler result but the last was an error, `err` is the last result, and status is success iff `err` is nil and fail iff it is not |
| Tasks.StartedIsDone | tasks/task.go:73-91 | after `Start` the task `IsDone`; unless it had already succeeded, `IsSuccess` holds exactly when `IsError` does not, and with a positive retry bound `Attempts` is between 1 and that bound |
| Tasks.FinishShape | tasks/task.go:169-192 | after the loop only the hook matching `err` fires (error hook with that error, success hook on nil), followed by the end-of-run callback |
| Tasks.AppendRunEnd | tasks/task.go:109-113 | the end-of-run callback adds exactly one run-end event followed only by the observer notifications, and nothing when no manager installed it |
| Tasks.StartRunEndsRun | tasks/task.go:109-119 | on both the early and the normal path `onRunEnd` fires exactly once, as the last action, followed only by the manager's observer notifications |
| Tasks.StartRunHooks | tasks/task.go:116-119 | a succeeded task is left unchanged and no hook is called; otherwise the success hook fires iff `err` ends nil, the error hook fires with the final error when it does not |
| Tasks.VetoedRetryCountsAttempt | tasks/task.go:134-145 | a failure followed by a veto of the retry gives two attempts, one handler call, no retry hook, and a failed task |
| Tasks.FailFailSucceed | tasks/task.go:134-160 | two failures and a nil result with three retries: success on the third attempt after three handler calls |
| Tasks.StartRunCallsOnlyTaskHooks | tasks/task.go:108-193 | `Start` calls only the task's own hooks and the status observers, never the manager's start, stop or complete hooks |
| TaskManager.FirstNamed | tasks/manager.go:206-214 | the position of the first task with that name, -1 exactly when no task has it |
| TaskManager.FirstNamedIs | tasks/manager.go:206-214 | the search loop's answer is the first named position |
| TaskManager.SortedByOrder | tasks/manager.go:279-281 | sorting by a snapshot of `Order` (the `Less` of `Items`) leaves `Order` non-decreasing |
| TaskManager.Manager.constructor | tasks/manager.go:43-48 | `New`: no tasks, no observers, no callbacks, no current task, neither sorted nor started |
| TaskManager.Manager.OnStatusChange | tasks/manager.go:66-68 | the observer is registered after those already registered |
| TaskManager.Manager.SetOnStart | tasks/manager.go:71-73 | `OnStart` stores the manager's start callback |
| TaskManager.Manager.SetOnStop | tasks/manager.go:76-78 | `OnStop` stores the manager's stop callback |
| TaskManager.Manager.SetOnComplete | tasks/manager.go:81-83 | `OnComplete` stores the manager's completion callback |
| TaskManager.Manager.Add | tasks/manager.go:95-132 | the task becomes pending and is appended at the end; its start and retry hooks are wrapped so that every status observer runs before the old hook; the end-of-run callback is installed |
| TaskManager.Manager.SetCurrent | tasks/manager.go:201-203 | the current task becomes the given one |
| TaskManager.Manager.Get | tasks/manager.go:206-214 | the first task with that name, or nil exactly when no task has it |
| TaskManager.Manager.Move | tasks/manager.go:177-198 | the target index is `from + 1` (or `from - 1` clamped at 0); completed iff it is past the last position; otherwise the first listed task holding that index, with its position, or nil when no task holds it |
| TaskManager.Manager.Sort | tasks/manager.go:269-277 | on the first call only: a permutation of the tasks with `Order` non-decreasing, each task's index the (last) position it holds in the list; states, configurations, callbacks and the current task untouched; a later call changes nothing |
| TaskManager.OrderedByOrder | tasks/manager.go:271 | `sort.Sort` by `Order`: a permutation with non-decreasing `Order`, ties in no promised order |
| TaskManager.Manager.AssignIndices | tasks/manager.go:272-274 | every task gets as index the last position it holds in the sorted list; only the indexes change |
| TaskManager.PositionedFirst | tasks/manager.go:272-274 | once sorted, with no task listed twice, the first listed task holding index `i` is the one at position `i`, so the chain from the start runs the tasks in sorted order |
| TaskManager.Manager.Stop | tasks/manager.go:252-257 | `isStarted` cleared and the stop callback, when set, called once |
| TaskManager.Manager.Reset | tasks/manager.go:260-266 | not started, no current task, every task reset, none removed |
| TaskManager.Manager.Once | tasks/manager.go:217-228 | an unknown name gives "task not found" and changes nothing; otherwise the first task with that name is reset and run with chaining suppressed, `executeNextTask` is restored, its error is returned, other tasks and the current task are untouched, and `isStarted` ends false through `onRunEnd` |
| TaskManager.Manager.RunAlone | tasks/manager.go:223-227 | the task is reset and run with chaining suppressed, after which a task of this manager has stopped the manager, and chaining is enabled again |
| TaskManager.Manager.Start | tasks/manager.go:231-249 | sorts as `Sort` states, so the list is ordered by `Order` and each task's index is its position; an empty list then changes nothing more and calls no callback, the current task included; otherwise the manager is marked started and onStart is called first; with no current task the chain from index 0 then runs as `RunNext` states, each task run being the first listed task holding the next index; with a current task that task runs as it is, without a reset, and its end-of-run callback goes on as `Resume` states |
| TaskManager.Manager.Reorder | tasks/manager.go:271-275 | the list becomes the sorted sequence of the same tasks and is marked sorted; the set of tasks, their states, configurations and indexes are untouched |
| TaskManager.Manager.Begin | tasks/manager.go:233-248 | after the sort: an empty list changes nothing, the current task included; otherwise the run `Launch` states, list and indexes untouched |
| TaskManager.Manager.Launch | tasks/manager.go:237-248 | on a non-empty list: started, onStart called, then the chain from index 0 (no current task), each task run the first listed task holding the next index, or the current task's run and its callback, as `RunNext` and `Resume` state; list and indexes untouched |
| TaskManager.Manager.Resume | tasks/manager.go:248 | the current task runs once from its state as it is, with its own configuration; the chain goes on from it, as `RunNext` states (each task run the first listed one holding the next index), exactly when it carries this manager's callback, is listed, ended without an error and allows chaining; otherwise a task of this manager stops the manager, and any other task changes nothing else |
| TaskManager.Manager.Continue | tasks/manager.go:114-128 | the end-of-run callback: the chain goes on from the task, as `RunNext` states, exactly when it has no error and `executeNextTask` is set; otherwise only `isStarted` is cleared |
| TaskManager.Manager.RunNext | tasks/manager.go:135-174 | from a failed task or a stopped manager nothing runs and the manager is left stopped; otherwise the tasks run hold consecutive indexes after `from`, each the first listed task holding its index (the one `move` finds), each ran once from its state reset and with its configuration, and all but the last ended without an error by a task of this manager; the chain stopped because it got past the last index (manager stopped, onComplete called once when set), the last task failed or has no manager callback, or no task holds the next index; list, indexes, configurations and callbacks are untouched, tasks not run keep their state, no manager hook is called; with every task this manager's the manager ends stopped |
| TaskManager.Manager.Step | tasks/manager.go:136-173 | one turn of the chain: the checks of `runNext` on the task just ended either end the chain (as `RunNext` states) or run the first listed task holding the next index, which extends the chain by one run |
| TaskManager.Manager.Seek | tasks/manager.go:146-173 | the search of `runNext` once the checks pass: past the last index or at an index no task holds the chain ends as `End` states; otherwise the first listed task holding the next index runs as `Turn` states |
| TaskManager.Manager.Halt | tasks/manager.go:136-144 | a failed task just ended or a stopped manager ends the chain with nothing more run and the manager stopped |
| TaskManager.Manager.End | tasks/manager.go:152-165 | no next task: past the last index the chain completes, the manager stops and onComplete is called once when set; an index no task holds stops the manager without completing |
| TaskManager.Manager.Turn | tasks/manager.go:167-173 | the first listed task holding the next index, as `move` finds it, is reset, made current and run; its end-of-run callback goes on exactly when it ended without an error and carries this manager's callback, and otherwise a task of this manager stops the manager |
| TaskManager.Manager.Advance | tasks/manager.go:167-173 | the next task runs from its state reset, the task just finished is reset, the next task becomes current and its calls are appended: the manager as `Stepped` gives it |
| TaskManager.Manager.Prepare | tasks/manager.go:167-172 | the next task and the one just finished are reset and the next one made current; nothing else changes |
| TaskManager.Manager.ResetListed | tasks/manager.go:167-170 | `reset` of a listed task changes that task's state alone |
| TaskManager.Manager.RunTask | tasks/manager.go:173 | one task's `Start` against the manager's observers, as `StartRun` gives it, its calls appended to the trace; only that task's state changes and no manager hook is called |
| TaskChain.Begins | tasks/manager.go:135 | before anything runs the chain has run nothing and changed nothing |
| TaskChain.CurListed | tasks/manager.go:147-150 | the index `runNext` moves from is that of the task just ended: the index of `from` plus the number of tasks run |
| TaskChain.Halts | tasks/manager.go:136-144 | a failed task just ended or a stopped manager: the chain ends with nothing more run and the manager stopped |
| TaskChain.Ends | tasks/manager.go:152-165 | no task at the next index: past the last one the chain completes and onComplete is called once when set; either way the manager stops |
| TaskChain.Turns | tasks/manager.go:152-173 | a turn that runs the task at the next index: that task was untouched, and the chain goes on from it or ends there as `GoesOnOrStops` says |
| TaskChain.CoreExtends | tasks/manager.go:147-173 | the task found holds the index after the last one run, so the chain has not touched it; list, indexes, configurations and callbacks stay untouched and no manager hook is called |
| TaskChain.GoesOnOrStops | tasks/manager.go:114-128 | after a run the chain goes on exactly when it ended without an error by a task with this manager's callback; otherwise it ends, an error of such a task stopping the manager |
| TaskChain.RanGrows | tasks/manager.go:167-173 | the run of the next task, from its state reset and with its configuration, extends the runs of the chain |
| TaskChain.RanAsExtends | tasks/manager.go:114-128 | the chain of runs grows by one run only after a run that ended without an error, by a task with this manager's callback |
| TaskChain.Turned | tasks/manager.go:167-173 | the task states after one turn: the task just ended is reset, the next is as its run left it, every other task is unchanged |
| TaskChain.TurnedByResets | tasks/manager.go:167-173 | resetting the next task, then the one just finished, then running the next one is `Turned` |
| TaskChain.ProgressExtends | tasks/manager.go:167-173 | running a task the chain has not touched keeps `Progress`: each task ran once, in turn, every earlier one was reset when the next started, and every other task is as it was |
| TaskChain.ResumedBy | tasks/manager.go:114-128 | the resumed current task's run, then its end-of-run callback when this manager installed it, give what `Resume` states |
| Workman.FirstWithId | workman/manager.go:229-241 | the position of the first worker whose id matches, -1 exactly when none does |
| Workman.Manager.constructor | workman/manager.go:83-94 | `NewManager`: the given builder, no workers, directory "workers", extension ".json", empty root, not in debug mode |
| Workman.Manager.SetDebug | workman/manager.go:100-102 | stores the debug flag |
| Workman.Manager.SetWorkersDir | workman/manager.go:110-112 | stores the workers directory |
| Workman.Manager.SetExtension | workman/manager.go:115-117 | the extension becomes "." followed by `Strip(ext)`, so only word characters follow the dot |
| Workman.Manager.SetRootPath | workman/manager.go:125-127 | stores the root path |
| Workman.Manager.CachePathUnderRoot | workman/manager.go:135-137 | "cache" under the cleaned root path ("cache" itself when no root is set) |
| Workman.Manager.GetWorkersPath | workman/manager.go:328-330 | for a plain directory name, that name under the cleaned root path |
| Workman.Manager.GetWorkerFilePath | workman/manager.go:333-335 | with a root or directory set and a plain file name, the file `id` plus the extension directly inside `GetWorkersPath` |
| Workman.Manager.Workers | workman/manager.go:275-277 | the registered workers, in order |
| Workman.Manager.WorkersCount | workman/manager.go:280-282 | the number of workers `Workers` gives |
| Workman.Manager.Next | workman/manager.go:244-267 | the selected worker, which is always nil |
| Workman.Manager.SelectedWorker | workman/manager.go:270-272 | always nil: nothing but `NewManager` sets it |
| Workman.Manager.Get | workman/manager.go:229-241 | found iff some worker has the id, and then the first such worker; nil otherwise |
| Workman.Manager.Add | workman/manager.go:140-196 | no builder: "worker type is not set" and nothing built; an `Init` error or an id already registered: that error or "worker already exists", registry and events unchanged; otherwise the worker gets its index, a fresh task manager, client, cache and logger rooted at `<root>/cache/_workers/<id>`, registers its listeners before `Boot`; a `Boot` error leaves it out, success appends it and dispatches exactly one Added event |
| Workman.Manager.Build | workman/manager.go:146 | one call of the builder gives a fresh worker |
| Workman.Manager.Equip | workman/manager.go:160-173 | the services a new worker receives, cache and logger under the worker's cache directory |
| Workman.Manager.Enlist | workman/manager.go:176-195 | listeners before `Boot`; a boot error registers nothing and sends no event; success appends and dispatches one Added event |
| Workman.Manager.Remove | workman/manager.go:199-226 | always true; an unknown id changes nothing and sends nothing; otherwise the first worker with the id is stopped and removed, the others keep their order, and one Removed event is dispatched |
| Workman.Manager.Load | workman/manager.go:285-325 | a glob error is returned; no files gives "no worker file found at <root>"; both leave the registry alone; worker i is the next builder call's worker, registered for file i (read, accepted by `Init`, booted, index i); the first failing file ends the load with its own error (read, "worker type is not set", `Init`, "worker already exists" or `Boot`), the workers added before it kept in order and unsorted; on success one worker per file, the registry a permutation sorted by index, and a Load event last; the trace gains, in file order, each added worker's listener, boot and add events, then on success exactly one Load event carrying the sorted registry, and on failure the failing worker's listener and boot events when its boot was the failure, and nothing more |
| Workman.Manager.AddAll | workman/manager.go:295-309 | worker i is the next builder call's worker, registered for file i (read, accepted by `Init`, booted); the first file that fails ends the loop with its own error (the read error, "worker type is not set", the `Init` error, "worker already exists", or the `Boot` error), the workers added before it kept in order; the trace gains each added worker's listener, boot and add events in file order, then the failing worker's listener and boot events when its boot was the failure |
| Workman.Manager.LoadOne | workman/manager.go:296-308 | one turn of the loop: the file's worker is built, registered and appended, or the turn fails with the error of the read or of `Add` and registers nothing; the trace gains the worker's listener, boot and add events on success, its listener and boot events on a boot failure, and nothing on an earlier failure |
| Workman.PublishedEvents | workman/manager.go:176-195 | registering workers publishes three events per worker (listeners, boot, add), none of them a Load event, so a successful `Load` sends exactly one Load event |
| Workman.Manager.Reload | workman/manager.go:338-340 | `Load` again: the same contract, events included, every outcome of `Load` included |
| Workman.Manager.OrderedWorkers | workman/manager.go:317 | `sort.Slice` by index: a permutation ordered by index, ties in no promised order |
| Workman.WorkerFileInWorkersPath | workman/manager.go:326-335 | when the id and extension form a plain name, a worker's file path is the cleaned workers path extended by the id and the extension |
| Workers.Worker.constructor | workman/worker.go:35-43 | a worker with no services set and index 0 |
| Workers.Worker.Init | workman/worker.go:46 | the default `Init` answers ("", nil); a custom worker answers its own |
| Workers.Worker.Boot | workman/worker.go:52 | the default `Boot` answers nil |
| Workers.Worker.GetDetails | workman/worker.go:70-72 | the default worker has no details |
| Workers.Worker.SetIndex | workman/worker.go:55-62 | `Index()` then gives the index set, and no other field changes |
| Workers.Worker.Index | workman/worker.go:60-62 | the index set by `SetIndex` |
| Workers.Worker.GetID | workman/worker.go:65-67 | the worker's id |
| Workers.Worker.SetCache | workman/worker.go:75-82 | only the cache field changes, to the given cache |
| Workers.Worker.Cache | workman/worker.go:80-82 | the cache set by `SetCache` |
| Workers.Worker.SetLogger | workman/worker.go:85-92 | only the logger field changes |
| Workers.Worker.Logger | workman/worker.go:90-92 | the logger set by `SetLogger` |
| Workers.Worker.SetTaskManager | workman/worker.go:95-102 | only the task manager field changes |
| Workers.Worker.TaskManager | workman/worker.go:100-102 | the task manager set by `SetTaskManager` |
| Workers.Worker.SetClient | workman/worker.go:105-112 | only the client field changes |
| Workers.Worker.Client | workman/worker.go:110-112 | the client set by `SetClient` |
| Workers.Worker.RegisterListeners | workman/worker.go:49 | the default does nothing |
| Workers.Worker.Start | workman/worker.go:115 | the default does nothing |
| Workers.Worker.Stop | workman/worker.go:118 | the default does nothing |
| Helpers.Includes | helpers/helper.go:19-27 | true exactly when the element occurs in the slice |
| Helpers.FirstIndexOf | helpers/helper.go:64-72 | -1 exactly when the element is absent; otherwise a position holding it with no earlier occurrence |
| Helpers.IndexOf | helpers/helper.go:64-72 | the loop returns the least position of the element, or -1 |
| Helpers.RemoveByIndex | helpers/helper.go:53-62 | an index out of range returns the slice itself; otherwise the same elements without that position, in order (one fewer, multiset less that element) |
| Helpers.RemoveItem | helpers/helper.go:48-51 | an absent element changes nothing; otherwise only its first occurrence is removed |
| Helpers.MissingMembers | helpers/helper.go:33-38 | the elements collected from the first slice are exactly those the second lacks, and there are no more of them than entries of the first |
| Helpers.AppendMissing | helpers/helper.go:33-38 | one pass of the outer loop appends exactly the missing elements |
| Helpers.Diff | helpers/helper.go:29-46 | what the first slice lacks from the second, then what the second lacks from the first |
| Helpers.DiffIsSymmetricDifference | helpers/helper.go:29-46 | an element is in the difference iff it is in exactly one of the slices |
| Helpers.BaseTime | helpers/helper.go:76-79 | the first variadic time unless it is absent or zero, then the current time |
| Helpers.TimeInRange | helpers/helper.go:74-86 | inclusive: start <= t <= end; otherwise start < t < end |
| Helpers.StrictInsideInclusive | helpers/helper.go:74-86 | strictly inside implies inside with the bounds; the two differ only at a bound |
| Str.Strip | str/strings.go:89-97 | with the default empty replacement only ASCII letters and digits remain, no longer than the input, and a string of only those is unchanged |
| Str.StripOne | str/strings.go:89-97 | one character is kept exactly when it is an ASCII letter or digit |
| Str.StripAppend | str/strings.go:89-97 | stripping a concatenation strips each part and concatenates them, so with `StripOne` every letter or digit stays, in order and with its multiplicity, and nothing else does |
| Str.PersianChar | str/strings.go:12-17 | Arabic yeh and alef maksura become Farsi yeh, Arabic kaf becomes keheh, every other character is kept |
| Str.Persian | str/strings.go:107-114 | the text character by character after the replacements, length kept |
| Str.ReplaceAllChar | str/strings.go:110 | replacing one character by another everywhere keeps the length and changes exactly that character |
| Str.ArabicToPersian | str/strings.go:107-114 | for any order in which the table map is walked, the loop gives the character-wise Persian form of the text |
| Str.ReplacedByEntries | str/strings.go:109-111 | a walk made of table entries turns a letter into its Persian form once an entry so far has it as key, and leaves it alone otherwise |
| Str.ReplacedByAnyWalk | str/strings.go:109-111 | every arrangement of the table turns each letter into its Persian form, so the random order of the map walk does not change the result |
| Str.PersianIdempotent | str/strings.go:107-114 | normalising twice is normalising once |
| Str.FirstIndex | str/strings.go:116-127 | the first position of an element that occurs |
| Str.UniqueSpec | str/strings.go:116-127 | the result holds the same elements as the input, none twice, in the order of their first occurrence |
| Str.FirstIndexPrefix | str/strings.go:120-124 | appending an element does not move the first occurrence of one already present |
| Str.UniqueOfDistinct | str/strings.go:116-127 | a slice without duplicates comes back unchanged |
| Str.UniqueAppendTwice | str/strings.go:116-127 | an element added a second time is dropped again |
| Str.UniqueSlice | str/strings.go:116-127 | the loop with its seen-set computes the first-occurrence deduplication |
| Str.CountMatched | str/strings.go:35-86 | the count never exceeds the entries and reaches their number exactly when every entry counts |
| Str.PrepAll | str/strings.go:37-39 | every entry normalised the same way as the text |
| Str.Match | str/strings.go:24-87 | true exactly when every entry counts against the text, both normalised (Persian letters, lower case) when the first flag is set; no entries gives true |
| Str.Prepare | str/strings.go:30-39 | the normalisation applied when the flag is set, identity otherwise |
| Str.EntryCounts | str/strings.go:41-83 | one entry counts as `Counts` says: a plain substring test, "ni@" the absence of the rest, "rm@" the regular expression, "rn@" never |
| Str.RegexNotMatchNeverCounts | str/strings.go:66-72 | an "rn@" entry falls into an empty case and never adds to the count, so any such entry makes `Match` false |
| Str.PlainEntry | str/strings.go:41-83 | a short entry or one without "@" in its first three characters counts iff the text contains it |
| Str.NotIncludeCounts | str/strings.go:60-64 | a "ni@" entry counts iff the text does not contain the rest |
| Storage.Deliveries | storage/storage.go:164-169 | one delivery of the event per subscriber, in subscription order |
| Storage.Store.constructor | storage/storage.go:53-60 | an empty store without subscribers |
| Storage.Store.Notify | storage/storage.go:164-169 | every subscriber is handed the event once, nothing else changes |
| Storage.Store.Insert | storage/storage.go:62-81 | the key's list gains the row at its end (created when absent), other keys untouched, the count of the key grows by one, the new row is `Last`, and one Insert event goes to each subscriber |
| Storage.Store.Remove | storage/storage.go:83-90 | only that key is gone, present or not, and a Remove event with no value is sent |
| Storage.Store.Clear | storage/storage.go:92-99 | no key remains, size 0, and one Clear event is sent |
| Storage.Store.Get | storage/storage.go:101-108 | present iff stored, then the key's rows; an absent key gives no rows |
| Storage.Store.Has | storage/storage.go:130-137 | true iff the key is stored |
| Storage.Store.Count | storage/storage.go:139-147 | 0 for an absent key, its number of rows otherwise |
| Storage.Store.First | storage/storage.go:110-118 | nil for an absent key, otherwise its oldest row |
| Storage.Store.Last | storage/storage.go:120-128 | nil for an absent key, otherwise its newest row |
| Storage.Store.All | storage/storage.go:149-152 | the same keys and rows as `Has` and `Get` give |
| Storage.Store.Size | storage/storage.go:154-157 | the number of keys |
| Storage.Store.Subscribe | storage/storage.go:159-162 | the callback is appended to the subscribers |
| Storage.PresentIffCounted | storage/storage.go:62-128 | as only `Insert` creates keys, a key is present iff it holds a row, `First` and `Last` exist exactly then, and coincide for one row |
| Proxies.Proxy.constructor | proxyswitcher/proxy.go:36-51 | `NewProxy` after the url parsed: the id and url given, not in use, no usage ids |
| Proxies.Proxy.Id | proxyswitcher/proxy.go:54-56 | the checksum id the proxy was made with |
| Proxies.Proxy.RawUrl | proxyswitcher/proxy.go:59-61 | the url the proxy was made from |
| Proxies.Proxy.IsInUse | proxyswitcher/proxy.go:68-71 | whether the proxy is taken |
| Proxies.Proxy.IsUsedFor | proxyswitcher/proxy.go:73-80 | false without an id; otherwise whether the first id has been recorded |
| Proxies.Proxy.IsAvailable | proxyswitcher/proxy.go:82-85 | free and not yet used for that id |
| Proxies.Proxy.Use | proxyswitcher/proxy.go:87-102 | succeeds exactly when the proxy was available; failure changes nothing; success takes it and records the first id, if any, after the earlier ones |
| Proxies.Proxy.Release | proxyswitcher/proxy.go:104-107 | the proxy is free again, its usage ids kept |
| Proxies.Proxy.RemoveUsage | proxyswitcher/proxy.go:109-118 | only the first recorded occurrence of the id is dropped |
| Proxies.RemoveUsageFreesId | proxyswitcher/proxy.go:92-118 | an id recorded at most once is gone after one removal, so the proxy may be used for it again |
| Proxies.TwiceUsedSurvivesOneRemoval | proxyswitcher/proxy.go:116 | an id recorded at least twice is still recorded after one removal, with one record fewer |
| ProxySwitcher.AddId | proxyswitcher/proxyswitcher.go:53-70 | a checksum already present gives "Proxy is duplicated [url]"; a url that does not parse gives its error; otherwise the new id is appended |
| ProxySwitcher.LoadIds | proxyswitcher/proxyswitcher.go:43-49 | the ids only grow, at the end, by at most one per url, and by one per url when no error stops the loop |
| ProxySwitcher.LoadKeepsIdsDistinct | proxyswitcher/proxyswitcher.go:43-58 | loading from distinct ids keeps them distinct, since duplicates are refused |
| ProxySwitcher.LoadAddsAll | proxyswitcher/proxyswitcher.go:43-49 | a load that ends without error appends the checksum of every url, in order |
| ProxySwitcher.FirstWithId | proxyswitcher/proxyswitcher.go:143-154 | -1 iff no proxy has the id, otherwise the first that has it |
| ProxySwitcher.FirstAvailable | proxyswitcher/proxyswitcher.go:106-119 | -1 iff no proxy is available for the usage id, otherwise the first available one |
| ProxySwitcher.Switcher.Ids | proxyswitcher/proxyswitcher.go:24-27 | the ids of the stored proxies, in order |
| ProxySwitcher.Switcher.constructor | proxyswitcher/proxyswitcher.go:29-35 | an empty switcher whose ids are distinct |
| ProxySwitcher.Switcher.Get | proxyswitcher/proxyswitcher.go:143-154 | nil iff no stored proxy has the id, otherwise the first with it |
| ProxySwitcher.Switcher.Add | proxyswitcher/proxyswitcher.go:53-70 | the ids change as `AddId` says, an error leaving the list alone and success appending a fresh proxy for the url |
| ProxySwitcher.Switcher.Load | proxyswitcher/proxyswitcher.go:37-50 | an empty list gives "Proxy list is empty" and changes nothing; otherwise the urls are added in turn up to the first error, which is returned; earlier proxies are kept and ids stay distinct |
| ProxySwitcher.Switcher.Remove | proxyswitcher/proxyswitcher.go:72-90 | an unknown url gives "Proxy not found [url]" and nothing changes; otherwise the proxy with that id is removed, the others in order; afterwards the id is absent |
| ProxySwitcher.DistinctRemoved | proxyswitcher/proxyswitcher.go:72-90 | removing one entry from distinct ids leaves them distinct and without the removed id |
| ProxySwitcher.Switcher.All | proxyswitcher/proxyswitcher.go:92-102 | the stored proxies in order |
| ProxySwitcher.Switcher.Count | proxyswitcher/proxyswitcher.go:156-159 | the number of stored proxies |
| ProxySwitcher.Switcher.Next | proxyswitcher/proxyswitcher.go:104-119 | nil iff no proxy is available; otherwise the first available proxy is taken for the id, and no other proxy changes |
| CapPool.ActionName | capstore/pool.go:96-98 | the first action unless it is missing or empty, then "_default"; never empty |
| CapPool.Pool.constructor | capstore/pool.go:49-61 | `NewPool`: a 60-second lifetime, no tokens, no checksums, no minimums, no handlers |
| CapPool.Pool.Tokens | capstore/pool.go:63-66 | the tokens by action and checksum |
| CapPool.Pool.SetTokenLifeTime | capstore/pool.go:68-71 | stores the lifetime |
| CapPool.Pool.SetMinToken | capstore/pool.go:73-79 | records the minimum for the named action and no other |
| CapPool.Pool.SubscribeOnAdd | capstore/pool.go:81-84 | the handler is appended |
| CapPool.Pool.SubscribeOnRemove | capstore/pool.go:86-89 | the handler is appended |
| CapPool.Pool.Held | capstore/pool.go:147-165 | the number of tokens of an action, 0 for an unknown one |
| CapPool.Pool.Push | capstore/pool.go:91-140 | an empty token or one whose checksum is already held gives nil and changes nothing; otherwise the token, created now and expiring after the lifetime, is stored under its action and checksum, the checksum recorded, and the action holds one more |
| CapPool.Pool.Remove | capstore/pool.go:177-190 | the checksum leaves its action (an unknown action is left alone) and the global record |
| CapPool.Pool.Get | capstore/pool.go:142-159 | an action without tokens gives the "no_captcha_exists" error and nothing changes; otherwise one held token of the action is returned and removed, the action holding one fewer |
| CapPool.Pool.Len | capstore/pool.go:161-168 | for every known action its number of tokens |
| CapPool.Pool.Reset | capstore/pool.go:192-197 | no tokens, no checksums, the pool itself returned |
| CapPool.ConsistentPush | capstore/pool.go:104-124 | storing a token whose checksum is not recorded keeps every token under its own checksum and no checksum under two actions, and adds exactly one token to its action |
| CapPool.HeldTokenBlocksPush | capstore/pool.go:104-124 | a token held under any action has its checksum recorded, so pushing it again under any action is refused |
| CapStore.CaptchaStore.constructor | capstore/store.go:30-40 | only the default store is registered, with an empty pool; no store is active and no action chosen |
| CapStore.CaptchaStore.AddStore | capstore/store.go:42-45 | inserts or replaces the named store |
| CapStore.CaptchaStore.Use | capstore/store.go:47-52 | the active store name becomes the one given |
| CapStore.CaptchaStore.GetActiveName | capstore/store.go:81-83 | the name `Use` set |
| CapStore.CaptchaStore.WithAction | capstore/store.go:54-60 | the action names for the next token, the store itself returned |
| CapStore.CaptchaStore.ResetAction | capstore/store.go:75-78 | no action names |
| CapStore.CaptchaStore.Current | capstore/store.go:85-88 | nil iff no store has the active name, otherwise that store |
| CapStore.CaptchaStore.Pool | capstore/store.go:90-98 | the pool of the active store, nil without one |
| CapStore.CaptchaStore.GetToken | capstore/store.go:62-73 | no active store gives "no active store" and keeps the action names; otherwise the active pool behaves as its `Get` does: an action without tokens gives the "no_captcha_exists" error and changes nothing, and otherwise one held token of that action is returned and removed from the action and from the checksum record, with every other action and the pool's settings unchanged; the names are cleared |
| Identity.Identity.constructor | identity/identity.go:12-18 | the service instance: no clients, no tokens, tokens expire after ten minutes |
| Identity.Identity.SetExpireTime | identity/identity.go:50-53 | stores the expiry time |
| Identity.Identity.AddClient | identity/identity.go:62-65 | appends the client, duplicates included |
| Identity.Identity.AddClients | identity/identity.go:55-60 | appends every client, in order |
| Identity.Identity.RemoveClient | identity/identity.go:67-75 | only the first occurrence of the client goes, the others keep their order |
| Identity.Identity.ClientExists | identity/identity.go:77-89 | true iff the client is in the list |
| Identity.Identity.ClientsCount | identity/identity.go:91-94 | the length of the client list, duplicates counted |
| Identity.Identity.Clients | identity/identity.go:149-152 | the token records by owner |
| Identity.Identity.GenerateUiToken | identity/identity.go:96-124 | an unknown client gives "client does not exist" and changes nothing; a client with a token keeps its key with the time refreshed; any other gets "v" plus the random part; with a positive expiry the key returned is then valid |
| Identity.Identity.RemoveUiToken | identity/identity.go:126-137 | no record with the key: nothing changes; otherwise exactly one record holding the key is deleted |
| Identity.Identity.IsUiTokenValid | identity/identity.go:139-147 | true iff some record holds the key and its creation time plus the expiry lies after now |
| Translations.CloseFrom | i18n/translation.go:12 | the first "}" from a position before the line ends, or -1 when the line has none |
| Translations.RunEnd | i18n/translation.go:12 | the end of the run of "}" that the greedy `}+` consumes |
| Translations.MatchesFrom | i18n/translation.go:74 | every placeholder found starts with "{", ends with "}" and occurs in the text; none without a "{" |
| Translations.Matches | i18n/translation.go:74 | the placeholders of the whole translation, with the same guarantees |
| Translations.ScannerExample | i18n/translation.go:12 | example, for one input: "{a}} x {b" has the one placeholder "{a}}": the run of braces is taken whole, and a "{" with no "}" after it on its line matches nothing |
| Translations.Translation.constructor | i18n/translation.go:23-32 | no translations, the locale given, "{" and "}" as argument markers |
| Translations.Translation.Add | i18n/translation.go:34-39 | sets that one key |
| Translations.Translation.Set | i18n/translation.go:41-52 | every entry of the map is added, overwriting older values; an empty map changes nothing |
| Translations.Translation.Get | i18n/translation.go:54-62 | found iff the key is stored, then its value; otherwise the key itself and false |
| Translations.Translation.Translate | i18n/translation.go:64-90 | an unknown key comes back unchanged; no arguments or a nil first one gives the bare translation; otherwise the i-th placeholder is replaced everywhere by the i-th argument, where there is one and it is not nil |
| Translations.NoPlaceholderUnchanged | i18n/translation.go:74-86 | a translation without "{" comes back unchanged whatever the arguments |
| I18n.I18N.constructor | i18n/i18n.go:46-55 | default locale "en", the only supported locale "en", extension "json", no translations |
| I18n.I18N.AddSupportedLocale | i18n/i18n.go:78-81 | the locale is supported afterwards, nothing else is added, and no locale appears twice |
| I18n.I18N.SetDefaultLocale | i18n/i18n.go:57-61 | the default locale changes and is supported |
| I18n.I18N.GetDefaultLocale | i18n/i18n.go:64-66 | the default locale |
| I18n.I18N.SetFilesExtension | i18n/i18n.go:68-71 | one leading "." is dropped |
| I18n.I18N.SetSupportedLocales | i18n/i18n.go:73-76 | the list given replaces the supported locales |
| I18n.I18N.GetSupportedLocales | i18n/i18n.go:94-96 | the supported locales, in order |
| I18n.I18N.RemoveSupportedLocale | i18n/i18n.go:83-91 | the first occurrence of the locale goes, the others keep their order |
| I18n.I18N.IsSupportedLocale | i18n/i18n.go:98-107 | true iff the locale is in the list |
| I18n.I18N.GetTranslation | i18n/i18n.go:191-199 | nil iff the locale has no translation, otherwise that translation |
| I18n.I18N.AddTranslation | i18n/i18n.go:109-125 | nil gives "invalid translations", a known locale "translation already exists", both changing nothing; otherwise the translation is registered under its locale |
| I18n.I18N.TranslateInLocale | i18n/i18n.go:132-140 | a locale without translations returns the text; otherwise the locale's translation decides |
| I18n.I18N.Translate | i18n/i18n.go:127-130 | `TranslateInLocale` in the default locale: the text itself when the locale or the key is unknown, the bare translation with no arguments or a nil first one, and otherwise the translation with its placeholders substituted |
| Events.HandlerCalls | events/bus.go:75-89 | one call per handler, in subscription order, each with the payload |
| Events.FuncCalls | events/bus.go:91-109 | for every handler, the callback and then the handler, each with the payload |
| Events.FuncCallsAddOnlyCallbacks | events/bus.go:75-109 | leaving out the callbacks, `DispatchFunc` makes exactly the calls of `Dispatch`, and one callback per handler |
| Events.EventBus.constructor | events/bus.go:24-30 | no topics, no calls |
| Events.EventBus.Of | events/bus.go:78-94 | the handlers of a topic, none for an unknown topic |
| Events.EventBus.Subscribe | events/bus.go:32-37 | the handler goes to the end of the topic's list, which is created when absent; other topics stay |
| Events.EventBus.SubscribersCount | events/bus.go:39-46 | the number of handlers of the topic, 0 for an unknown one |
| Events.EventBus.Unsubscribe | events/bus.go:48-53 | the topic loses every handler, the other topics stay |
| Events.EventBus.Dispatch | events/bus.go:75-89 | appends one call per handler of the topic in order; an unknown topic calls nothing |
| Events.EventBus.DispatchFunc | events/bus.go:91-109 | appends the callback and then the handler, for every handler of the topic in order |
| Logs.PageEnd | logger/log.go:169-173 | a positive size ends the page at offset plus size; otherwise at the page size less one, whatever the offset |
| Logs.Paginate | logger/log.go:163-181 | no entries or an offset past them gives the "out_of_range" error; a negative offset, or a default-size request whose offset passes the page size less one, panics on the slice; otherwise the entries from the offset up to the capped end, with their count |
| Logs.Min | logger/log.go:175-177 | the smaller bound |
| Logs.PaginateIntended | logger/log.go:169-181 | corrected paging: a non-positive size asks for one full page from the offset, and never panics for an offset inside the entries |
| Logs.PageShortByOne | logger/log.go:170 | with 30 entries and page size 20, the first default page has 19 entries and the second panics, where the intended paging gives 20 and 10 |
| Logs.IntendedPageIsFull | logger/log.go:169-181 | the intended default page holds the page size's number of entries, or all that remain |
| Logs.LogFileName | logger/log.go:238-257 | the name asked for keeps the logger's extension; the daily name is the stem, "-", the date and the extension; with no daily split the extension is dropped |
| Logs.LogFileNameIntended | logger/log.go:238-257 | corrected name: always ends in the logger's extension, and agrees with the code wherever the code keeps it |
| Logs.UndatedFileLosesExtension | logger/log.go:248-254 | with the default "log.txt" and no daily split the file is "log", where "log.txt" was intended |
| Logs.Logger.constructor | logger/log.go:75-83 | file "log.txt", page size 20, root "logs", split by days |
| Logs.Logger.SetSplitByDays | logger/log.go:85-89 | stores the flag and returns the logger |
| Logs.Logger.SetFilename | logger/log.go:91-95 | stores the name and returns the logger |
| Logs.Logger.SetPageSize | logger/log.go:97-101 | stores the page size and returns the logger |
| Logs.Logger.SetRootPath | logger/log.go:103-107 | stores the root path and returns the logger |
| Logs.Logger.GetLogFile | logger/log.go:238-257 | the file name above, and its path joined under the root |
| Logs.Logger.Get | logger/log.go:134-182 | every response carries the offset and the page size as limit; an unreadable file gives "file_not_exists", an undecodable one "file_not_decoded", both with the file name and no entries; decoded entries are paged as `Paginate` says |
| FileCache.NameParts | cache/cache.go:81-90 | the name split on "/": joining the parts back gives the name, and no part holds a "/" |
| FileCache.TimeStamp | cache/cache.go:73-76 | "-" and the milliseconds when a time stamp is asked for, nothing otherwise |
| FileCache.PrefixPart | cache/cache.go:94-97 | the prefix and a dash when a prefix is set, nothing otherwise |
| FileCache.FileExtension | cache/cache.go:92-101 | the extension the name carries, or else the cache's own |
| FileCache.Stem | cache/cache.go:98-101 | the name without its extension: stem plus extension is the name |
| FileCache.FileName | cache/cache.go:103 | prefix part, stem, time stamp and "." followed by the extension with every "." removed |
| FileCache.Cache.constructor | cache/cache.go:43-49 | root "./cache", extension "txt", no prefix |
| FileCache.Cache.SetRoot | cache/cache.go:51-54 | stores the root |
| FileCache.Cache.GetRoot | cache/cache.go:57-59 | the root set by `SetRoot` |
| FileCache.Cache.SetExtension | cache/cache.go:61-64 | every leading "." is dropped, so the extension never starts with one |
| FileCache.Cache.SetFilePrefix | cache/cache.go:66-69 | stores the prefix |
| FileCache.Cache.Path | cache/cache.go:71-104 | the directory is the root joined with every part of the name but the last; the file is that directory joined with the file name |
| FileCache.Cache.GetPath | cache/cache.go:124-128 | `Get` reads the path without a time stamp |
| FileCache.Cache.RemovePath | cache/cache.go:130-134 | `Remove` deletes the same file `Get` reads |
| FileCache.JoinPathTwo | cache/cache.go:103 | joining a directory with one plain file name cleans the directory and appends the name after one "/" ("." and "/" take the name without an extra separator) |
| FileCache.PathShape | cache/cache.go:93-103 | with a root set and a plain file name, the file is the cleaned directory extended by the file name, and the name starts with the prefix part, stem, time stamp and "." |
| FileCache.DefaultRootCleans | cache/cache.go:46 | example, for the default root: "./cache" comes out of `filepath.Join` as "cache" |
| FileCache.DefaultFileName | cache/cache.go:103 | example, for the defaults: the entry "a" is named "a.txt" |
| Encryption.EnsureKey | encryption/encrypt.go:72-90 | fails with "key must be at least 16 characters" exactly for keys under 16 bytes; otherwise a prefix of the key of length 16, 24 or 32, the longest the key allows |
| Encryption.Pad | encryption/encrypt.go:67 | a decimal number zero-padded to the layout's width |
| Encryption.DateString | encryption/encrypt.go:67 | the "20060102" layout: digits only |
| Encryption.Elems | encryption/encrypt.go:67 | the key bytes in decimal separated by spaces |
| Encryption.Rendered | encryption/encrypt.go:67 | the `%v` rendering of a byte slice: brackets around digits and spaces |
| Encryption.Ascii | encryption/encrypt.go:67 | the bytes of an ASCII string, one per character |
| Encryption.DailyKey | encryption/encrypt.go:67 | the date followed by the rendering of the key, as bytes |
| Encryption.EncryptByKey | encryption/encrypt.go:92-118 | a short key fails first; then a failing IV read is returned; otherwise the encoding of the IV followed by the encrypted text |
| Encryption.DecryptByKey | encryption/encrypt.go:120-147 | a short key fails first; a decoded text under 16 bytes gives "ciphertext too short"; otherwise the rest decrypted with the first 16 bytes as IV |
| Encryption.RoundTrip | encryption/encrypt.go:92-147 | decrypting with the same key gives back the plaintext, when the stream cipher and base64 undo themselves |
| Encryption.EncryptorRoundTrip | encryption/encrypt.go:53-61 | an encryptor decrypts its own output on the same day |
| Encryption.Encryptor.constructor | encryption/encrypt.go:31-34 | no key, no daily expiry |
| Encryption.Encryptor.SetKey | encryption/encrypt.go:36-39 | stores the key |
| Encryption.Encryptor.ExpiryInDay | encryption/encrypt.go:41-45 | switches the daily key on and returns the encryptor |
| Encryption.Encryptor.NoExpiryInDay | encryption/encrypt.go:47-51 | switches the daily key off and returns the encryptor |
| Encryption.Encryptor.GetKey | encryption/encrypt.go:63-70 | the stored key, or the key of the given day when expiry is on |
| Encryption.Encryptor.Encrypt | encryption/encrypt.go:54-56 | with the key `getKey` gives for the day: a key under 16 bytes fails, then a failing IV read is returned, otherwise the encoding of the IV followed by the encrypted text |
| Encryption.Encryptor.Decrypt | encryption/encrypt.go:59-61 | with the key `getKey` gives for the day: a key under 16 bytes fails, a decoded text under 16 bytes gives "ciphertext too short", otherwise the rest decrypted with the first 16 bytes as IV |
| Encryption.DailyKeyLength | encryption/encrypt.go:67-78 | a daily key has at least 10 bytes; with an empty stored key it is refused, with four bytes or more it is accepted |
| Encryption.ElemsAtLeast | encryption/encrypt.go:67 | each byte renders with at least one digit |
| Encryption.DateLength | encryption/encrypt.go:67 | a date with a four-digit year is eight characters |
| Encryption.ExpiringKeyIgnoresTail | encryption/encrypt.go:67-89 | on a given day, two stored keys whose first six three-digit bytes agree give the same cipher key, whatever follows |
| Format.Placeholder | format/format.go:27-35 | a bool value's placeholder is "{key}" wrapped in double quotes; any other value's, ints included, is the bare "{key}" |
| Format.Replace | format/format.go:23-42 | a nil map leaves the string alone; otherwise each entry, in iteration order, replaces every occurrence of its placeholder by the value's rendering |
| Format.AbsentKeysUnchanged | format/format.go:37 | entries whose placeholders do not occur leave the string unchanged |
| Format.BoolNeedsQuotes | format/format.go:29-37 | a bool replaces only its quoted placeholder, so a string without quotes is left alone; int and other values replace the bare placeholder |
| Form.Form.constructor | forms/form.go:4-17 | a decoded form: its data, headers and method, no name yet, no error |
| Form.Form.GetName | forms/form.go:19-22 | the name it was registered under |
| Form.Form.DataItem | forms/form.go:24-41 | the stored value of the key, nil included; a missing key or nil map gives the first default, or nil without one |
| Form.Form.SetHeader | forms/form.go:43-50 | a nil header map is created; only the given key changes |
| Form.Form.IsError | forms/form.go:52-55 | true iff the form carries an error |
| Forms.FilesExtAsWritten | forms/forms.go:46-49 | with the arguments swapped the stored extension is "" for "." and "." for anything else |
| Forms.FilesExt | forms/forms.go:46-49 | corrected: one leading "." of the extension dropped, the rest kept |
| Forms.SetFilesExtLosesExtension | forms/forms.go:48-64 | setting "json" or ".json" stores ".", so "a.json" is no longer selected; the corrected extension selects it |
| Forms.BaseName | forms/forms.go:64 | the last element of a path, without a separator |
| Forms.SelectedSpec | forms/forms.go:63-68 | the selected files are exactly the walked files whose name ends in "." and the extension, in walk order |
| Forms.FormName | forms/forms.go:74-78 | as written: the first occurrence of the root, the extension and one leading separator are removed; no separator is left |
| Forms.FormNameIntended | forms/forms.go:74-78 | corrected: the same for any root but ".", which the walked paths do not start with |
| Forms.IntendedNameIsRelative | forms/forms.go:63-78 | the intended name of a walked file is its path relative to the root, extension dropped and separators made "." |
| Forms.DefaultRootLosesDot | forms/forms.go:75-78 | with the default root "./", cleaned to ".", "dir/stem.ext" is registered as "dir.stemext", where "dir.stem" was intended |
| Forms.Forms.constructor | forms/forms.go:32-39 | no forms, root "./", extension "json" |
| Forms.Forms.SetRootPath | forms/forms.go:41-44 | stores the root path |
| Forms.Forms.SetFilesExt | forms/forms.go:46-49 | stores the extension as the code computes it |
| Forms.Forms.GetRootPath | forms/forms.go:51-56 | the root cleaned as `filepath.Join` of one element cleans it |
| Forms.Forms.AddForm | forms/forms.go:104-123 | the form's method upper-cased, its name recorded, its other fields kept, and the form registered under the name, replacing any earlier one |
| Forms.Forms.Get | forms/forms.go:125-131 | found iff registered, then that form; nil otherwise |
| Forms.Forms.Load | forms/forms.go:58-102 | no selected file gives "Could not load Forms or Forms not exists: <root>" and registers nothing; otherwise the files are decoded and added in walk order, under their derived names, until the first failure, whose error is returned; each registered name holds a form with the data, headers and upper-cased method of the last added file of that name, and every other form is kept |
| Forms.Forms.AddFiles | forms/forms.go:74-94 | the files before the first one that fails to decode are registered under their names, each name holding the decoded data, headers and upper-cased method of its last file; other forms are kept, and the failure is returned |
| Forms.Forms.AddDecoded | forms/forms.go:85-93 | a new form holding the decoded data, headers and upper-cased method is registered under the name, replacing only that entry |
| Forms.LoadedStep | forms/forms.go:74-94 | adding the next file's form under its name turns the registry after the first i files into the registry after the first i + 1 |
| Forms.LastIndex | forms/forms.go:74-94 | the position of the last of the added files that carries the name, the one whose form replaces the earlier ones |
| Forms.FormNames | forms/forms.go:74-78 | the derived name of every selected file, in order |
| Forms.Decodable | forms/forms.go:80-90 | the number of files that decode before the first one that does not |
| TimeRange.DigitChar | timerange/time_range.go:14 | the digit character of a value 0 to 9 |
| TimeRange.ClockMillis | timerange/time_range.go:82-88 | a text matching `^0[0-9]:[0-5][0-9]$`, read as minutes and seconds with the layout "04:05.000", is a whole number of seconds within the first ten minutes |
| TimeRange.ClockText | timerange/time_range.go:14 | a whole-second offset in the first ten minutes renders as a text the pattern accepts |
| TimeRange.ClockRoundTrip | timerange/time_range.go:82-88 | rendering the parsed offset gives back the text |
| TimeRange.MillisRoundTrip | timerange/time_range.go:82-88 | parsing the rendered offset gives back the offset |
| TimeRange.Shifted | timerange/time_range.go:100-105 | the i-th range: each bound moved by i times five minutes, then widened by the threshold, so its width is the first range's width plus twice the threshold |
| TimeRange.Threshold | timerange/time_range.go:93-97 | the first variadic threshold, or zero |
| TimeRange.Windows | timerange/time_range.go:99-106 | the first n shifted ranges, in order |
| TimeRange.WindowsSpacing | timerange/time_range.go:99-106 | consecutive ranges are five minutes apart at both ends; without threshold and with a start in the first five minutes every range starts within the hour |
| TimeRange.WrappedWindowMissed | timerange/time_range.go:100-105 | with start and end "09:00" the last range lies at minute 64, and the time 04:00 that it stands for is in no range |
| TimeRange.EveryRepeatEntered | timerange/time_range.go:100-105 | corrected test (a range past the hour also covers the same clock time of the next hour): every five-minute repeat of the start, taken within the hour, is entered |
| TimeRange.TimeRange.constructor | timerange/time_range.go:32-43 | no ranges and no callbacks; a stopped ticker with a one-second interval; not entered, so the first tick that finds the time in a range fires the enter callbacks |
| TimeRange.TimeRange.Tick | timerange/time_range.go:46-78 | once entered a tick does nothing; otherwise the flag becomes whether some range holds the time, bounds included, and entering fires the enter callbacks; a time in no range fires nothing |
| TimeRange.TimeRange.Expire | timerange/time_range.go:65-70 | the exit timer clears the flag and fires the exit callbacks |
| TimeRange.TimeRange.Load | timerange/time_range.go:80-109 | a start or end not matching the pattern gives "Invalid time range format" and adds nothing; otherwise the twelve ranges are appended |
| TimeRange.TimeRange.AddWindows | timerange/time_range.go:100-106 | the loop appends the twelve windows in order, each moved five minutes on from the one before and widened by the threshold |
| TimeRange.TimeRange.Interval | timerange/time_range.go:111-115 | sets the ticker's interval and returns the range |
| TimeRange.TimeRange.OnEnter | timerange/time_range.go:117-121 | appends the callback and returns the range |
| TimeRange.TimeRange.OnExit | timerange/time_range.go:123-127 | appends the callback and returns the range |
| TimeRange.TimeRange.Start | timerange/time_range.go:129-137 | a running ticker gives "Ticker already started"; otherwise it is started |
| TimeRange.TimeRange.IsStarted | timerange/time_range.go:139-142 | whether the ticker runs |
| TimeRange.TimeRange.Stop | timerange/time_range.go:144-152 | a stopped ticker gives "Ticker not started"; otherwise it is stopped |
| TimeRange.TimeRange.Ranges | timerange/time_range.go:154-157 | the ranges loaded so far |
| Image.CharValue | image/image.go:15 | the value of a character of the standard alphabet, which the alphabet maps back to it |
| Image.AlphabetValue | image/image.go:15 | every value below 64 names a character of the alphabet whose value it is |
| Image.Quantum | image/image.go:20 | three bytes become four characters |
| Image.Encode | image/image.go:14-22 | the output has `EncodedLen` characters: four for each started group of three bytes |
| Image.EncodedCharacters | image/image.go:14-22 | every character is of the alphabet, except '=' padding in the last two positions |
| Image.QuantumRoundTrip | image/image.go:20 | the four characters of a group give its three bytes back |
| Image.EncodeRoundTrip | image/image.go:14-22 | decoding the encoding gives the bytes back, so no information is lost |
| Image.FormatDataUrl | image/image.go:56-66 | the five known image types keep their media type in the data URL; any other type is labelled PNG |
| Image.FromBuffer | image/image.go:24-31 | the data URL of the detected type and the encoded bytes |
| Image.FromBufferPayload | image/image.go:24-31 | the URL names a known image type and its payload decodes to the buffer |
| Image.CleanUrl | image/image.go:68-71 | no space is left, each space became three characters, and a string without spaces is unchanged |
| Image.CleanUrlReversible | image/image.go:68-71 | for a string without "%", turning every "%20" back into a space gives the original |

## Left out

- Goroutines, channels and locks: every operation is modelled as sequential, and the `sync.RWMutex` locking is not modelled.
- Timers are not modelled, because they run their callbacks on goroutines:
  - the retry `pause` of a task, modelled as a no-op;
  - the storage remove-after timer and the goroutines that notify storage subscribers;
  - the expiry timers and the add/remove handlers of the token pool, which are only recorded;
  - the identity token timers;
  - `RemoveUsageAfter` of a proxy;
  - `DispatchAsync`/`DispatchFuncAsync` of the event bus;
  - `cache.WriteAsync`.
- The ticker package, and the ticker goroutine of the time range. `TimeRange.TimeRange.Tick` models one tick, with the current time as an input. `TimeRange.TimeRange.Expire` models the exit timer firing, and the timer's delay of `End.Second() + 2` seconds is not modelled.
- File-system I/O is not modelled. The glob and file reads of the worker manager's `Load` are inputs. So are the directory walk and the file decoding of the forms registry's `Load`. Not modelled at all: the logger's `dump` and `LogFiles`, the cache's `Write` and `Clear`, the translator's `Load`, `helpers/common.go` (`IsExists`, `OpenUrlInBrowser`) and the image package's `FromLocal`.
- Randomness: `random`, `useragent`, `Switcher.Random` and the random part of an identity key, which is passed in.
- Workman.Manager.AddAll: the services each loaded worker receives (a task manager, a client, a cache and a logger under its own cache directory) are stated by `Add` and `Equip` for each call, and are not restated for the whole load by `AddAll` or `Load`.
- Workers.Worker.GetID: the default worker returns a fresh random string on each call (workman/worker.go:65-67). The model fixes one uninterpreted id per worker, so two calls on the same worker agree.
- Hashing and crypto libraries:
  - crc32 in the token pool and the proxy switcher is an uninterpreted checksum parameter, not assumed injective;
  - md5 and `Checksum` in `str` are not modelled;
  - AES-CFB and URL-safe base64 in the encryptor are parameters.
- JSON and `fmt` formatting:
  - `parse`, `types` (so `types/duration` is not part of this model; a retry delay is taken as milliseconds) and floats;
  - the serialisation of form bodies (`bodyString`, `ToJsonString`);
  - the decoding of log entries, given to `Logs.Logger.Get` already decoded;
  - `format.Format`/`String`/`Error`;
  - the `%v` rendering of values in `format.Replace` and `Translate`, whose arguments come already rendered.
- The log framing mismatch between `dump` writing ",\n" (logger/log.go:235) and `Get` stripping only "," (logger/log.go:154) is not modelled, because it depends on the JSON decoder.
- Regular expressions:
  - the `rm@` branch of `Str.Match` takes the regex test as a parameter;
  - `SnakeCase` is not modelled;
  - `Str.Strip` models `\W|_+` on ASCII letters and digits with an empty replacement;
  - the placeholder regex `{(.*?)}+` of translations is a hand-written scanner;
  - the clock regex of the time range is a predicate.
- Text is modelled as sequences of Unicode code points, and upper and lower case are mapped for ASCII letters only. Go's `ToLower`/`ToUpper` also map non-ASCII letters, and Go's `len` and slicing count bytes. The byte-counting checks of `Str.Match` (length > 3, the first three bytes) are taken on code points.
- `Paths.JoinPath` drops empty elements, joins the rest with "/" and cleans the result as `filepath.Join` does: repeated separators, "." and ".." elements are resolved lexically. Only "/" is modelled as a separator, so Windows volume names and "\\" are not.
- MIME sniffing (`http.DetectContentType`): `Image.FromBuffer` receives the detected type.
- Network code: `forms/executor.go`, `tokenizer`, `client`, `proxyswitcher/test_proxies.go`, and `url.Parse`, whose error is a parameter of the switcher.
- The stdout logging of `std` and the logger's `Debug`/`Info`/`Success`/`Error`/`Log`, which format and write log lines.
- The global-singleton delegates (`events/helper.go`, `i18n/helper.go`, `logger/helper.go`, `capstore/default.go`), including `TranslateAsError`. The one exception is the default-locale `Translate`, which `I18n.I18N.Translate` covers.
- The forms registry's `OnFormLoad` callback and `GetForms`.
- A task added to two managers: the model installs one manager's hooks per task.
- Tasks.Task.order: Go's `Order` is an exported field (tasks/task.go:30) that code outside the package may change after `Add` and before `Start` sorts. The model fixes it when the task is made, so the sort sees the value the task was made with.
- The tie order of `sort.Sort` and `sort.Slice`: the model promises no order between equal keys, and the code guarantees none.
- Identity records are values in the client map, where the code shares pointers to them.
- TaskManager.Manager.RunNext: does not state the `executeNextTask` flags of the tasks after the chain, because the view of the manager does not hold them. The reset before each run sets the flag of the task that runs, and a run does not clear it, so the flag never ends a chain the model describes.
- Forms.Forms.Load and Forms.Forms.AddFiles: do not state that each registered form is a newly allocated object, only what it holds. The fact is costly for the verifier in the loop.
- CapPool.Pool.Remove requires that the checksum it removes is held under no other action. `Get` meets this. The expiry timer of `Push` (capstore/pool.go:125-128) also calls `remove`, with the action the token was pushed under. If `Get` took that token and it was pushed again under another action before the timer fires, the timer passes a stale action: Go then drops the checksum from the global record while the other action still holds the token. The timers are not modelled, so this case is not either.

## Findings

| source | as written | input that shows it | evidently intended | confidence | as-written member | corrected member |
|---|---|---|---|---|---|---|
| logger/log.go:170-180 | with no page size the page ends at `pageSize - 1`, and an offset past that inverts the slice bounds | 30 entries, default page size 20: offset 0 gives 19 entries, offset 20 panics | a page of `pageSize` entries from the offset | not executed | Logs.PageShortByOne | Logs.IntendedPageIsFull |
| logger/log.go:248-254 | without a requested name and with daily files off, the extension removed from the base is never put back | file name "log.txt", splitByDays false: the file is "log" | "log.txt" | not executed | Logs.UndatedFileLosesExtension | Logs.LogFileNameIntended |
| forms/forms.go:48 | `TrimPrefix` gets its two arguments swapped, so the stored extension is "." for every input except "." | `SetFilesExt("json")` stores "." | the input with one leading "." removed | not executed | Forms.SetFilesExtLosesExtension | Forms.FilesExt |
| forms/forms.go:37, 55, 75-78 | the default root "./" is returned cleaned to ".", and `strings.Replace` of the root removes the first "." of the path, the dot of the extension, so the extension is never dropped | "forms/login.json" under the default root is registered as "forms.loginjson" | "forms.login", the path relative to the root without its extension | not executed | Forms.DefaultRootLosesDot | Forms.IntendedNameIsRelative |
| timerange/time_range.go:49-51, 100-105 | repeat windows are start + 5i minutes with no wrap at the hour, and the tick compares against the minute and second within the hour | start = end = "09:00", threshold 0: the last window is at minute 64, so 04:00 is never entered | every five-minute repeat is entered, within the hour | not executed | TimeRange.WrappedWindowMissed | TimeRange.EveryRepeatEntered |
