# file-monitor: a Dafny model of the recursive watch manager

This project models the sequential bookkeeping of `file-monitor`, a Go program
that watches directory trees with fsnotify and forwards change notifications to
a logger or to WebSocket subscribers. Each concurrent step is modelled as one
atomic transition over immutable values:

- **Watcher** (`watcher.dfy`, internal/monitor/watcher.go): the watch registry
  (the shared `dirs` map, a set of paths), the `sync.WaitGroup` counter (an
  unbounded `int`, never required to stay non-negative) and the multiset of
  running monitoring tasks. `processEvent` handles the Remove bit, then the
  Create bit. `Init` and `StartMonitoringSingleDir` count and start tasks. The
  `handleEvents` select loop is a step function over the inputs Stop, Received,
  EventsClosed, WatchError and ErrorsClosed. `MonitorDirectory` together with
  its goroutine's deferred `wg.Done()` is `RunTask`.
- **Lifecycle** (`lifecycle.dfy`): the join-counter accounting across all tasks.
  It shows the double decrement described under Findings. It then proves that a
  Remove branch that only deregisters keeps the counter equal to the number of
  running tasks under any interleaving of events and task exits.
- **Directories** (`directories.dfy`, internal/directories/dirs.go):
  `safeWalkDir`, `collectAllSubDirs`, `mergeRootDirs`, `GetAllDirs`,
  `FilterValidDirs` and `PrepareDirsForMonitoring`. A walk is the sequence of
  callback invocations `filepath.WalkDir` makes, and the filesystem is a
  function from a root to its walk.
- **Handler** (`handler.dfy`, internal/monitor/handler.go): `EventMessage`, the
  two handlers, and the events channel as an unbounded FIFO queue.
- **Server** (`server.dfy`, internal/server/server.go): the client set, its
  insert on connect and delete on disconnect, and the broadcast loop of
  `RunWebSocketServer`.
- **Paths** (`paths.dfy`) and **Wrappers** (`wrappers.dfy`): the path type
  shared by every module, and the `Option`/`Result` types that stand for Go's
  `(T, error)` pairs.
- **Utils** (`utils.dfy`, internal/utils/utils.go): `ParseArgs`, with `os.Args`
  as a parameter.

Oracles replace everything the program asks the operating system:

- `isDir` stands for `os.Stat(p)` succeeding with `IsDir()`.
- `removeFails` stands for the outcome of `watcher.Remove`.
- `abs` stands for `filepath.Abs`. It is a partial function (`Option`).
- `fs` stands for `filepath.WalkDir`, as the sequence of visits per root.
- `writeOk` stands for the outcome of `client.WriteJSON`, per client and per event position.
- `watchOpened` stands for `fsnotify.NewWatcher` plus `watcher.Add` succeeding.

Where the program's own text points two ways, the model follows the statements
that execute:

- The comment at internal/monitor/watcher.go:97 says the Remove branch should
  "decrement the WaitGroup" for the removed directory. That directory's task
  already discounts itself through its deferred `wg.Done()` at watcher.go:25,
  so the removed directory is discounted twice (see Findings).
- cmd/web/main.go:36 passes a handler to `monitor.Init` as a fourth argument.
  `Init` at watcher.go:15 takes three parameters, and `processEvent` calls no
  handler. So `ProcessEvent` calls no handler either, and handler.go is
  modelled on its own in Handler.
- `PrepareDirsForMonitoring` ends the process at dirs.go:105-107 when
  `GetAllDirs` returns an error. `GetAllDirs` always returns a nil error
  (dirs.go:31), so that branch cannot run, and an empty result is returned
  normally.
- The events channel has capacity 100 (cmd/web/main.go:29), and
  `WebSocketHandler.Handle` sends with a plain channel send (handler.go:30).
  A full channel makes the sender wait; no message is dropped, and a full
  channel never drops a subscriber. A subscriber leaves the set when a write
  to it fails (server.go:91-97) or when its connection's read loop ends
  (server.go:53-58).

## Model

| member | source | states |
|---|---|---|
| Watcher.ProcessEvent | internal/monitor/watcher.go:78-121 | Only the event's own path is inserted, deleted or given a task. Afterwards it is registered exactly when it survived (no Remove bit) or the Create bit named a directory. A task is started for it exactly when the Create bit names a directory that is unregistered after the Remove bit is handled. Each counter change is -1 per deregistration and +1 per started task. |
| Watcher.ProcessEventKeepsDirsCounted | internal/monitor/watcher.go:82-118 | One event leaves counter minus registered directories unchanged: each deletion from the registry comes with one `wg.Done()` and each insertion with one `wg.Add(1)`. |
| Watcher.ProcessAllKeepsDirsCounted | internal/monitor/watcher.go:78-121 | Any sequence of events handed to `processEvent` leaves counter minus registered directories unchanged. |
| Watcher.ProcessAllKeepsTasks | internal/monitor/watcher.go:78-121 | No event ends a task: every task running before a sequence of events is still running after it. |
| Watcher.RemoveRegistered | internal/monitor/watcher.go:82-99 | A Remove on a registered path deletes it from the registry and lowers the counter by exactly one. The set of running tasks is unchanged. |
| Watcher.RemoveOutcomeIgnored | internal/monitor/watcher.go:90-95 | Whether `watcher.Remove` fails makes no difference to the resulting state. |
| Watcher.DuplicateRemoveIgnored | internal/monitor/watcher.go:86-102 | A Remove on an unregistered path leaves registry, counter and tasks unchanged. |
| Watcher.RemoveIdempotent | internal/monitor/watcher.go:82-103 | Delivering the same Remove event twice has the effect of delivering it once. |
| Watcher.CreateNewDirectory | internal/monitor/watcher.go:106-114 | A Create on an unregistered directory registers it, raises the counter by one and starts exactly one task for it. |
| Watcher.CreateIgnored | internal/monitor/watcher.go:106-118 | A Create on an already registered path, or on a path that is not a directory or fails stat, changes nothing. |
| Watcher.RemoveThenCreate | internal/monitor/watcher.go:81-118 | With both bits set on a registered directory, Remove runs first. The path ends registered with one new task, and the net counter change is 0. |
| Watcher.OtherKindsIgnored | internal/monitor/watcher.go:81-118 | Events with neither the Remove nor the Create bit (Write, Chmod, Rename) change no state. |
| Watcher.ProcessEventKeepsRegisteredWatched | internal/monitor/watcher.go:81-118 | If every registered directory has a running task before an event, that still holds after it. |
| Watcher.StartMonitoringSingleDir | internal/monitor/watcher.go:22-25 | `wg.Add(1)` then the spawn: exactly one new task for the directory, counted exactly once. The registry and every other task are untouched. |
| Watcher.TaskExit | internal/monitor/watcher.go:25 | The deferred `wg.Done()` of a returning task: the counter drops by one, and that task, and no other, leaves the running tasks. |
| Watcher.Init | internal/monitor/watcher.go:15-30 | One task is started per registered directory. The counter rises by exactly the number of directories, and the registry is unchanged. |
| Watcher.HandleEventsStep | internal/monitor/watcher.go:50-70 | The loop exits exactly on stop or on a closed Events or Errors channel. A received event goes to processEvent. Every other input leaves the state alone. |
| Watcher.RunLoop | internal/monitor/watcher.go:50-70 | Over a sequence of inputs, the loop exits exactly when some input ends it. It stops at the first such input, and otherwise consumes every input. Counter minus registered directories is the same at the end as at the start. |
| Watcher.RunLoopProcessesReceived | internal/monitor/watcher.go:50-70 | The state after the loop is exactly `processEvent` applied, in order, to the events received before it returns. Stop, closed channels and watcher errors change nothing. |
| Watcher.ErrorsOnlyLogged | internal/monitor/watcher.go:63-67 | Any number of watcher errors neither ends the loop nor changes the state. |
| Watcher.RunTask | internal/monitor/watcher.go:22-47 | A task whose watch cannot be opened returns at once and discounts itself once, and nothing else changes. A task stopped first does the same. Whatever input ends the loop, the task discounts itself exactly once beyond the loop's own effects, and it alone leaves the running tasks; every task its loop started keeps running. If no input ends the loop, it has not discounted itself and is still running. The registry after an opened task is the one its loop left. |
| Lifecycle.StartKeepsEveryTaskCounted | internal/monitor/watcher.go:22-30 | Between `wg.Add(1)` and the spawn, the new task is already counted. After the spawn the counter again equals the number of running tasks. |
| Lifecycle.InitJoinBalanced | internal/monitor/watcher.go:15-30 | Running `Init` from a balanced state keeps the counter equal to the number of running tasks. Every registered directory gains exactly one task, and the registry is unchanged. |
| Lifecycle.InitKeepsJoinBalanced | internal/monitor/watcher.go:15-19 | Starting one task per initial directory keeps the counter equal to the number of running tasks. |
| Lifecycle.AsWrittenRemoveUnbalances | internal/monitor/watcher.go:97-99 | As written, removing a registered directory leaves the counter one below the number of still-running tasks. |
| Lifecycle.RemovedDirectoryCountedOutTwice | internal/monitor/watcher.go:82-99 | Concrete run: start "/a", remove "/a", then its task returns (deferred Done, line 25). No task is left, but the counter is -1. |
| Lifecycle.RemovedThenRecreatedRunsTwice | internal/monitor/watcher.go:82-118 | A Remove does not end the removed directory's task, so Remove then Create of the same directory leaves the path registered with one more task than before. This holds both as written and with the corrected Remove branch. |
| Lifecycle.RecreatedDirectoryWatchedTwice | internal/monitor/watcher.go:82-118 | Concrete run: "/a" is watched by one task, removed, then created again; two tasks now run for "/a". |
| Lifecycle.ProcessEventJoinSafe | internal/monitor/watcher.go:78-121 | Corrected processEvent. Registry and tasks evolve exactly as in the code, and the counter moves only when a task starts, so the balance is kept. |
| Lifecycle.RunKeepsJoinBalanced | internal/monitor/watcher.go:22-30 | With the corrected Remove branch, any interleaving of events and task returns keeps the counter equal to the running tasks, and so never negative. |
| Lifecycle.Shutdown | internal/monitor/watcher.go:50-55 | On stop every running task returns once. The counter falls by the number of tasks, and it reaches 0 when it was balanced. |
| Directories.SafeWalkDir | internal/directories/dirs.go:58-72 | The walk fails exactly when some visit carries a non-path error, and it reports the first such visit. Otherwise the callback receives exactly the error-free visits. |
| Directories.PathErrorSwallowed | internal/directories/dirs.go:61-66 | A visit with a path error anywhere in the walk is as if it had not happened. The walk continues. |
| Directories.CollectAllSubDirs | internal/directories/dirs.go:39-56 | On success the result is exactly the error-free directory visits. If the walk aborts there is no set, and the error names the root. |
| Directories.MergeRootDirs | internal/directories/dirs.go:116-128 | The result holds exactly the directories of either input. |
| Directories.GetAllDirs | internal/directories/dirs.go:17-32 | The error is always nil. The set is exactly the union of the sets of the roots whose collection succeeded. |
| Directories.AllDirsAppend | internal/directories/dirs.go:21-29 | Processing one more root adds exactly that root's directories, or nothing if it fails. The remaining roots are still processed. |
| Directories.AllDirsOrderIndependent | internal/directories/dirs.go:21-29 | The result depends only on which roots are given, not on their order or repetition. |
| Directories.AllRootsFail | internal/directories/dirs.go:17-32 | When every root fails, the result is empty. |
| Directories.FilterValidDirs | internal/directories/dirs.go:79-94 | The result keeps, in input order, the absolute form of exactly those paths whose `Abs` succeeds and which stat as directories. It is no longer than the input. |
| Directories.PrepareDirsForMonitoring | internal/directories/dirs.go:101-109 | The result is exactly the directories found under the absolute forms of the valid paths. The fatal branch is unreachable. |
| Handler.Handle | internal/monitor/handler.go:20-31 | LogHandler leaves the queue unchanged. WebSocketHandler appends exactly one message with the given event and path, and keeps the earlier messages ahead of it. |
| Handler.HandleAllIsFifo | internal/monitor/handler.go:28-31 | A run of WebSocketHandler calls leaves the queue as the old queue followed by one message per call, in call order. |
| Handler.LogHandlerLeavesQueue | internal/monitor/handler.go:20-22 | A run of LogHandler calls never changes the queue. |
| Handler.ReceiveAfterHandle | internal/monitor/handler.go:9-12 | Receiving after one send on an empty channel gives back exactly `{event, path}`. |
| Handler.HandleKeepsHead | internal/monitor/handler.go:28-31 | A send never overtakes: the receiver still gets the oldest message first. |
| Server.Connect | internal/server/server.go:47-49 | The new connection is in the set, and no other membership changes. |
| Server.Disconnect | internal/server/server.go:53-58 | Exactly that connection leaves the set, and the other clients are unchanged. |
| Server.DisconnectUndoesConnect | internal/server/server.go:47-58 | Disconnecting a client that just connected restores the previous set. |
| Server.DisconnectIdempotent | internal/server/server.go:53-58 | A second delete of the same client, for example after a failed write removed it, changes nothing. |
| Server.Broadcast | internal/server/server.go:91-97 | Every present client is attempted. Exactly the clients whose write failed are closed and removed, and exactly those whose write succeeded remain. |
| Server.RunWebSocketServer | internal/server/server.go:84-100 | Events go out in queue order. Each is attempted on exactly the clients present at that moment. The final set is the clients none of whose writes failed, and it never gains clients. |
| Server.SurvivorsExact | internal/server/server.go:91-97 | A client whose write of one of the events fails is gone afterwards. |
| Server.SurvivorsKeepSucceeding | internal/server/server.go:91-97 | A client whose writes all succeed is never dropped, whatever happens to the other clients. |
| Utils.ParseArgs | internal/utils/utils.go:12-17 | The result is never empty. With fewer than two arguments it is `["."]`. Otherwise it is the arguments after the program name, in order, of length len(args) - 1. |
| Utils.ParseArgsRecoversUserArgs | internal/utils/utils.go:12-17 | After a program name, the user's arguments come back unchanged, or `["."]` when there are none. |

## Findings

| source | as written | input that shows it | evidently intended | confidence | as-written member | corrected member |
|---|---|---|---|---|---|---|
| internal/monitor/watcher.go:97-99 | The Remove branch calls `wg.Done()` for the removed directory. That directory's own task also calls `wg.Done()` through the defer at line 25 when it returns. | Init with `{"/a"}`, a Remove event for "/a", then the stop signal: the counter goes 1, 0, -1. A Go WaitGroup panics on a negative counter, and `Wait` can return while the task for "/a" is still running. | Only deregister in `processEvent`. The task discounts itself exactly once when it returns, so the counter always equals the number of running tasks. | not executed; high (both decrements are unconditional on their paths) | Lifecycle.RemovedDirectoryCountedOutTwice | Lifecycle.ProcessEventJoinSafe |

The Watcher module keeps the code as written, so that its lemmas describe the
program. The task-lifecycle model in Lifecycle (`Apply`, `Run`,
`RunKeepsJoinBalanced`) uses the corrected `ProcessEventJoinSafe`.

The correction fixes only the counter. A related effect stays in both
versions: the Remove branch deregisters a directory but does not end its task,
which keeps waiting in its select loop until stop or a closed channel
(watcher.go:52-68). If the same directory is then created again, the Create
branch (watcher.go:112-114) starts a second task for it, so two tasks run for
one registered path (Lifecycle.RemovedThenRecreatedRunsTwice,
Lifecycle.RecreatedDirectoryWatchedTwice). The corrected model keeps this
behaviour: ending a task on Remove would need a per-task stop signal that the
program does not have.

## Left out

- fsnotify itself (`NewWatcher`, `Add`, `Remove`, `Close`) is a foreign OS call. Only whether a watch could be opened (`watchOpened`) and whether `Remove` failed (`removeFails`) are modelled.
- `os.Stat`, `filepath.Abs` and `filepath.WalkDir` are replaced by oracles. The real traversal order and the filesystem are not modelled.
- Goroutine scheduling, `wg.Wait` blocking, `removeMutex`, `clientsMu` and the unsynchronised map access are left out. Each step is one atomic transition.
- Watcher.Init: iterates over a snapshot of the registry. In Go, tasks started during the loop may insert into the map while it is being ranged over.
- Watcher.RunLoop: the nondeterministic choice of `select` among ready channels is fixed by the order of the input sequence.
- Lifecycle.Shutdown: assumes that once `stopChan` is closed, every task's next step is the stop branch. Go's `select` (watcher.go:52-68) picks at random among ready cases, so a task may still pass already-queued events to `processEvent` after stop. Those events can register a directory, start a task (`wg.Add(1)`) or, as written, call `wg.Done()`. The counter falling by exactly the number of tasks, and the registry staying unchanged, hold only under this assumption.
- Lifecycle.RunKeepsJoinBalanced: task returns are free actions. Which input makes a given task return is not tied to that task's own loop.
- Watcher.State: the counter is a plain `int`. A Go WaitGroup panics when its counter goes negative, and the model lets the counter reach -1 instead (see Lifecycle.RemovedDirectoryCountedOutTwice).
- Logging (`logrus`, `fmt.Println`) and `logDirs` are I/O only.
- The events channel's capacity of 100 and its blocking are left out. The queue is unbounded.
- Server.RunWebSocketServer: connects and disconnects that interleave with a broadcast run are not part of that method. They are the separate atomic steps `Connect` and `Disconnect`.
- Echo routing, static file serving, `HomeHandler` and internal/render/render.go are HTTP and templating wrappers.
- internal/wsserver/connection.go is a read/echo I/O loop with no model state.
- cmd/cli/main.go and cmd/web/main.go are process wiring and signal handling. The copy of `FilterValidDirs` in cmd/cli/main.go is the same as `Directories.FilterValidDirs`.
- internal/monitor/monitor_test.go calls `MonitorDirectory` with a signature that no longer exists, so it is not used.
