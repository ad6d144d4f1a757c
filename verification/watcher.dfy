/**
 The watch manager of internal/monitor/watcher.go as a sequential state machine.

 The shared state is the watch registry (the `dirs` map, a set of paths), the
 WaitGroup counter, and the multiset of monitoring tasks (goroutines) that have
 been started and have not yet returned. Every call of `processEvent` is one
 atomic transition; `os.Stat` becomes the `isDir` oracle and the outcome of
 `watcher.Remove` becomes the `removeFails` oracle.
 */
module Watcher {
  import opened Paths

  /** fsnotify.Op: a 32-bit set of event kinds. */
  type Op = bv32

  const CreateOp: Op := 1
  const WriteOp: Op := 2
  const RemoveOp: Op := 4
  const RenameOp: Op := 8
  const ChmodOp: Op := 16

  /** `op&bit == bit`, the test the source applies to each kind. */
  predicate Has(op: Op, bit: Op) {
    op & bit == bit
  }

  /** fsnotify.Event: the kinds that happened and the path they happened to. */
  datatype Event = Event(op: Op, name: Path)

  /** The registry, the WaitGroup counter (not required to stay non-negative) and the running tasks. */
  datatype State = State(dirs: set<Path>, counter: int, tasks: multiset<Path>)

  /** `wg.Add(1)`. */
  function WgAdd(s: State): State {
    s.(counter := s.counter + 1)
  }

  /** `go func(dir) {...}(directory)`: a task for `dir` starts running. */
  function Spawn(s: State, dir: Path): State {
    s.(tasks := s.tasks + multiset{dir})
  }

  /** StartMonitoringSingleDir: the counter is raised first, then the task starts. */
  function StartMonitoringSingleDir(s: State, dir: Path): (r: State)
    // exactly one new task for `dir`, counted exactly once; the registry is not touched
    ensures r.dirs == s.dirs && r.counter == s.counter + 1
    ensures r.tasks[dir] == s.tasks[dir] + 1 && |r.tasks| == |s.tasks| + 1
    ensures forall p :: p != dir ==> r.tasks[p] == s.tasks[p]
  {
    Spawn(WgAdd(s), dir)
  }

  /** A task returns from MonitorDirectory and its deferred `wg.Done()` runs. */
  function TaskExit(s: State, dir: Path): (r: State)
    // the returning task, and only it, leaves the running set, and the counter drops by one
    ensures r.dirs == s.dirs && r.counter == s.counter - 1
    ensures dir in s.tasks ==> r.tasks[dir] == s.tasks[dir] - 1 && |r.tasks| == |s.tasks| - 1
    ensures forall p :: p != dir ==> r.tasks[p] == s.tasks[p]
  {
    s.(counter := s.counter - 1, tasks := s.tasks - multiset{dir})
  }

  /**
   The Remove branch of processEvent. The outcome of `watcher.Remove` is only
   logged, so `removeFails` has no influence on the state.
   */
  function RemoveStep(s: State, e: Event, removeFails: Path -> bool): State {
    if Has(e.op, RemoveOp) && e.name in s.dirs then
      s.(dirs := s.dirs - {e.name}, counter := s.counter - 1)
    else
      s
  }

  /** The Create branch of processEvent: register and start a task for a new directory. */
  function CreateStep(s: State, e: Event, isDir: Path -> bool): State {
    if Has(e.op, CreateOp) && isDir(e.name) && e.name !in s.dirs then
      StartMonitoringSingleDir(s.(dirs := s.dirs + {e.name}), e.name)
    else
      s
  }

  /** processEvent: the Remove bit is handled first, then the Create bit. */
  function ProcessEvent(s: State, e: Event, isDir: Path -> bool, removeFails: Path -> bool): (r: State)
    // only the event's own path is ever inserted, deleted or given a task
    ensures forall p :: p != e.name ==> (p in r.dirs <==> p in s.dirs)
    ensures forall p :: p != e.name ==> r.tasks[p] == s.tasks[p]
    // afterwards the path is registered exactly when it survived or was re-created as a directory
    ensures e.name in r.dirs <==>
              (e.name in s.dirs && !Has(e.op, RemoveOp)) || (Has(e.op, CreateOp) && isDir(e.name))
    // every counter change is matched: -1 per deregistration, +1 per started task
    ensures r.counter + s.tasks[e.name] + (if e.name in s.dirs && Has(e.op, RemoveOp) then 1 else 0)
            == s.counter + r.tasks[e.name]
    // a task is started exactly when the Create bit names a directory that is (after Remove) unregistered
    ensures r.tasks[e.name] == s.tasks[e.name] +
              (if Has(e.op, CreateOp) && isDir(e.name) && (e.name !in s.dirs || Has(e.op, RemoveOp)) then 1 else 0)
  {
    CreateStep(RemoveStep(s, e, removeFails), e, isDir)
  }

  /** Each registration is counted and each deregistration discounted, once: counter minus registered directories never changes. */
  lemma ProcessEventKeepsDirsCounted(s: State, e: Event, isDir: Path -> bool, removeFails: Path -> bool)
    ensures var r := ProcessEvent(s, e, isDir, removeFails);
      r.counter - |r.dirs| == s.counter - |s.dirs|
  {
  }

  /** A sequence of events handed to processEvent one after the other. */
  function ProcessAll(s: State, events: seq<Event>, isDir: Path -> bool, removeFails: Path -> bool): State
    decreases |events|
  {
    if |events| == 0 then s else ProcessAll(ProcessEvent(s, events[0], isDir, removeFails), events[1..], isDir, removeFails)
  }

  /** Over any sequence of events, counter minus registered directories never changes. */
  lemma {:induction false} ProcessAllKeepsDirsCounted(s: State, events: seq<Event>, isDir: Path -> bool, removeFails: Path -> bool)
    ensures var r := ProcessAll(s, events, isDir, removeFails);
      r.counter - |r.dirs| == s.counter - |s.dirs|
    decreases |events|
  {
    if |events| > 0 {
      ProcessEventKeepsDirsCounted(s, events[0], isDir, removeFails);
      ProcessAllKeepsDirsCounted(ProcessEvent(s, events[0], isDir, removeFails), events[1..], isDir, removeFails);
    }
  }

  /** processEvent never ends a task: every task running before a sequence of events is still running after it. */
  lemma {:induction false} ProcessAllKeepsTasks(s: State, events: seq<Event>, isDir: Path -> bool, removeFails: Path -> bool)
    ensures s.tasks <= ProcessAll(s, events, isDir, removeFails).tasks
    decreases |events|
  {
    if |events| > 0 {
      var next := ProcessEvent(s, events[0], isDir, removeFails);
      ProcessAllKeepsTasks(next, events[1..], isDir, removeFails);
      forall p
        ensures s.tasks[p] <= next.tasks[p]
      {
      }
    }
  }

  /** A Remove bit on a registered path deregisters it and takes exactly one off the counter. */
  lemma RemoveRegistered(s: State, e: Event, isDir: Path -> bool, removeFails: Path -> bool)
    requires Has(e.op, RemoveOp) && !Has(e.op, CreateOp) && e.name in s.dirs
    ensures var r := ProcessEvent(s, e, isDir, removeFails);
      r.dirs == s.dirs - {e.name} && r.counter == s.counter - 1 && r.tasks == s.tasks
  {
  }

  /** Whether `watcher.Remove` failed has no effect on the transition. */
  lemma RemoveOutcomeIgnored(s: State, e: Event, isDir: Path -> bool, f1: Path -> bool, f2: Path -> bool)
    ensures ProcessEvent(s, e, isDir, f1) == ProcessEvent(s, e, isDir, f2)
  {
  }

  /** A Remove bit on an unregistered path changes nothing: a duplicate Remove is ignored. */
  lemma DuplicateRemoveIgnored(s: State, e: Event, isDir: Path -> bool, removeFails: Path -> bool)
    requires Has(e.op, RemoveOp) && !Has(e.op, CreateOp) && e.name !in s.dirs
    ensures ProcessEvent(s, e, isDir, removeFails) == s
  {
  }

  /** Removing twice is the same as removing once. */
  lemma RemoveIdempotent(s: State, e: Event, isDir: Path -> bool, removeFails: Path -> bool)
    requires Has(e.op, RemoveOp) && !Has(e.op, CreateOp)
    ensures var r := ProcessEvent(s, e, isDir, removeFails);
      ProcessEvent(r, e, isDir, removeFails) == r
  {
  }

  /** A Create bit on a new directory registers it, raises the counter and starts one task for it. */
  lemma CreateNewDirectory(s: State, e: Event, isDir: Path -> bool, removeFails: Path -> bool)
    requires Has(e.op, CreateOp) && !Has(e.op, RemoveOp) && isDir(e.name) && e.name !in s.dirs
    ensures var r := ProcessEvent(s, e, isDir, removeFails);
      r.dirs == s.dirs + {e.name} && r.counter == s.counter + 1 && r.tasks == s.tasks + multiset{e.name}
  {
  }

  /** A Create bit on a registered path, or on one that is not a directory, changes nothing. */
  lemma CreateIgnored(s: State, e: Event, isDir: Path -> bool, removeFails: Path -> bool)
    requires Has(e.op, CreateOp) && !Has(e.op, RemoveOp) && (e.name in s.dirs || !isDir(e.name))
    ensures ProcessEvent(s, e, isDir, removeFails) == s
  {
  }

  /**
   With both bits set on a registered path that is still a directory, Remove runs
   before Create: the path ends registered, a new task is started and the counter
   is back where it was.
   */
  lemma RemoveThenCreate(s: State, e: Event, isDir: Path -> bool, removeFails: Path -> bool)
    requires Has(e.op, CreateOp) && Has(e.op, RemoveOp) && isDir(e.name) && e.name in s.dirs
    ensures var r := ProcessEvent(s, e, isDir, removeFails);
      r.dirs == s.dirs && r.counter == s.counter && r.tasks == s.tasks + multiset{e.name}
  {
  }

  /** Events with neither the Remove nor the Create bit (Write, Chmod, Rename) change nothing. */
  lemma OtherKindsIgnored(s: State, e: Event, isDir: Path -> bool, removeFails: Path -> bool)
    requires !Has(e.op, CreateOp) && !Has(e.op, RemoveOp)
    ensures ProcessEvent(s, e, isDir, removeFails) == s
  {
  }

  /** Every registered directory has a running task; processEvent keeps that so. */
  ghost predicate RegisteredAreWatched(s: State) {
    forall p :: p in s.dirs ==> p in s.tasks
  }

  lemma ProcessEventKeepsRegisteredWatched(s: State, e: Event, isDir: Path -> bool, removeFails: Path -> bool)
    requires RegisteredAreWatched(s)
    ensures RegisteredAreWatched(ProcessEvent(s, e, isDir, removeFails))
  {
  }

  /**
   Init: one StartMonitoringSingleDir per registered directory. The registry
   itself is not changed; the counter rises by exactly the number of directories.
   */
  method Init(s: State) returns (r: State)
    ensures r.dirs == s.dirs
    ensures r.counter == s.counter + |s.dirs|
    ensures r.tasks == s.tasks + multiset(s.dirs)
  {
    r := s;
    var todo := s.dirs;
    while todo != {}
      invariant todo <= s.dirs
      invariant r.dirs == s.dirs
      invariant r.counter == s.counter + |s.dirs - todo|
      invariant r.tasks == s.tasks + multiset(s.dirs - todo)
      decreases todo
    {
      var dir :| dir in todo;
      assert s.dirs - (todo - {dir}) == (s.dirs - todo) + {dir};
      r := StartMonitoringSingleDir(r, dir);
      todo := todo - {dir};
    }
    assert s.dirs - todo == s.dirs;
  }

  /** What a task's select loop can receive. */
  datatype LoopInput =
    | Stop                       // stopChan is closed
    | Received(event: Event)     // a value from watcher.Events
    | EventsClosed               // watcher.Events is closed
    | WatchError(message: string)// a value from watcher.Errors
    | ErrorsClosed               // watcher.Errors is closed

  datatype LoopOutcome = Continue | Exit

  /** The inputs on which handleEvents returns. */
  predicate EndsLoop(input: LoopInput) {
    input.Stop? || input.EventsClosed? || input.ErrorsClosed?
  }

  datatype LoopStep = LoopStep(outcome: LoopOutcome, state: State)

  /** One iteration of the handleEvents select loop. */
  function HandleEventsStep(s: State, input: LoopInput, isDir: Path -> bool, removeFails: Path -> bool): (r: LoopStep)
    ensures r.outcome == Exit <==> EndsLoop(input)
    ensures input.Received? ==> r.state == ProcessEvent(s, input.event, isDir, removeFails)
    ensures !input.Received? ==> r.state == s
  {
    match input
    case Stop => LoopStep(Exit, s)
    case Received(e) => LoopStep(Continue, ProcessEvent(s, e, isDir, removeFails))
    case EventsClosed => LoopStep(Exit, s)
    case WatchError(_) => LoopStep(Continue, s)
    case ErrorsClosed => LoopStep(Exit, s)
  }

  /** The events received from watcher.Events among some loop inputs, in order. */
  function EventsOf(inputs: seq<LoopInput>): seq<Event>
    decreases |inputs|
  {
    if |inputs| == 0 then []
    else (if inputs[0].Received? then [inputs[0].event] else []) + EventsOf(inputs[1..])
  }

  /** Where a run of the select loop over a sequence of inputs ends. */
  datatype LoopRun = LoopRun(state: State, consumed: nat, exited: bool)

  /** handleEvents over the inputs it is handed, in order, until one makes it return. */
  function RunLoop(s: State, inputs: seq<LoopInput>, isDir: Path -> bool, removeFails: Path -> bool): (r: LoopRun)
    ensures r.consumed <= |inputs|
    ensures r.exited <==> exists i :: 0 <= i < |inputs| && EndsLoop(inputs[i])
    ensures r.exited ==> 0 < r.consumed && EndsLoop(inputs[r.consumed - 1])
    ensures forall i :: 0 <= i < r.consumed - 1 ==> !EndsLoop(inputs[i])
    ensures !r.exited ==> r.consumed == |inputs|
    ensures r.state.counter - |r.state.dirs| == s.counter - |s.dirs|
    decreases |inputs|
  {
    if |inputs| == 0 then
      LoopRun(s, 0, false)
    else
      var step := HandleEventsStep(s, inputs[0], isDir, removeFails);
      if step.outcome == Exit then
        assert EventsOf(inputs[..1]) == [] by {
          assert inputs[..1][1..] == [];
        }
        LoopRun(step.state, 1, true)
      else
        var rest := RunLoop(step.state, inputs[1..], isDir, removeFails);
        ContinueShiftsInputs(inputs, rest.consumed, rest.exited);
        assert rest.state.counter - |rest.state.dirs| == s.counter - |s.dirs| by {
          if inputs[0].Received? {
            ProcessEventKeepsDirsCounted(s, inputs[0].event, isDir, removeFails);
          }
        }
        LoopRun(rest.state, rest.consumed + 1, rest.exited)
  }

  /** Every event received before the loop returns is processed, in order, and nothing else happens. */
  lemma {:induction false} RunLoopProcessesReceived(s: State, inputs: seq<LoopInput>, isDir: Path -> bool, removeFails: Path -> bool)
    ensures var r := RunLoop(s, inputs, isDir, removeFails);
      r.state == ProcessAll(s, EventsOf(inputs[..r.consumed]), isDir, removeFails)
    decreases |inputs|
  {
    if |inputs| > 0 {
      var step := HandleEventsStep(s, inputs[0], isDir, removeFails);
      if step.outcome == Exit {
        assert inputs[..1][1..] == [];
      } else {
        var rest := RunLoop(step.state, inputs[1..], isDir, removeFails);
        RunLoopProcessesReceived(step.state, inputs[1..], isDir, removeFails);
        ContinueThenProcessAll(s, inputs, rest.consumed, isDir, removeFails);
      }
    }
  }

  /** What a run over the inputs after a non-ending first one says about the inputs as a whole. */
  lemma ContinueShiftsInputs(inputs: seq<LoopInput>, n: nat, exited: bool)
    requires 0 < |inputs| && !EndsLoop(inputs[0]) && n < |inputs|
    requires exited <==> exists i :: 0 <= i < |inputs| - 1 && EndsLoop(inputs[1..][i])
    requires forall i :: 0 <= i < n - 1 ==> !EndsLoop(inputs[1..][i])
    requires exited ==> 0 < n && EndsLoop(inputs[1..][n - 1])
    ensures exited <==> exists i :: 0 <= i < |inputs| && EndsLoop(inputs[i])
    ensures forall i :: 0 <= i < n ==> !EndsLoop(inputs[i])
    ensures exited ==> EndsLoop(inputs[n])
  {
    assert forall i :: 1 <= i < |inputs| ==> inputs[i] == inputs[1..][i - 1];
  }

  /** Processing the events of the first `n + 1` inputs: one loop step on the first input, then the events of the next `n`. */
  lemma ContinueThenProcessAll(s: State, inputs: seq<LoopInput>, n: nat, isDir: Path -> bool, removeFails: Path -> bool)
    requires n < |inputs|
    ensures ProcessAll(HandleEventsStep(s, inputs[0], isDir, removeFails).state, EventsOf(inputs[1..][..n]), isDir, removeFails)
            == ProcessAll(s, EventsOf(inputs[..n + 1]), isDir, removeFails)
  {
    EventsOfTake(inputs, n);
    if inputs[0].Received? {
      ProcessAllCons(s, inputs[0].event, EventsOf(inputs[1..][..n]), isDir, removeFails);
    }
  }

  /** The events among the first `n + 1` inputs: those of the first input, then those among the next `n`. */
  lemma EventsOfTake(inputs: seq<LoopInput>, n: nat)
    requires n < |inputs|
    ensures inputs[0].Received? ==> EventsOf(inputs[..n + 1]) == [inputs[0].event] + EventsOf(inputs[1..][..n])
    ensures !inputs[0].Received? ==> EventsOf(inputs[..n + 1]) == EventsOf(inputs[1..][..n])
  {
    var taken := inputs[..n + 1];
    assert taken[0] == inputs[0] && taken[1..] == inputs[1..][..n];
    assert [] + EventsOf(inputs[1..][..n]) == EventsOf(inputs[1..][..n]);
  }

  /** Processing a non-empty sequence of events: the first one, then the rest. */
  lemma ProcessAllCons(s: State, e: Event, events: seq<Event>, isDir: Path -> bool, removeFails: Path -> bool)
    ensures ProcessAll(s, [e] + events, isDir, removeFails)
            == ProcessAll(ProcessEvent(s, e, isDir, removeFails), events, isDir, removeFails)
  {
    assert ([e] + events)[0] == e && ([e] + events)[1..] == events;
  }

  /** Watcher errors are logged and never end the loop or change the state. */
  lemma {:induction false} ErrorsOnlyLogged(s: State, messages: seq<string>, isDir: Path -> bool, removeFails: Path -> bool)
    ensures RunLoop(s, seq(|messages|, i requires 0 <= i < |messages| => WatchError(messages[i])), isDir, removeFails)
            == LoopRun(s, |messages|, false)
    decreases |messages|
  {
    var inputs := seq(|messages|, i requires 0 <= i < |messages| => WatchError(messages[i]));
    if |messages| > 0 {
      var tail := seq(|messages[1..]|, i requires 0 <= i < |messages[1..]| => WatchError(messages[1..][i]));
      assert inputs[1..] == tail;
      ErrorsOnlyLogged(s, messages[1..], isDir, removeFails);
    }
  }

  /**
   The goroutine started by StartMonitoringSingleDir: MonitorDirectory either
   fails to open its watch (`watchOpened` false) and returns at once, or runs the
   select loop; whenever it returns, the deferred `wg.Done()` runs exactly once.
   */
  function RunTask(s: State, dir: Path, watchOpened: bool, inputs: seq<LoopInput>,
                   isDir: Path -> bool, removeFails: Path -> bool): (r: State)
    // the goroutine runs only after its spawn
    requires dir in s.tasks
    // a watch that cannot be opened ends only this task, and nothing else changes
    ensures !watchOpened ==> r.dirs == s.dirs && r.counter == s.counter - 1 && r.tasks == s.tasks - multiset{dir}
    // a task told to stop first returns without touching the registry
    ensures watchOpened && 0 < |inputs| && inputs[0].Stop? ==>
              r.dirs == s.dirs && r.counter == s.counter - 1 && r.tasks == s.tasks - multiset{dir}
    // whatever ends the loop, the deferred Done discounts the task exactly once
    ensures watchOpened && (exists i :: 0 <= i < |inputs| && EndsLoop(inputs[i])) ==>
              r.counter - |r.dirs| == s.counter - |s.dirs| - 1
    // a task whose inputs never end the loop is still running and has not called Done
    ensures watchOpened && (forall i :: 0 <= i < |inputs| ==> !EndsLoop(inputs[i])) ==>
              r.counter - |r.dirs| == s.counter - |s.dirs|
    // returning never touches the registry
    ensures watchOpened ==> r.dirs == RunLoop(s, inputs, isDir, removeFails).state.dirs
    // a returning task leaves the running set once; every task its loop started keeps running
    ensures watchOpened ==>
              r.tasks + (if exists i :: 0 <= i < |inputs| && EndsLoop(inputs[i]) then multiset{dir} else multiset{})
              == RunLoop(s, inputs, isDir, removeFails).state.tasks
  {
    if !watchOpened then
      TaskExit(s, dir)
    else
      var run := RunLoop(s, inputs, isDir, removeFails);
      if run.exited then
        RunLoopProcessesReceived(s, inputs, isDir, removeFails);
        ProcessAllKeepsTasks(s, EventsOf(inputs[..run.consumed]), isDir, removeFails);
        TaskExit(run.state, dir)
      else
        run.state
  }
}
