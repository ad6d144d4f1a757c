/**
 Join-counter accounting across the lifetime of all monitoring tasks.

 Every task is counted once by `wg.Add(1)` before it starts and discounted once
 by its deferred `wg.Done()` when it returns (internal/monitor/watcher.go:23-25).
 The Remove branch of processEvent calls `wg.Done()` a second time for the
 removed directory (watcher.go:99) although that directory's task has not
 returned and will call `wg.Done()` itself later. This module shows the
 resulting deficit and proves the balance for a Remove branch that only
 deregisters.
 */
module Lifecycle {
  import opened Paths
  import opened Watcher

  /** The counter equals the number of running tasks, so `wg.Wait()` returns exactly when all have exited. */
  predicate JoinBalanced(s: State) {
    s.counter == |s.tasks|
  }

  /** Between `wg.Add(1)` and the spawn the new task is already counted, and afterwards the balance is restored. */
  lemma StartKeepsEveryTaskCounted(s: State, dir: Path)
    requires JoinBalanced(s)
    ensures WgAdd(s).counter == |WgAdd(s).tasks| + 1
    ensures JoinBalanced(StartMonitoringSingleDir(s, dir))
  {
  }

  /** Starting one task per directory of a set keeps the balance (the effect of Watcher.Init). */
  lemma InitKeepsJoinBalanced(s: State, dirs: set<Path>)
    requires JoinBalanced(s)
    ensures JoinBalanced(State(s.dirs, s.counter + |dirs|, s.tasks + multiset(dirs)))
  {
  }

  /** Watcher.Init from a balanced state: every registered directory gets exactly one counted task. */
  method InitJoinBalanced(s: State) returns (r: State)
    requires JoinBalanced(s)
    ensures JoinBalanced(r)
    ensures r.dirs == s.dirs
    ensures forall p :: p in s.dirs ==> r.tasks[p] == s.tasks[p] + 1
  {
    r := Init(s);
    InitKeepsJoinBalanced(s, s.dirs);
  }

  /** The Remove branch as written leaves the counter one below the number of running tasks. */
  lemma AsWrittenRemoveUnbalances(s: State, e: Event, isDir: Path -> bool, removeFails: Path -> bool)
    requires JoinBalanced(s)
    requires Has(e.op, RemoveOp) && !Has(e.op, CreateOp) && e.name in s.dirs
    ensures ProcessEvent(s, e, isDir, removeFails).counter == |ProcessEvent(s, e, isDir, removeFails).tasks| - 1
  {
  }

  /**
   Concrete run of the code as written: one directory is started, removed, and
   its task then returns (on stop, or because its watch source closed). No task
   is left, yet the counter is -1 (a Go WaitGroup panics on a negative counter).
   */
  lemma RemovedDirectoryCountedOutTwice()
    ensures var s0 := State({"/a"}, 0, multiset{});
            var s1 := StartMonitoringSingleDir(s0, "/a");
            var s2 := ProcessEvent(s1, Event(RemoveOp, "/a"), p => true, p => false);
            var s3 := TaskExit(s2, "/a");
            JoinBalanced(s1) && s2.dirs == {} && s3.tasks == multiset{} && s3.counter == -1
  {
  }

  /**
   A Remove does not end the removed directory's task (it keeps waiting in its
   select loop), so a Remove followed by a Create of the same directory leaves
   two tasks running for one registered path. This holds for the code as
   written and for the join-safe Remove branch alike.
   */
  lemma RemovedThenRecreatedRunsTwice(s: State, dir: Path, isDir: Path -> bool, removeFails: Path -> bool)
    requires dir in s.dirs && isDir(dir)
    ensures var r := ProcessEvent(ProcessEvent(s, Event(RemoveOp, dir), isDir, removeFails), Event(CreateOp, dir), isDir, removeFails);
      r.dirs == s.dirs && r.tasks[dir] == s.tasks[dir] + 1
    ensures var r := ProcessEventJoinSafe(ProcessEventJoinSafe(s, Event(RemoveOp, dir), isDir), Event(CreateOp, dir), isDir);
      r.dirs == s.dirs && r.tasks[dir] == s.tasks[dir] + 1
  {
  }

  /** Concrete run: "/a" is watched by one task, removed, then created again; two tasks now watch it. */
  lemma RecreatedDirectoryWatchedTwice()
    ensures var s0 := State({"/a"}, 1, multiset{"/a"});
            var s1 := ProcessEvent(s0, Event(RemoveOp, "/a"), p => true, p => false);
            var s2 := ProcessEvent(s1, Event(CreateOp, "/a"), p => true, p => false);
            s2.dirs == {"/a"} && s2.tasks["/a"] == 2
  {
  }

  /** The Remove branch without `wg.Done()`: the removed directory's own task discounts itself when it returns. */
  function RemoveStepJoinSafe(s: State, e: Event): State {
    if Has(e.op, RemoveOp) && e.name in s.dirs then
      s.(dirs := s.dirs - {e.name})
    else
      s
  }

  /** processEvent with the join-safe Remove branch. */
  function ProcessEventJoinSafe(s: State, e: Event, isDir: Path -> bool): (r: State)
    // the registry and the running tasks evolve exactly as in the code
    ensures r.dirs == ProcessEvent(s, e, isDir, p => false).dirs
    ensures r.tasks == ProcessEvent(s, e, isDir, p => false).tasks
    // the counter moves only when a task is started
    ensures r.counter - s.counter == |r.tasks| - |s.tasks|
    ensures JoinBalanced(s) ==> JoinBalanced(r)
  {
    CreateStep(RemoveStepJoinSafe(s, e), e, isDir)
  }

  /** What can happen to the shared state: an event reaches processEvent, or a task returns. */
  datatype Action = Deliver(event: Event) | Finish(dir: Path)

  /** One action; a task that is not running cannot return. */
  function Apply(s: State, a: Action, isDir: Path -> bool): State {
    match a
    case Deliver(e) => ProcessEventJoinSafe(s, e, isDir)
    case Finish(dir) => if dir in s.tasks then TaskExit(s, dir) else s
  }

  /** Any interleaving of actions, applied in order. */
  function Run(s: State, actions: seq<Action>, isDir: Path -> bool): State
    decreases |actions|
  {
    if |actions| == 0 then s else Run(Apply(s, actions[0], isDir), actions[1..], isDir)
  }

  /** Under the join-safe Remove branch, every interleaving keeps the counter equal to the running tasks. */
  lemma {:induction false} RunKeepsJoinBalanced(s: State, actions: seq<Action>, isDir: Path -> bool)
    requires JoinBalanced(s)
    ensures JoinBalanced(Run(s, actions, isDir))
    ensures Run(s, actions, isDir).counter >= 0
    decreases |actions|
  {
    if |actions| > 0 {
      var next := Apply(s, actions[0], isDir);
      match actions[0] {
        case Deliver(e) =>
        case Finish(dir) =>
          if dir in s.tasks {
            assert |s.tasks - multiset{dir}| == |s.tasks| - 1;
          }
      }
      assert JoinBalanced(next);
      RunKeepsJoinBalanced(next, actions[1..], isDir);
    }
  }

  /** Shutdown: every running task observes the stop signal and returns, once each. */
  method Shutdown(s: State) returns (r: State)
    ensures r.tasks == multiset{}
    ensures r.dirs == s.dirs
    ensures r.counter == s.counter - |s.tasks|
    ensures JoinBalanced(s) ==> r.counter == 0
  {
    r := s;
    while r.tasks != multiset{}
      invariant r.dirs == s.dirs
      invariant r.counter - |r.tasks| == s.counter - |s.tasks|
      decreases |r.tasks|
    {
      var dir :| dir in r.tasks;
      assert |r.tasks - multiset{dir}| == |r.tasks| - 1;
      r := TaskExit(r, dir);
    }
  }
}
