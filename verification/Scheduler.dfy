/**
 The scheduler object: its dictionaries are fields, each reactor callback is a
 method, and each method is proved against the event of SchedulerState.
 Task objects are rows of an object store, so a task keeps its identity (and
 its state) after the scheduler forgot its name.
 */
module Scheduling {
  import opened Wrappers
  import opened SchedulerState
  import opened SchedulerInvariant
  import opened SchedulerRemoval
  import opened SchedulerRows
  import opened SchedulerEffects

  class Scheduler {
    var heap: seq<Task>
    var tasks: map<string, nat>
    var loopingCalls: map<string, nat>
    var taskStats: map<string, nat>
    var taskCallback: set<string>
    var tasksToCleanup: set<nat>
    var cleaning: set<nat>
    var starts: multiset<nat>
    var queue: seq<nat>
    var running: set<nat>
    var maxRunning: Option<nat>
    var shuttingDown: bool

    ghost function State(): Sched
      reads this
    {
      Sched(heap, tasks, loopingCalls, taskStats, taskCallback, tasksToCleanup, cleaning,
            starts, queue, running, maxRunning, shuttingDown)
    }

    constructor ()
      ensures State() == INITIAL && Valid(State())
    {
      heap, tasks, loopingCalls, taskStats, taskCallback := [], map[], map[], map[], {};
      tasksToCleanup, cleaning, starts, queue, running := {}, {}, multiset{}, [], {};
      maxRunning, shuttingDown := Some(1), false;
    }

    /** addTask on a task object just built; fails, changing nothing, when the name is taken. */
    method AddTask(t: Task) returns (r: Result<nat>)
      requires KeysAgree(State())
      modifies this`heap, this`tasks, this`loopingCalls, this`taskStats, this`taskCallback, this`starts
      ensures KeysAgree(State())
      ensures r.Ok? <==> t.name !in old(tasks)
      ensures r.Ok? ==> r.value == |old(heap)| && Add(old(State()), t) == Ok(State())
      ensures r.Err? ==> State() == old(State())
    {
      if t.name in tasks { return Err(ValueError); }
      r := Ok(|heap|);
      Enrol(t);
      if t.pauses { MarkPaused(t.configId, true); }
    }

    method Enrol(t: Task)
      requires KeysAgree(State()) && t.name !in tasks
      modifies this`heap, this`tasks, this`loopingCalls, this`taskStats, this`taskCallback, this`starts
      ensures KeysAgree(State()) && State() == Enrolled(old(State()), t)
    {
      var i := |heap|;
      heap := heap + [t];
      loopingCalls, tasks, taskCallback := loopingCalls[t.name := i], tasks[t.name := i], taskCallback + {t.name};
      taskStats, starts := taskStats[t.name := i], starts + multiset{i};
    }

    /** CallableTask.__call__. */
    method CallTask(i: nat)
      requires Valid(State()) && i < |heap| && heap[i].looping
      modifies this
      ensures Valid(State()) && State() == Call(old(State()), i)
      ensures queue == old(queue) + [i] <==> i !in old(queue) && i !in running && !old(heap)[i].paused
    {
      CallKeeps(State(), i);
      TickSubmits(State(), i);
      hide Valid, Called;
      var t, submit := CallRow(heap[i]);
      heap := heap[i := t];
      if submit { queue := queue + [i]; }
    }

    /** One delayed _startTask call coming due. */
    method StartTask(p: nat)
      requires Valid(State()) && p in starts
      modifies this
      ensures Valid(State()) && State() == SchedulerState.StartTask(old(State()), p)
    {
      ghost var was := State();
      StartKeeps(was, p);
      StartCases(was, p);
      hide Valid, Call, SchedulerState.StartTask;
      var name := heap[p].name;
      starts := starts - multiset{p};
      if name in loopingCalls {
        var i := loopingCalls[name];
        if !heap[i].looping {
          if AwaitsCleanupNow(heap[p].configId) {
            starts := starts + multiset{p};
          } else {
            heap := heap[i := heap[i].(looping := true, started := true)];
            CallTask(i);
          }
        }
      }
    }

    function AwaitsCleanupNow(configId: string): (r: bool)
      reads this
      ensures r <==> AwaitsCleanup(State(), configId)
    {
      exists i | i in tasksToCleanup :: i < |heap| && heap[i].configId == configId
    }

    /** The executor begins its oldest submission, if it has a free slot. */
    method RunTask()
      requires Valid(State())
      modifies this
      ensures Valid(State()) && State() == RunHead(old(State()))
    {
      ghost var was := State();
      RunHeadKeeps(was);
      if queue != [] && (maxRunning.None? || |running| < maxRunning.value) {
        var i := queue[0];
        assert i in queue;
        assert i < |heap|;
        queue := queue[1..];
        running := running + {i};
        heap := heap[i := Begun(heap[i])];
      }
    }

    /** CallableTask._finished for a run that left the task in a state of its own or COMPLETED. */
    method Finished(i: nat, failed: bool, completed: bool)
      requires KeysAgree(State()) && i in running && i < |heap|
      modifies this
      ensures KeysAgree(State()) && State() == FinishRun(old(State()), i, failed, completed)
    {
      EndRun(i, failed, completed);
      if completed {
        RemoveTasksForConfig(heap[i].configId);
      }
    }

    /** _finished up to that removal. */
    method EndRun(i: nat, failed: bool, completed: bool)
      requires KeysAgree(State()) && i < |heap|
      modifies this`heap, this`running
      ensures KeysAgree(State()) && State() == RunEnds(old(State()), i, failed, completed)
    {
      hide Ended;
      var t := EndRow(heap[i], failed, completed);
      running := running - {i};
      heap := heap[i := t];
    }

    /** Removes a configuration's tasks, then its children's, depth first. */
    method RemoveTasksForConfig(configId: string)
      requires KeysAgree(State())
      modifies this`heap, this`tasks, this`loopingCalls, this`taskStats, this`tasksToCleanup
      ensures KeysAgree(State()) && State() == RemoveConfig(old(State()), configId)
      ensures tasks.Keys <= old(tasks.Keys)
      decreases tasks.Keys
    {
      ghost var was := State();
      var childIds, doomed := StopTasks(configId);
      ghost var d := OwnTasks(was, configId);
      MoveToCleanup(was, doomed, d);
      CascadeStarts(was, configId, childIds);
      var j := 0;
      while j < |childIds|
        invariant Cascade(was, configId, childIds, j, d)
        invariant State() == Retire(was, d)
        invariant tasks.Keys <= was.tasks.Keys && (childIds != [] ==> tasks.Keys < was.tasks.Keys)
      {
        CascadeStep(was, configId, childIds, j, d);
        RetireKeepsKeys(was, d);
        d := d + Doomed(State(), childIds[j]);
        RemoveTasksForConfig(childIds[j]);
        j := j + 1;
      }
      CascadeEnds(was, configId, childIds, d);
      RetireKeepsKeys(was, d);
    }

    /** The first loop: stops the configuration's loops, takes off the listeners, notes names and children. */
    method StopTasks(configId: string) returns (childIds: seq<string>, doomed: seq<string>)
      requires KeysAgree(State())
      modifies this`heap
      ensures heap == Halted(old(heap), OwnTasks(old(State()), configId))
      ensures ChildrenOf(old(State()), configId, childIds)
      ensures forall n :: n in doomed <==> n in tasks && tasks[n] in OwnTasks(old(State()), configId)
      ensures forall j, k :: 0 <= j < k < |doomed| ==> doomed[j] != doomed[k]
      ensures childIds != [] ==> doomed != []
    {
      ghost var was := State();
      ghost var own := OwnTasks(was, configId);
      childIds, doomed := [], [];
      ghost var halted: set<nat> := {};
      var names := tasks.Keys;
      assert heap == Halted(was.heap, halted);
      while names != {}
        invariant names <= tasks.Keys && heap == Halted(was.heap, halted)
        invariant forall i :: i in halted <==> i in own && was.heap[i].name !in names
        invariant forall n :: n in doomed <==> n in tasks && tasks[n] in halted
        invariant forall j, k :: 0 <= j < k < |doomed| ==> doomed[j] != doomed[k]
        invariant forall k :: k in childIds <==> exists i :: i in halted && k in was.heap[i].childIds
        invariant childIds != [] ==> doomed != []
        modifies this`heap
        decreases names
      {
        var n :| n in names;
        names := names - {n};
        var i := tasks[n];
        assert i !in halted;
        HaltOne(was.heap, halted, i, was.heap[i].(looping := false, observed := false));
        if heap[i].configId == configId {
          childIds := childIds + heap[i].childIds;
          Halt(n);
          doomed := doomed + [n];
          halted := halted + {i};
        }
      }
      assert halted == own;
    }

    method Halt(n: string)
      requires n in tasks && n in loopingCalls && loopingCalls[n] == tasks[n] < |heap|
      modifies this`heap
      ensures heap == old(heap)[tasks[n] := old(heap)[tasks[n]].(looping := false, observed := false)]
    {
      var loop := loopingCalls[n];
      if heap[loop].looping {
        heap := heap[loop := heap[loop].(looping := false)];
      }
      heap := heap[tasks[n] := heap[tasks[n]].(observed := false)];
    }

    method Forget(n: string)
      requires n in tasks && tasks[n] < |heap|
      modifies this`heap, this`tasks, this`loopingCalls, this`taskStats, this`tasksToCleanup
      ensures var i := old(tasks[n]);
              && tasksToCleanup == old(tasksToCleanup) + {i}
              && heap == old(heap)[i := old(heap)[i].(removedAt := Some(|old(heap)|))]
      ensures loopingCalls == old(loopingCalls) - {n} && tasks == old(tasks) - {n} && taskStats == old(taskStats) - {n}
    {
      var i := tasks[n];
      tasksToCleanup := tasksToCleanup + {i};
      loopingCalls := loopingCalls - {n};
      tasks := tasks - {n};
      taskStats := taskStats - {n};
      heap := heap[i := heap[i].(removedAt := Some(|heap|))];
    }

    /** The second loop: takes the doomed names out of the dictionaries, their tasks into the cleanup set. */
    method MoveToCleanup(ghost was: Sched, doomed: seq<string>, ghost own: set<nat>)
      requires KeysAgree(was) && State() == was.(heap := Halted(was.heap, own))
      requires forall n :: n in doomed <==> n in was.tasks && was.tasks[n] in own
      requires forall i :: i in own ==> i < |was.heap| && Registered(was, i)
      requires forall j, k :: 0 <= j < k < |doomed| ==> doomed[j] != doomed[k]
      modifies this`heap, this`tasks, this`loopingCalls, this`taskStats, this`tasksToCleanup
      ensures State() == Retire(was, own)
      ensures tasks.Keys <= was.tasks.Keys && (doomed != [] ==> tasks.Keys < was.tasks.Keys)
    {
      hide Halted, Dated, Retire, Registered;
      var j := 0;
      ghost var moved: set<string>, dated: set<nat> := {}, {};
      DateNone(Halted(was.heap, own), |was.heap|);
      while j < |doomed|
        invariant j <= |doomed|
        invariant forall k :: 0 <= k < |doomed| ==> (doomed[k] in moved <==> k < j)
        invariant forall n :: n in moved ==> n in doomed
        invariant forall i :: i in dated <==> i in own && was.heap[i].name in moved
        invariant tasks == was.tasks - moved
        invariant loopingCalls == tasks && taskStats == tasks
        invariant tasksToCleanup == was.cleanup + dated
        invariant heap == Dated(Halted(was.heap, own), dated, |was.heap|)
        modifies this`heap, this`tasks, this`loopingCalls, this`taskStats, this`tasksToCleanup
      {
        var n := doomed[j];
        assert n in doomed && n !in moved;
        var i := tasks[n];
        MinusMinus(was.tasks, moved, n);
        DateOne(Halted(was.heap, own), dated, i, |was.heap|);
        OneMoreDated(was, own, moved, dated, n);
        Forget(n);
        moved, dated := moved + {n}, dated + {i};
        j := j + 1;
      }
      AllDated(was, own, doomed, moved, dated);
      RetiredInTwoLoops(was, own, moved);
      if doomed != [] {
        assert doomed[0] in doomed && doomed[0] !in tasks;
      }
    }

    method PauseTasksForConfig(configId: string)
      requires Valid(State())
      modifies this`heap
      ensures Valid(State()) && State() == SetPaused(old(State()), configId, true)
    {
      PauseKeeps(State(), configId, true);
      MarkPaused(configId, true);
    }

    method ResumeTasksForConfig(configId: string)
      requires Valid(State())
      modifies this`heap
      ensures Valid(State()) && State() == SetPaused(old(State()), configId, false)
    {
      PauseKeeps(State(), configId, false);
      MarkPaused(configId, false);
    }

    /** The loop both of them run. */
    method MarkPaused(configId: string, paused: bool)
      requires KeysAgree(State())
      modifies this`heap
      ensures State() == SetPaused(old(State()), configId, paused)
    {
      ghost var was := State();
      var names := tasks.Keys;
      while names != {}
        invariant names <= tasks.Keys && |heap| == |was.heap|
        invariant forall i :: 0 <= i < |heap| ==>
                                heap[i] == if Registered(was, i) && was.heap[i].name !in names
                                    && was.heap[i].configId == configId
                                           then was.heap[i].(paused := paused) else was.heap[i]
        modifies this`heap
        decreases names
      {
        var n :| n in names;
        names := names - {n};
        if heap[tasks[n]].configId == configId {
          heap := heap[tasks[n] := heap[tasks[n]].(paused := paused)];
        }
      }
      assert heap == SetPaused(was, configId, paused).heap;
    }

    /** _cleanupTasks: lists the cleanable tasks first, then marks each and calls its cleanup(). */
    method CleanupTasks()
      requires SetsOk(State())
      modifies this`heap, this`cleaning
      ensures State() == SweepCleanup(old(State()))
    {
      ghost var was := State();
      ghost var end := if shuttingDown then TaskState.Shutdown else Cleaning;
      var todo := set i | i in tasksToCleanup && i < |heap| && Cleanable(heap[i].state);
      var left := todo;
      ghost var swept: set<nat> := {};
      SweptNone(was.heap, end);
      hide Swept, SweepCleanup;
      while left != {}
        invariant left !! swept && left + swept == todo
        invariant cleaning == was.cleaning + swept && heap == Swept(was.heap, swept, end)
        modifies this`heap, this`cleaning
        decreases left
      {
        var i :| i in left;
        left := left - {i};
        SweepOne(was.heap, swept, i, end);
        BeginCleanup(i);
        swept := swept + {i};
      }
      SweptIsSweep(was);
    }

    /** The sweep's loop body up to the call of cleanup(). */
    method BeginCleanup(i: nat)
      requires i < |heap|
      modifies this`heap, this`cleaning
      ensures heap == old(heap)[i := old(heap)[i].(state := if shuttingDown then TaskState.Shutdown else Cleaning)]
      ensures cleaning == old(cleaning) + {i}
    {
      heap := heap[i := heap[i].(state := Cleaning)];
      if shuttingDown {
        heap := heap[i := heap[i].(state := TaskState.Shutdown)];
      }
      cleaning := cleaning + {i};
    }

    /** One of the three shutdown phases: takes out the tasks that stop in it, then sweeps. */
    method Shutdown(phase: string)
      requires Valid(State())
      modifies this
      ensures State() == StopPhase(old(State()), phase)
    {
      shuttingDown := true;
      ghost var was := State();
      ghost var own := Stopping(was, phase);
      assert own == Stopping(old(State()), phase);
      var doomed := StopTasksOfPhase(phase);
      MoveToCleanup(was, doomed, own);
      CleanupTasks();
    }

    method StopTasksOfPhase(phase: string) returns (doomed: seq<string>)
      requires KeysAgree(State())
      modifies this`heap
      ensures heap == Halted(old(heap), Stopping(old(State()), phase))
      ensures forall n :: n in doomed <==> n in tasks && tasks[n] in Stopping(old(State()), phase)
      ensures forall j, k :: 0 <= j < k < |doomed| ==> doomed[j] != doomed[k]
    {
      ghost var was := State();
      ghost var own := Stopping(was, phase);
      doomed := [];
      ghost var halted: set<nat> := {};
      var names := tasks.Keys;
      assert heap == Halted(was.heap, halted);
      while names != {}
        invariant names <= tasks.Keys && heap == Halted(was.heap, halted)
        invariant forall i :: i in halted <==> i in own && was.heap[i].name !in names
        invariant forall n :: n in doomed <==> n in tasks && tasks[n] in halted
        invariant forall j, k :: 0 <= j < k < |doomed| ==> doomed[j] != doomed[k]
        modifies this`heap
        decreases names
      {
        var n :| n in names;
        names := names - {n};
        var i := tasks[n];
        assert i !in halted;
        HaltOne(was.heap, halted, i, was.heap[i].(looping := false, observed := false));
        if StopsIn(heap[i], phase) {
          Halt(n);
          doomed := doomed + [n];
          halted := halted + {i};
        }
      }
      assert halted == own;
    }

    method CleanupTaskComplete(i: nat, completed: bool)
      requires Valid(State()) && i in cleaning
      modifies this
      ensures Valid(State()) && State() == EndCleanup(old(State()), i, completed)
    {
      EndCleanupKeeps(State(), i, completed);
      if completed {
        heap := heap[i := heap[i].(state := Completed)];
      }
      assert heap == EndCleanup(old(State()), i, completed).heap;
      cleaning := cleaning - {i};
      tasksToCleanup := tasksToCleanup - {i};
    }
  }
}
