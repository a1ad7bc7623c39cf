/** The daemon object around its scheduler object. */
module CollectorDaemons {
  import opened Wrappers
  import opened SchedulerState
  import opened SchedulerInvariant
  import opened SchedulerRemoval
  import opened DaemonState
  import opened Scheduling

  class CollectorDaemon {
    var devices: set<string>
    var unresponsiveDevices: set<string>
    const scheduler: Scheduler
    ghost var ours: set<nat>
    ghost const reserved: set<string>

    ghost function State(): Daemon
      reads this, scheduler
    {
      Daemon(devices, unresponsiveDevices, scheduler.State(), ours, reserved)
    }

    constructor (ghost reserved: set<string>)
      ensures State() == NewDaemon(reserved) && Agree(State()) && fresh(scheduler)
    {
      devices, unresponsiveDevices := {}, {};
      scheduler := new Scheduler();
      ours := {};
      this.reserved := reserved;
    }

    /** Adds a configuration's tasks one by one; stops at the first addTask that raises. */
    method AddTasks(configId: string, specs: seq<TaskSpec>) returns (ok: bool)
      requires KeysAgree(scheduler.State())
      modifies scheduler
      ensures KeysAgree(scheduler.State())
      ensures (scheduler.State(), ok) == AddAll(old(scheduler.State()), configId, specs)
    {
      ghost var was := scheduler.State();
      var j := 0;
      ok := true;
      while j < |specs|
        invariant j <= |specs| && KeysAgree(scheduler.State())
        invariant AddAll(scheduler.State(), configId, specs[j..]) == AddAll(was, configId, specs)
      {
        var r := scheduler.AddTask(TaskOf(configId, specs[j]));
        if r.Err? {
          return false;
        }
        assert specs[j..][1..] == specs[j + 1..];
        j := j + 1;
      }
    }

    method UpdateConfig(cfg: Config) returns (ok: bool)
      requires KeysAgree(scheduler.State())
      modifies this, scheduler
      ensures (State(), ok) == Updated(old(State()), cfg)
    {
      ghost var was := State();
      if cfg.configId in devices {
        scheduler.RemoveTasksForConfig(cfg.configId);
      } else {
        devices := devices + {cfg.configId};
      }
      ghost var s := scheduler.State();
      ok := AddTasks(cfg.configId, cfg.tasks);
      ghost var s' := scheduler.State();
      ours := ours + (set i {:trigger s'.heap[i]} | |s.heap| <= i < |s'.heap|);
      assert devices == was.devices + {cfg.configId};
    }

    method DeleteDevice(deviceId: string)
      requires KeysAgree(scheduler.State())
      modifies this`devices, scheduler
      ensures KeysAgree(scheduler.State()) && State() == Deleted(old(State()), deviceId)
    {
      devices := devices - {deviceId};
      scheduler.RemoveTasksForConfig(deviceId);
    }

    /** Deletes the devices an update left out, in any order. */
    method PurgeOmittedDevices(updated: set<string>)
      requires KeysAgree(scheduler.State())
      modifies this`devices, scheduler
      ensures State() == Purged(old(State()), updated)
    {
      ghost var was := State();
      var left := devices - updated;
      ghost var done: set<string> := {};
      RemoveNone(was.sched);
      while left != {}
        invariant left !! done && left + done == was.devices - updated
        invariant devices == was.devices - done
        invariant scheduler.State() == RemoveConfigs(was.sched, done) && KeysAgree(scheduler.State())
        decreases left
      {
        var id :| id in left;
        left := left - {id};
        RemoveOneMore(was.sched, done, id);
        DeleteDevice(id);
        done := done + {id};
      }
      assert devices == was.devices * updated;
    }

    /** An update nothing interrupts: every configuration, then the purge. */
    method UpdateDeviceConfigs(cfgs: seq<Config>) returns (ok: bool)
      requires Agree(State()) && LegalUpdate(State(), cfgs)
      modifies this, scheduler
      ensures ok && Agree(State()) && State() == Purged(UpdatedAll(old(State()), cfgs).0, Ids(cfgs))
      ensures devices == Ids(cfgs)
    {
      ghost var was := State();
      PurgingUpdate(was, cfgs);
      var j := 0;
      while j < |cfgs|
        invariant j <= |cfgs|
        invariant UpdatedAll(State(), cfgs[j..]) == UpdatedAll(was, cfgs)
        invariant Agree(State()) && LegalUpdate(State(), cfgs[j..])
      {
        UpdateKeeps(State(), cfgs[j..][0]);
        ok := UpdateConfig(cfgs[j]);
        assert cfgs[j..][1..] == cfgs[j + 1..];
        j := j + 1;
      }
      assert KeysAgree(scheduler.State());
      PurgeOmittedDevices(set k | 0 <= k < |cfgs| :: cfgs[k].configId);
      ok := true;
    }

    /** _processDeviceIssues on the ids of a maintenance result. */
    method ProcessDeviceIssues(newUnresponsive: set<string>)
      requires Agree(State())
      modifies this`unresponsiveDevices, scheduler
      ensures Agree(State()) && State() == WithIssues(old(State()), newUnresponsive)
    {
      IssuesKeep(State(), newUnresponsive);
      var cleared := unresponsiveDevices - newUnresponsive;
      SetPausedForDevices(cleared, false);
      unresponsiveDevices := newUnresponsive;
      SetPausedForDevices(unresponsiveDevices, true);
    }

    method SetPausedForDevices(ids: set<string>, paused: bool)
      requires KeysAgree(scheduler.State())
      modifies scheduler
      ensures KeysAgree(scheduler.State()) && scheduler.State() == SetPausedAll(old(scheduler.State()), ids, paused)
    {
      ghost var was := scheduler.State();
      var left := ids;
      ghost var done: set<string> := {};
      assert scheduler.State().heap == SetPausedAll(was, done, paused).heap;
      while left != {}
        invariant left !! done && left + done == ids
        invariant KeysAgree(scheduler.State()) && scheduler.State() == SetPausedAll(was, done, paused)
        decreases left
      {
        var id :| id in left;
        left := left - {id};
        PauseOneMore(was, done, id, paused);
        scheduler.MarkPaused(id, paused);
        done := done + {id};
      }
    }
  }
}
