/**
 The collector daemon as a value: the devices it monitors, those it knows to be
 unresponsive, and its scheduler.  Its own steps interleave with every reactor
 event of the scheduler.
 */
module DaemonState {
  import opened Wrappers
  import opened SchedulerState
  import opened SchedulerInvariant
  import opened SchedulerRemoval

  /** What a task splitter makes of a configuration: one entry per task name. */
  datatype TaskSpec = TaskSpec(name: string, childIds: seq<string>, stopPhase: string, pauses: bool)
  datatype Config = Config(configId: string, tasks: seq<TaskSpec>)

  datatype Daemon = Daemon(
    devices: set<string>,
    unresponsive: set<string>,
    sched: Sched,
    ours: set<nat>,          // history: tasks added by _updateConfig
    reserved: set<string>)   // configIds of the daemon's own tasks (the configuration loader)

  datatype DaemonEvent =
    | Configure(cfg: Config)
    | Delete(deviceId: string)
    | Purge(updated: set<string>)
    | DeviceIssues(devices: set<string>)
    | AddOwn(name: string, configId: string, childIds: seq<string>, stopPhase: string, pauses: bool)
    | Reactor(event: Event)

  /** The task object made for one entry. */
  function TaskOf(configId: string, t: TaskSpec): Task {
    NewTask(t.name, configId, t.childIds, t.stopPhase, t.pauses)
  }

  /** Adds the tasks in order; a taken name raises ValueError and the rest are not added. */
  function AddAll(s: Sched, configId: string, specs: seq<TaskSpec>): (Sched, bool)
    decreases |specs|
  {
    if specs == [] then (s, true) else
    var r := Add(s, TaskOf(configId, specs[0]));
    if r.Err? then (s, false) else AddAll(r.value, configId, specs[1..])
  }

  /** _updateConfig; the flag says that no addTask raised. */
  ghost function Updated(d: Daemon, cfg: Config): (Daemon, bool) {
    var known := cfg.configId in d.devices;
    var s := if known then RemoveConfig(d.sched, cfg.configId) else d.sched;
    var (s', ok) := AddAll(s, cfg.configId, cfg.tasks);
    (d.(devices := d.devices + {cfg.configId}, sched := s',
        ours := d.ours + (set i {:trigger s'.heap[i]} | |s.heap| <= i < |s'.heap|)), ok)
  }

  ghost function UpdatedAll(d: Daemon, cfgs: seq<Config>): (Daemon, bool)
    decreases |cfgs|
  {
    if cfgs == [] then (d, true) else
    var (d', ok) := Updated(d, cfgs[0]);
    if !ok then (d', false) else UpdatedAll(d', cfgs[1..])
  }

  ghost function Deleted(d: Daemon, deviceId: string): Daemon {
    d.(devices := d.devices - {deviceId}, sched := RemoveConfig(d.sched, deviceId))
  }

  ghost function Purged(d: Daemon, updated: set<string>): Daemon {
    d.(devices := d.devices * updated, sched := RemoveConfigs(d.sched, d.devices - updated))
  }

  /** Pausing or resuming every configuration of a set. */
  function SetPausedAll(s: Sched, configIds: set<string>, paused: bool): Sched {
    s.(heap := seq(|s.heap|, i requires 0 <= i < |s.heap| =>
                     if Registered(s, i)
                         && s.heap[i].configId in configIds then s.heap[i].(paused := paused) else s.heap[i]))
  }

  function WithIssues(d: Daemon, devices: set<string>): Daemon {
    d.(unresponsive := devices,
       sched := SetPausedAll(SetPausedAll(d.sched, d.unresponsive - devices, false), devices, true))
  }

  ghost function DaemonStep(d: Daemon, e: DaemonEvent): Daemon {
    match e
    case Configure(cfg) => Updated(d, cfg).0
    case Delete(id) => Deleted(d, id)
    case Purge(updated) => Purged(d, updated)
    case DeviceIssues(devices) => WithIssues(d, devices)
    case AddOwn(n, c, kids, phase, pauses) => d.(sched := Step(d.sched, AddTask(n, c, kids, phase, pauses)))
    case Reactor(ev) => d.(sched := Step(d.sched, ev))
  }

  // ----- the agreement of daemon and scheduler -----

  ghost predicate Agree(d: Daemon) {
    && Valid(d.sched)
    && (forall i :: i in d.ours ==> i < |d.sched.heap|)
    && (forall i: nat :: Registered(d.sched, i) ==>
                           d.sched.heap[i].configId in if i in d.ours then d.devices else d.reserved)
    && (forall i: nat :: Registered(d.sched, i) && d.sched.heap[i].paused ==> MayBePaused(d, i))
    && d.devices !! d.reserved
  }

  /** Some task of i's config that was not removed before i was added pauses the config when it is scheduled. */
  ghost predicate SiblingPauses(s: Sched, i: nat)
    requires i < |s.heap|
  {
    exists j :: 0 <= j < |s.heap| && PausesLater(s.heap[j], s.heap[i].configId, i)
  }

  predicate PausesLater(t: Task, configId: string, i: nat) {
    t.configId == configId && t.pauses && (t.removedAt.Some? ==> i < t.removedAt.value)
  }

  /** What a paused task's flag may come from: its device is unresponsive, or a task of its config pauses it. */
  ghost predicate MayBePaused(d: Daemon, i: nat)
    requires i < |d.sched.heap|
  {
    d.sched.heap[i].configId in d.unresponsive || SiblingPauses(d.sched, i)
  }

  /** Paused tasks are those of unresponsive devices only. */
  ghost predicate PausedAgree(d: Daemon) {
    forall i: nat :: Registered(d.sched, i) && d.sched.heap[i].paused ==> d.sched.heap[i].configId in d.unresponsive
  }

  /** The names a configuration brings: distinct, and never used with another configId. */
  ghost predicate FreshNames(s: Sched, cfg: Config) {
    && (forall j, k :: 0 <= j < k < |cfg.tasks| ==> cfg.tasks[j].name != cfg.tasks[k].name)
    && (forall j, i :: 0 <= j < |cfg.tasks| && 0 <= i < |s.heap| && s.heap[i].name == cfg.tasks[j].name
                       ==> s.heap[i].configId == cfg.configId)
  }

  ghost predicate LegalStep(d: Daemon, e: DaemonEvent) {
    match e
    case Configure(cfg) => cfg.configId !in d.reserved && FreshNames(d.sched, cfg)
    case AddOwn(n, c, kids, phase, pauses) =>
      c in d.reserved && OneConfigPerName(d.sched, AddTask(n, c, kids, phase, pauses))
    case Reactor(ev) => !ev.AddTask? && !ev.Pause? && !ev.Resume?
    case _ => true
  }

  ghost predicate LegalRun(d: Daemon, es: seq<DaemonEvent>)
    decreases |es|
  {
    es == [] || (LegalStep(d, es[0]) && LegalRun(DaemonStep(d, es[0]), es[1..]))
  }

  ghost function DaemonRun(d: Daemon, es: seq<DaemonEvent>): Daemon
    decreases |es|
  {
    if es == [] then d else DaemonRun(DaemonStep(d, es[0]), es[1..])
  }

  function NewDaemon(reserved: set<string>): Daemon {
    Daemon({}, {}, INITIAL, {}, reserved)
  }

  // ----- what each step keeps -----

  predicate PausesFrom(specs: seq<TaskSpec>, k: nat) {
    exists j :: k <= j < |specs| && specs[j].pauses
  }

  /** An old row, paused with its config if it is registered under it and some new task pauses. */
  ghost predicate OldRow(s: Sched, s': Sched, configId: string, pauses: bool, i: nat)
    requires i < |s.heap| <= |s'.heap|
  {
    && (Registered(s', i) <==> Registered(s, i))
    && s'.heap[i] == if Registered(s, i) && s.heap[i].configId == configId
        && pauses then s.heap[i].(paused := true) else s.heap[i]
  }

  /** A new row is registered, and paused if its task or a later one pauses. */
  ghost predicate NewRow(s': Sched, configId: string, specs: seq<TaskSpec>, base: nat, i: nat)
    requires base <= i < |s'.heap| && i - base < |specs|
  {
    Registered(s', i) && s'.heap[i] == TaskOf(configId, specs[i - base]).(paused := PausesFrom(specs, i - base))
  }

  /** What adding a configuration's tasks comes to: the old rows, then the new ones. */
  ghost predicate Added(s: Sched, s': Sched, configId: string, specs: seq<TaskSpec>) {
    && |s'.heap| == |s.heap| + |specs|
    && (forall i: nat :: i < |s.heap| ==> OldRow(s, s', configId, PausesFrom(specs, 0), i))
    && (forall i: nat :: |s.heap| <= i < |s'.heap| ==> NewRow(s', configId, specs, |s.heap|, i))
  }

  lemma PausesOne(spec: TaskSpec)
    ensures PausesFrom([spec], 0) <==> spec.pauses
  {
    assert [spec][0] == spec;
  }

  lemma PausesSplits(specs: seq<TaskSpec>, k: nat)
    requires k < |specs|
    ensures PausesFrom(specs, k) <==> specs[k].pauses || PausesFrom(specs, k + 1)
    ensures k > 0 ==> (PausesFrom(specs, k) <==> PausesFrom(specs[1..], k - 1))
    ensures PausesFrom(specs, 1) <==> PausesFrom(specs[1..], 0)
  {
    assert forall j :: 0 <= j < |specs[1..]| ==> specs[1..][j] == specs[j + 1];
    if PausesFrom(specs, k) && k > 0 {
      var j :| k <= j < |specs| && specs[j].pauses;
      assert specs[1..][j - 1].pauses;
    }
    if PausesFrom(specs, 1) {
      var j :| 1 <= j < |specs| && specs[j].pauses;
      assert specs[1..][j - 1].pauses;
    }
  }

  lemma AddedOneMore(s: Sched, s1: Sched, s': Sched, configId: string, specs: seq<TaskSpec>)
    requires specs != [] && Added(s, s1, configId, [specs[0]]) && Added(s1, s', configId, specs[1..])
    ensures Added(s, s', configId, specs)
  {
    PausesSplits(specs, 0);
    PausesOne(specs[0]);
    forall i: nat | i < |s.heap| ensures OldRow(s, s', configId, PausesFrom(specs, 0), i) {
      assert OldRow(s, s1, configId, PausesFrom([specs[0]], 0), i);
      assert OldRow(s1, s', configId, PausesFrom(specs[1..], 0), i);
    }
    forall i: nat | |s.heap| <= i < |s'.heap| ensures NewRow(s', configId, specs, |s.heap|, i) {
      var k := i - |s.heap|;
      if k == 0 {
        assert NewRow(s1, configId, [specs[0]], |s.heap|, i);
        assert OldRow(s1, s', configId, PausesFrom(specs[1..], 0), i);
      } else {
        PausesSplits(specs, k);
        assert NewRow(s', configId, specs[1..], |s1.heap|, i);
      }
    }
  }

  lemma AddOne(s: Sched, t: Task, configId: string, spec: TaskSpec)
    requires Valid(s) && t == TaskOf(configId, spec) && t.name !in s.tasks && FreshName(s, t)
    ensures Add(s, t).Ok? && Valid(Add(s, t).value) && Added(s, Add(s, t).value, configId, [spec])
  {
    AddKeeps(s, t);
    var s' := Add(s, t).value;
    PausesOne(spec);
    assert Registered(s', |s.heap|);
    forall i: nat | i < |s.heap| ensures OldRow(s, s', configId, spec.pauses, i) {
      assert Registered(s', i) <==> Registered(s, i);
    }
  }

  /** Adding the tasks of a configuration nobody registered tasks for never raises. */
  lemma {:induction false} AddAllKeeps(s: Sched, configId: string, specs: seq<TaskSpec>)
    requires Valid(s) && FreshNames(s, Config(configId, specs))
    requires forall j :: 0 <= j < |specs| ==> specs[j].name !in s.tasks
    ensures AddAll(s, configId, specs).1 && Valid(AddAll(s, configId, specs).0)
    ensures Added(s, AddAll(s, configId, specs).0, configId, specs)
    decreases |specs|
  {
    hide Valid, Add, PausesFrom;
    if specs == [] {
      NoneAdded(s, configId);
    } else {
      var t := TaskOf(configId, specs[0]);
      AddOne(s, t, configId, specs[0]);
      var s1 := Add(s, t).value;
      StillFresh(s, s1, configId, specs);
      AddAllKeeps(s1, configId, specs[1..]);
      AddedOneMore(s, s1, AddAll(s1, configId, specs[1..]).0, configId, specs);
    }
  }

  /** Adding raises exactly when a name is taken already, or comes twice. */
  lemma {:induction false} AddingRaises(s: Sched, configId: string, specs: seq<TaskSpec>)
    ensures !AddAll(s, configId, specs).1
            <==> (exists k :: 0 <= k < |specs| && specs[k].name in s.tasks)
                 || (exists j, k :: 0 <= j < k < |specs| && specs[j].name == specs[k].name)
    decreases |specs|
  {
    if specs != [] && specs[0].name !in s.tasks {
      var s1 := Add(s, TaskOf(configId, specs[0])).value;
      var more := specs[1..];
      AddingRaises(s1, configId, more);
      assert s1.tasks.Keys == s.tasks.Keys + {specs[0].name};
      assert forall k :: 0 <= k < |more| ==> more[k] == specs[k + 1];
      assert forall k :: 0 < k < |specs| ==> specs[k] == more[k - 1];
    }
  }

  lemma NoneAdded(s: Sched, configId: string)
    ensures Added(s, s, configId, [])
  {
    assert !PausesFrom([], 0);
  }

  lemma StillFresh(s: Sched, s1: Sched, configId: string, specs: seq<TaskSpec>)
    requires specs != [] && FreshNames(s, Config(configId, specs))
    requires forall j :: 0 <= j < |specs| ==> specs[j].name !in s.tasks
    requires Add(s, TaskOf(configId, specs[0])) == Ok(s1) && Added(s, s1, configId, [specs[0]])
    ensures FreshNames(s1, Config(configId, specs[1..]))
    ensures forall j :: 0 <= j < |specs[1..]| ==> specs[1..][j].name !in s1.tasks
  {
    forall j | 0 <= j < |specs[1..]| ensures specs[1..][j] == specs[j + 1] {
    }
    forall i: nat | i < |s1.heap|
      ensures s1.heap[i].name == if i < |s.heap| then s.heap[i].name else specs[0].name
      ensures s1.heap[i].configId == if i < |s.heap| then s.heap[i].configId else configId
    {
      if i < |s.heap| {
        assert OldRow(s, s1, configId, PausesFrom([specs[0]], 0), i);
      } else {
        assert NewRow(s1, configId, [specs[0]], |s.heap|, i);
      }
    }
  }

  // ----- rows that go on -----

  /** The same task object: at most it was removed now. */
  predicate SameTask(t: Task, t': Task, now: nat) {
    && t'.name == t.name && t'.configId == t.configId && t'.pauses == t.pauses
    && (t'.removedAt == t.removedAt || t'.removedAt == Some(now))
  }

  lemma SiblingStays(s: Sched, s': Sched, i: nat)
    requires i < |s.heap| <= |s'.heap| && SiblingPauses(s, i)
    requires forall j :: 0 <= j < |s.heap| ==> SameTask(s.heap[j], s'.heap[j], |s.heap|)
    ensures SiblingPauses(s', i)
  {
    var j :| 0 <= j < |s.heap| && PausesLater(s.heap[j], s.heap[i].configId, i);
    assert SameTask(s.heap[j], s'.heap[j], |s.heap|) && SameTask(s.heap[i], s'.heap[i], |s.heap|);
    assert PausesLater(s'.heap[j], s'.heap[i].configId, i);
  }

  /** Nothing newly registered, no row renamed, paused or resumed. */
  ghost predicate Quiet(s: Sched, s': Sched) {
    && |s'.heap| == |s.heap|
    && (forall i: nat :: i < |s.heap|
           ==> SameTask(s.heap[i], s'.heap[i], |s.heap|) && s'.heap[i].paused == s.heap[i].paused)
    && (forall n :: n in s'.tasks ==> n in s.tasks && s'.tasks[n] == s.tasks[n])
  }

  lemma QuietRegisters(s: Sched, s': Sched, i: nat)
    requires Quiet(s, s') && Registered(s', i)
    ensures Registered(s, i)
  {
    assert s'.heap[i].name in s.tasks;
  }

  /** A quiet event keeps the agreement, also when devices without registered tasks are dropped. */
  lemma QuietAgrees(d: Daemon, s': Sched, devices: set<string>)
    requires Agree(d) && Quiet(d.sched, s') && Valid(s') && devices <= d.devices
    requires forall i: nat :: Registered(s', i) && i in d.ours ==> s'.heap[i].configId in devices
    ensures Agree(d.(sched := s', devices := devices))
  {
    hide Valid, SiblingPauses;
    var d' := d.(sched := s', devices := devices);
    forall i: nat | Registered(s', i)
      ensures if i in d.ours then s'.heap[i].configId in devices else s'.heap[i].configId in d.reserved
      ensures s'.heap[i].paused ==> MayBePaused(d', i)
    {
      QuietRegisters(d.sched, s', i);
      assert SameTask(d.sched.heap[i], s'.heap[i], |d.sched.heap|);
      if SiblingPauses(d.sched, i) { SiblingStays(d.sched, s', i); }
    }
  }

  lemma RetireIsQuiet(s: Sched, d: set<nat>)
    ensures Quiet(s, Retire(s, d))
  {
  }

  lemma FinishIsQuiet(s: Sched, k: nat, failed: bool, completed: bool)
    ensures Quiet(s, FinishRun(s, k, failed, completed))
  {
    if k in s.running && k < |s.heap| {
      var s' := RunEnds(s, k, failed, completed);
      assert Quiet(s, s');
      RetireIsQuiet(s', Doomed(s', s.heap[k].configId));
    }
  }

  lemma StopIsQuiet(s: Sched, phase: string)
    ensures Quiet(s, StopPhase(s, phase))
  {
    var s1 := Retire(s.(shuttingDown := true), Stopping(s, phase));
    RetireIsQuiet(s.(shuttingDown := true), Stopping(s, phase));
    assert Quiet(s1, SweepCleanup(s1));
  }

  lemma CalledIsSame(t: Task, now: nat)
    ensures SameTask(t, Called(t), now) && Called(t).paused == t.paused
  {
  }

  lemma CallIsQuiet(s: Sched, i: nat)
    requires i < |s.heap|
    ensures Quiet(s, Call(s, i))
  {
    CalledIsSame(s.heap[i], |s.heap|);
    hide Called, SameTask;
    forall k | 0 <= k < |s.heap| && k != i
      ensures SameTask(s.heap[k], s.heap[k], |s.heap|) { IsSame(s.heap[k], |s.heap|); }
  }

  lemma IsSame(t: Task, now: nat)
    ensures SameTask(t, t, now)
  {
  }

  lemma QuietTwice(s: Sched, s1: Sched, s': Sched)
    requires Quiet(s, s1) && Quiet(s1, s') && forall i :: 0 <= i < |s.heap|
                                                 ==> s1.heap[i].removedAt == s.heap[i].removedAt
    ensures Quiet(s, s')
  {
    forall i: nat | i < |s.heap|
      ensures SameTask(s.heap[i], s'.heap[i], |s.heap|) && s'.heap[i].paused == s.heap[i].paused {
      assert SameTask(s.heap[i], s1.heap[i], |s.heap|) && SameTask(s1.heap[i], s'.heap[i], |s1.heap|);
    }
  }

  lemma StartIsQuiet(s: Sched, p: nat)
    ensures Quiet(s, StartTask(s, p))
  {
    if p in s.starts && p < |s.heap| && s.heap[p].name in s.loopingCalls && s.loopingCalls[s.heap[p].name] < |s.heap| {
      var i, fired := s.loopingCalls[s.heap[p].name], s.(starts := s.starts - multiset{p});
      var begun := fired.(heap := s.heap[i := s.heap[i].(looping := true, started := true)]);
      RowEventIsQuiet(s, begun, i);
      CallIsQuiet(begun, i);
      QuietTwice(s, begun, Call(begun, i));
      hide Call;
    }
  }

  lemma SweepIsQuiet(s: Sched)
    ensures Quiet(s, SweepCleanup(s))
  {
  }

  /** An event that writes one row, leaving its name, configId and pause flag. */
  lemma RowEventIsQuiet(s: Sched, s': Sched, i: nat)
    requires s'.tasks == s.tasks && |s'.heap| == |s.heap|
    requires forall k :: 0 <= k < |s.heap| && k != i ==> s'.heap[k] == s.heap[k]
    requires i < |s.heap| ==> SameTask(s.heap[i], s'.heap[i], |s.heap|) && s'.heap[i].paused == s.heap[i].paused
    ensures Quiet(s, s')
  {
  }

  lemma TickIsQuiet(s: Sched, i: nat)
    ensures Quiet(s, TickLoop(s, i))
  {
    if i < |s.heap| && s.heap[i].looping {
      CallIsQuiet(s, i);
    } else {
      RowEventIsQuiet(s, s, 0);
    }
  }

  lemma RunHeadIsQuiet(s: Sched)
    ensures Quiet(s, RunHead(s))
  {
  }

  lemma EndCleanupIsQuiet(s: Sched, i: nat, completed: bool)
    ensures Quiet(s, EndCleanup(s, i, completed))
  {
  }

  lemma ReactorIsQuiet(s: Sched, e: Event)
    requires !e.AddTask? && !e.Pause? && !e.Resume?
    ensures Quiet(s, Step(s, e))
  {
    hide Quiet, StartTask, FinishRun, RemoveConfig, StopPhase, SweepCleanup, TickLoop, RunHead, EndCleanup;
    match e
    case FireStart(p) => StartIsQuiet(s, p);
    case Finish(k, failed, completed) => FinishIsQuiet(s, k, failed, completed);
    case Remove(c) => RemoveIsQuiet(s, c);
    case Stop(phase) => StopIsQuiet(s, phase);
    case Sweep => SweepIsQuiet(s);
    case Tick(i) => TickIsQuiet(s, i);
    case RunNext => RunHeadIsQuiet(s);
    case OwnState(i, tag) => RowEventIsQuiet(s, SetOwnState(s, i, tag), i);
    case CleanupDone(i, completed) => EndCleanupIsQuiet(s, i, completed);
    case SetMax(max) => RowEventIsQuiet(s, Step(s, e), 0);
  }

  lemma RemoveIsQuiet(s: Sched, c: string)
    ensures Quiet(s, RemoveConfig(s, c))
  {
  }

  // ----- what each step keeps -----

  /** After a removal nothing is registered under the removed configId, and nothing else is new. */
  lemma RemovalShrinks(s: Sched, c: string)
    ensures var s' := RemoveConfig(s, c);
            forall i: nat :: Registered(s', i)
                ==> Registered(s, i) && s'.heap[i] == s.heap[i] && s.heap[i].configId != c
  {
    ReachesSelf(s, c);
    var s' := RemoveConfig(s, c);
    forall i: nat | Registered(s', i) ensures Registered(s, i) && i !in Doomed(s, c) {
      assert s'.heap[i].name in s.tasks;
    }
  }

  /** The scheduler _updateConfig adds to: the configuration's earlier tasks are out. */
  ghost function BeforeUpdate(d: Daemon, configId: string): Sched {
    if configId in d.devices then RemoveConfig(d.sched, configId) else d.sched
  }

  lemma BeforeUpdateOk(d: Daemon, cfg: Config)
    requires Agree(d) && LegalStep(d, Configure(cfg))
    ensures var s := BeforeUpdate(d, cfg.configId);
            && Valid(s) && Quiet(d.sched, s) && Agree(d.(sched := s))
            && (forall i: nat :: Registered(s, i) ==> s.heap[i].configId != cfg.configId)
  {
    hide Valid, Quiet, RemoveConfig;
    if cfg.configId in d.devices {
      RemoveKeeps(d.sched, cfg.configId);
      RemovalShrinks(d.sched, cfg.configId);
      RemoveIsQuiet(d.sched, cfg.configId);
      QuietAgrees(d, RemoveConfig(d.sched, cfg.configId), d.devices);
    } else {
      RowEventIsQuiet(d.sched, d.sched, 0);
      NotRegisteredUnless(d, cfg.configId);
    }
  }

  lemma NotRegisteredUnless(d: Daemon, c: string)
    requires Agree(d) && c !in d.devices && c !in d.reserved
    ensures forall i: nat :: Registered(d.sched, i) ==> d.sched.heap[i].configId != c
  {
  }

  lemma FreshAfter(d: Daemon, cfg: Config, s: Sched)
    requires FreshNames(d.sched, cfg) && Quiet(d.sched, s) && Valid(s)
    requires forall i: nat :: Registered(s, i) ==> s.heap[i].configId != cfg.configId
    ensures FreshNames(s, cfg) && forall j :: 0 <= j < |cfg.tasks| ==> cfg.tasks[j].name !in s.tasks
  {
    forall i | 0 <= i < |s.heap|
      ensures s.heap[i].name == d.sched.heap[i].name && s.heap[i].configId == d.sched.heap[i].configId
    {
      assert SameTask(d.sched.heap[i], s.heap[i], |d.sched.heap|);
    }
    forall j | 0 <= j < |cfg.tasks| ensures cfg.tasks[j].name !in s.tasks {
      if cfg.tasks[j].name in s.tasks {
        assert Registered(s, s.tasks[cfg.tasks[j].name]);
      }
    }
  }

  /**
   _updateConfig never raises, and afterwards the configuration's registered tasks are exactly the new ones; a new
   task is paused when it or a later one of them pauses its config.
   */
  lemma UpdateKeeps(d: Daemon, cfg: Config)
    requires Agree(d) && LegalStep(d, Configure(cfg))
    ensures Updated(d, cfg).1 && Agree(Updated(d, cfg).0)
    ensures |Updated(d, cfg).0.sched.heap| == |d.sched.heap| + |cfg.tasks|
    ensures var s := Updated(d, cfg).0.sched;
            forall i: nat :: i < |s.heap| ==>
                               (Registered(s, i) && s.heap[i].configId == cfg.configId <==> |d.sched.heap| <= i)
    ensures var s, n := Updated(d, cfg).0.sched, |d.sched.heap|;
            forall i: nat :: n <= i < |s.heap| ==> NewRow(s, cfg.configId, cfg.tasks, n, i)
  {
    hide Valid, Agree;
    var s := BeforeUpdate(d, cfg.configId);
    BeforeUpdateOk(d, cfg);
    FreshAfter(d, cfg, s);
    AddAllKeeps(s, cfg.configId, cfg.tasks);
    var s' := Updated(d, cfg).0.sched;
    UpdatedAgrees(d.(sched := s), cfg, s');
    forall i: nat | i < |s'.heap|
      ensures Registered(s', i) && s'.heap[i].configId == cfg.configId <==> |s.heap| <= i
    {
      if i < |s.heap| {
        assert OldRow(s, s', cfg.configId, PausesFrom(cfg.tasks, 0), i);
      } else {
        assert NewRow(s', cfg.configId, cfg.tasks, |s.heap|, i);
      }
    }
  }

  /** Adding tasks under a config nothing is registered under keeps the agreement. */
  lemma UpdatedAgrees(d: Daemon, cfg: Config, s': Sched)
    requires Agree(d) && cfg.configId !in d.reserved && Valid(s') && Added(d.sched, s', cfg.configId, cfg.tasks)
    requires forall i: nat :: Registered(d.sched, i) ==> d.sched.heap[i].configId != cfg.configId
    ensures Agree(d.(devices := d.devices + {cfg.configId}, sched := s',
                     ours := d.ours + set i {:trigger s'.heap[i]} | |d.sched.heap| <= i < |s'.heap|))
  {
    hide Valid, SiblingPauses;
    var s, c := d.sched, cfg.configId;
    var d' := d.(devices := d.devices + {c}, sched := s',
        ours := d.ours + set i {:trigger s'.heap[i]} | |s.heap| <= i < |s'.heap|);
    forall j | 0 <= j < |s.heap| ensures s'.heap[j] == s.heap[j] && (Registered(s', j) <==> Registered(s, j)) {
      assert OldRow(s, s', c, PausesFrom(cfg.tasks, 0), j);
    }
    forall i: nat | Registered(s', i)
      ensures if i in d'.ours then s'.heap[i].configId in d'.devices else s'.heap[i].configId in d'.reserved
      ensures s'.heap[i].paused ==> MayBePaused(d', i)
    {
      if i < |s.heap| {
        if SiblingPauses(s, i) { SiblingStays(s, s', i); }
      } else {
        var k := i - |s.heap|;
        assert NewRow(s', c, cfg.tasks, |s.heap|, i);
        if PausesFrom(cfg.tasks, k) { PausedBySibling(s, s', cfg, k); }
      }
    }
  }

  lemma PausedBySibling(s: Sched, s': Sched, cfg: Config, k: nat)
    requires Added(s, s', cfg.configId, cfg.tasks) && k < |cfg.tasks| && PausesFrom(cfg.tasks, k)
    ensures SiblingPauses(s', |s.heap| + k)
  {
    var j :| k <= j < |cfg.tasks| && cfg.tasks[j].pauses;
    assert NewRow(s', cfg.configId, cfg.tasks, |s.heap|, |s.heap| + j);
    assert NewRow(s', cfg.configId, cfg.tasks, |s.heap|, |s.heap| + k);
    assert PausesLater(s'.heap[|s.heap| + j], cfg.configId, |s.heap| + k);
  }

  lemma DeleteKeeps(d: Daemon, deviceId: string)
    requires Agree(d)
    ensures Agree(Deleted(d, deviceId))
  {
    hide Valid, Quiet, RemoveConfig;
    RemoveKeeps(d.sched, deviceId);
    RemovalShrinks(d.sched, deviceId);
    RemoveIsQuiet(d.sched, deviceId);
    QuietAgrees(d, RemoveConfig(d.sched, deviceId), d.devices - {deviceId});
  }

  lemma PurgeKeeps(d: Daemon, updated: set<string>)
    requires Agree(d)
    ensures Agree(Purged(d, updated))
  {
    hide Valid, Quiet, Reaches;
    var gone := DoomedFrom(d.sched, d.devices - updated);
    var s' := Purged(d, updated).sched;
    PurgedIsValid(d.sched, gone);
    RetireIsQuiet(d.sched, gone);
    forall i: nat | Registered(s', i) && i in d.ours ensures s'.heap[i].configId in d.devices * updated {
      QuietRegisters(d.sched, s', i);
      ReachesSelf(d.sched, d.sched.heap[i].configId);
    }
    QuietAgrees(d, s', d.devices * updated);
  }

  lemma PurgedIsValid(s: Sched, gone: set<nat>)
    requires Valid(s) && forall i :: i in gone ==> Registered(s, i)
    ensures Valid(Retire(s, gone))
  {
    RetireKeeps(s, gone);
  }

  lemma PauseAllKeepsRow(s: Sched, configIds: set<string>, paused: bool, k: nat)
    requires Valid(s) && k < |s.heap|
    ensures var s' := SetPausedAll(s, configIds, paused);
            StateOk(s', k) && LifeOk(s', k) && CountersOk(s', k) && (Registered(s', k) <==> Registered(s, k))
  {
    var s' := SetPausedAll(s, configIds, paused);
    assert StateOk(s, k) && LifeOk(s, k) && CountersOk(s, k);
    assert Registered(s', k) <==> Registered(s, k);
  }

  lemma PauseAllKeeps(s: Sched, configIds: set<string>, paused: bool)
    requires Valid(s)
    ensures Valid(SetPausedAll(s, configIds, paused))
    ensures forall i: nat :: Registered(SetPausedAll(s, configIds, paused), i) <==> Registered(s, i)
  {
    hide StateOk, LifeOk, CountersOk;
    var s' := SetPausedAll(s, configIds, paused);
    forall k: nat | k < |s.heap|
      ensures StateOk(s', k) && LifeOk(s', k) && CountersOk(s', k) && (Registered(s', k) <==> Registered(s, k))
    {
      PauseAllKeepsRow(s, configIds, paused, k);
    }
    forall t: nat, u: nat | OlderGeneration(s', t, u) && s'.heap[u].started ensures t !in s'.cleanup {
      assert OlderGeneration(s, t, u);
    }
  }

  lemma PauseOneMore(s: Sched, ids: set<string>, id: string, paused: bool)
    requires KeysAgree(s)
    ensures var s1 := SetPausedAll(s, ids, paused);
            SetPaused(s1, id, paused) == SetPausedAll(s, ids + {id}, paused) && KeysAgree(SetPaused(s1, id, paused))
  {
    var s1 := SetPausedAll(s, ids, paused);
    assert forall i: nat :: Registered(s1, i) <==> Registered(s, i);
    assert SetPaused(s1, id, paused).heap == SetPausedAll(s, ids + {id}, paused).heap;
  }

  /** The flag of a registered task after a device-issue step. */
  predicate FlagAfter(d: Daemon, devices: set<string>, t: Task) {
    t.configId in devices || (t.paused && t.configId !in d.unresponsive)
  }

  lemma IssuesRows(d: Daemon, devices: set<string>)
    requires Valid(d.sched)
    ensures var s, s' := d.sched, WithIssues(d, devices).sched;
            && Valid(s') && |s'.heap| == |s.heap| && s'.tasks == s.tasks
            && forall i: nat :: i < |s.heap| ==>
                                  (Registered(s', i) <==> Registered(s, i))
                                  && s'.heap[i]
                                      == if Registered(s,
                                      i) then s.heap[i].(paused := FlagAfter(d, devices, s.heap[i])) else s.heap[i]
  {
    hide Valid;
    var s1 := SetPausedAll(d.sched, d.unresponsive - devices, false);
    PauseAllKeeps(d.sched, d.unresponsive - devices, false);
    PauseAllKeeps(s1, devices, true);
  }

  /**
   Right after a device-issue step a registered task is paused when its device is unresponsive, and else only when it
   was paused already without its device being unresponsive.
   */
  lemma IssuesKeep(d: Daemon, devices: set<string>)
    requires Agree(d)
    ensures Agree(WithIssues(d, devices))
    ensures var s' := WithIssues(d, devices).sched;
            forall i: nat :: Registered(s', i) ==> (s'.heap[i].paused <==> FlagAfter(d, devices, d.sched.heap[i]))
  {
    hide Valid, SiblingPauses;
    var s, d' := d.sched, WithIssues(d, devices);
    IssuesRows(d, devices);
    forall i: nat | Registered(d'.sched, i) && d'.sched.heap[i].paused ensures MayBePaused(d', i) {
      assert Registered(s, i);
      if SiblingPauses(s, i) { SiblingStays(s, d'.sched, i); }
    }
  }

  lemma AddOwnKeeps(d: Daemon, t: Task)
    requires Agree(d) && IsNew(t) && FreshName(d.sched, t) && t.configId in d.reserved
    ensures Add(d.sched, t).Ok? ==> Agree(d.(sched := Add(d.sched, t).value))
  {
    AddKeeps(d.sched, t);
    if t.name !in d.sched.tasks {
      AddRows(d.sched, t);
      AddOwnAgrees(d, t, Add(d.sched, t).value);
    }
  }

  lemma AddOwnAgrees(d: Daemon, t: Task, s': Sched)
    requires Agree(d) && Valid(s') && t.configId in d.reserved && t.removedAt.None?
    requires |s'.heap| == |d.sched.heap| + 1 && s'.heap[|d.sched.heap|] == t.(paused := t.pauses)
    requires forall i: nat :: i < |d.sched.heap| ==> OldRow(d.sched, s', t.configId, t.pauses, i)
    ensures Agree(d.(sched := s'))
  {
    hide Valid, SiblingPauses;
    var s, d' := d.sched, d.(sched := s');
    forall j | 0 <= j < |s.heap| ensures SameTask(s.heap[j], s'.heap[j], |s.heap|) {
      assert OldRow(s, s', t.configId, t.pauses, j);
    }
    forall i: nat | Registered(s', i)
      ensures if i in d.ours then s'.heap[i].configId in d.devices else s'.heap[i].configId in d.reserved
      ensures s'.heap[i].paused ==> MayBePaused(d', i)
    {
      assert i < |s.heap| ==> OldRow(s, s', t.configId, t.pauses, i);
      if i < |s.heap| && SiblingPauses(s, i) { SiblingStays(s, s', i); }
      if t.pauses && s'.heap[i].configId == t.configId { NewOnePauses(s', |s.heap|, i); }
    }
  }

  lemma NewOnePauses(s: Sched, j: nat, i: nat)
    requires i < |s.heap| && j < |s.heap| && s.heap[j].pauses && s.heap[j].configId == s.heap[i].configId
            && s.heap[j].removedAt.None?
    ensures SiblingPauses(s, i)
  {
    assert PausesLater(s.heap[j], s.heap[i].configId, i);
  }

  lemma AddRows(s: Sched, t: Task)
    requires KeysAgree(s) && IsNew(t) && t.name !in s.tasks
    ensures var s' := Add(s, t).value;
            && |s'.heap| == |s.heap| + 1 && Registered(s', |s.heap|) && s'.heap[|s.heap|] == t.(paused := t.pauses)
            && (forall i: nat :: i < |s.heap| ==> OldRow(s, s', t.configId, t.pauses, i))
  {
    var s' := Add(s, t).value;
    forall i: nat | i < |s.heap| ensures OldRow(s, s', t.configId, t.pauses, i) {
      assert Registered(s', i) <==> Registered(s, i);
    }
  }

  lemma DaemonStepKeeps(d: Daemon, e: DaemonEvent)
    requires Agree(d) && LegalStep(d, e)
    ensures Agree(DaemonStep(d, e))
  {
    match e
    case Configure(cfg) => UpdateKeeps(d, cfg);
    case Delete(id) => DeleteKeeps(d, id);
    case Purge(updated) => PurgeKeeps(d, updated);
    case DeviceIssues(devices) => IssuesKeep(d, devices);
    case AddOwn(n, c, kids, phase, pauses) => AddOwnKeeps(d, NewTask(n, c, kids, phase, pauses));
    case Reactor(ev) =>
      StepKeeps(d.sched, ev);
      ReactorIsQuiet(d.sched, ev);
      ReactorRegisters(d, ev);
      QuietAgrees(d, Step(d.sched, ev), d.devices);
  }

  lemma ReactorRegisters(d: Daemon, ev: Event)
    requires Agree(d) && Quiet(d.sched, Step(d.sched, ev))
    ensures forall i: nat :: Registered(Step(d.sched, ev), i) && i in d.ours
               ==> Step(d.sched, ev).heap[i].configId in d.devices
  {
    hide Step, Valid;
    forall i: nat | Registered(Step(d.sched, ev), i) && i in d.ours
      ensures Step(d.sched, ev).heap[i].configId in d.devices {
      QuietRegisters(d.sched, Step(d.sched, ev), i);
      assert SameTask(d.sched.heap[i], Step(d.sched, ev).heap[i], |d.sched.heap|);
    }
  }

  /**
   Over every run of the daemon: device tasks belong to monitored devices, and a paused task belongs to an unresponsive
   device or to a config one of whose tasks pauses it.
   */
  lemma {:induction false} DaemonAgrees(d: Daemon, es: seq<DaemonEvent>)
    requires Agree(d) && LegalRun(d, es)
    ensures Agree(DaemonRun(d, es))
    decreases |es|
  {
    hide Agree, LegalStep, DaemonStep;
    if es != [] {
      DaemonStepKeeps(d, es[0]);
      DaemonAgrees(DaemonStep(d, es[0]), es[1..]);
    }
  }

  // ----- an uninterrupted purging update -----

  ghost function Ids(cfgs: seq<Config>): set<string> {
    set k | 0 <= k < |cfgs| :: cfgs[k].configId
  }

  /** Each configuration is legal when its turn comes. */
  ghost predicate LegalUpdate(d: Daemon, cfgs: seq<Config>)
    decreases |cfgs|
  {
    cfgs == [] || (LegalStep(d, Configure(cfgs[0])) && LegalUpdate(Updated(d, cfgs[0]).0, cfgs[1..]))
  }

  lemma IdsSplit(cfgs: seq<Config>)
    requires cfgs != []
    ensures Ids(cfgs) == {cfgs[0].configId} + Ids(cfgs[1..])
  {
    assert cfgs == [cfgs[0]] + cfgs[1..];
    forall k | k in Ids(cfgs) ensures k in {cfgs[0].configId} + Ids(cfgs[1..]) {
      var j :| 0 <= j < |cfgs| && cfgs[j].configId == k;
      if j > 0 { assert cfgs[1..][j - 1].configId == k; }
    }
    forall k | k in {cfgs[0].configId} + Ids(cfgs[1..]) ensures k in Ids(cfgs) {
      if k != cfgs[0].configId {
        var j :| 0 <= j < |cfgs[1..]| && cfgs[1..][j].configId == k;
        assert cfgs[j + 1].configId == k;
      }
    }
  }

  lemma UpdatedFields(d: Daemon, cfg: Config)
    ensures var d' := Updated(d, cfg).0;
            d'.devices == d.devices + {cfg.configId} && d'.unresponsive == d.unresponsive && d'.reserved == d.reserved
  {
  }

  lemma {:induction false} UpdateAllKeeps(d: Daemon, cfgs: seq<Config>)
    requires Agree(d) && LegalUpdate(d, cfgs)
    ensures UpdatedAll(d, cfgs).1 && Agree(UpdatedAll(d, cfgs).0)
    ensures UpdatedAll(d, cfgs).0.devices == d.devices + Ids(cfgs)
    decreases |cfgs|
  {
    hide Agree, Updated, LegalStep;
    if cfgs != [] {
      UpdateKeeps(d, cfgs[0]);
      UpdatedFields(d, cfgs[0]);
      UpdateAllKeeps(Updated(d, cfgs[0]).0, cfgs[1..]);
      IdsSplit(cfgs);
    }
  }

  /** It leaves exactly the updated devices, and device tasks of those only. */
  lemma PurgingUpdate(d: Daemon, cfgs: seq<Config>)
    requires Agree(d) && LegalUpdate(d, cfgs)
    ensures var d' := Purged(UpdatedAll(d, cfgs).0, Ids(cfgs));
            && UpdatedAll(d, cfgs).1 && Agree(d') && d'.devices == Ids(cfgs)
            && forall i: nat :: Registered(d'.sched, i) && i in d'.ours ==> d'.sched.heap[i].configId in Ids(cfgs)
  {
    UpdateAllKeeps(d, cfgs);
    PurgeKeeps(UpdatedAll(d, cfgs).0, Ids(cfgs));
  }
}
