/** When paused means unresponsive, and when a monitored device keeps its tasks. */
module DaemonLaws {
  import opened Wrappers
  import opened SchedulerState
  import opened SchedulerInvariant
  import opened SchedulerRemoval
  import opened LateCompletion
  import opened DaemonState

  // ----- paused and unresponsive -----

  /** A step that adds no task that pauses its config while the device is responsive. */
  predicate Harmless(d: Daemon, e: DaemonEvent) {
    match e
    case Configure(cfg) => PausesFrom(cfg.tasks, 0) ==> cfg.configId in d.unresponsive
    case AddOwn(n, c, _, _, pauses) => pauses && n !in d.sched.tasks ==> c in d.unresponsive
    case _ => true
  }

  lemma ConfigurePauses(d: Daemon, cfg: Config)
    requires Agree(d) && PausedAgree(d) && LegalStep(d, Configure(cfg))
    ensures PausedAgree(Updated(d, cfg).0) <==> Harmless(d, Configure(cfg))
  {
    hide Valid, Agree, Updated;
    UpdateKeeps(d, cfg);
    UpdateOldRows(d, cfg);
    var n, s' := |d.sched.heap|, Updated(d, cfg).0.sched;
    UpdatedFields(d, cfg);
    if PausesFrom(cfg.tasks, 0) {
      assert NewRow(s', cfg.configId, cfg.tasks, n, n);
      assert Registered(s', n) && s'.heap[n].paused && s'.heap[n].configId == cfg.configId;
    }
    forall i: nat | Registered(s', i) && s'.heap[i].paused && i >= n
      ensures PausesFrom(cfg.tasks, 0) && s'.heap[i].configId == cfg.configId {
      assert NewRow(s', cfg.configId, cfg.tasks, n, i);
      assert PausesFrom(cfg.tasks, i - n);
    }
  }

  /** What an update leaves of the rows that were there. */
  lemma UpdateOldRows(d: Daemon, cfg: Config)
    requires Agree(d) && LegalStep(d, Configure(cfg))
    ensures var s, s' := BeforeUpdate(d, cfg.configId), Updated(d, cfg).0.sched;
            && |s.heap| == |d.sched.heap| <= |s'.heap|
            && (forall i: nat :: i < |s.heap| && Registered(s', i)
                   ==> Registered(d.sched, i) && s'.heap[i] == d.sched.heap[i])
            && (forall i: nat :: i < |s.heap| ==> (Registered(s', i) <==> Registered(s, i)) && s'.heap[i] == s.heap[i])
  {
    hide Valid, Agree, PausesFrom;
    var s := BeforeUpdate(d, cfg.configId);
    BeforeUpdateOk(d, cfg);
    FreshAfter(d, cfg, s);
    AddAllKeeps(s, cfg.configId, cfg.tasks);
    var s' := Updated(d, cfg).0.sched;
    if cfg.configId in d.devices { RemovalShrinks(d.sched, cfg.configId); }
    forall i: nat | i < |s.heap| ensures (Registered(s', i) <==> Registered(s, i)) && s'.heap[i] == s.heap[i] {
      assert OldRow(s, s', cfg.configId, PausesFrom(cfg.tasks, 0), i);
    }
  }

  lemma AddOwnPauses(d: Daemon, t: Task)
    requires Agree(d) && PausedAgree(d) && IsNew(t) && t.name !in d.sched.tasks
    ensures PausedAgree(d.(sched := Add(d.sched, t).value)) <==> (t.pauses ==> t.configId in d.unresponsive)
  {
    AddRows(d.sched, t);
    var s, s' := d.sched, Add(d.sched, t).value;
    assert Registered(s', |s.heap|) && s'.heap[|s.heap|] == t.(paused := t.pauses);
    forall i: nat | i < |s.heap| ensures OldRow(s, s', t.configId, t.pauses, i) {
    }
  }

  lemma QuietPauses(d: Daemon, d': Daemon)
    requires PausedAgree(d) && Quiet(d.sched, d'.sched) && d'.unresponsive == d.unresponsive
    ensures PausedAgree(d')
  {
    forall i: nat | Registered(d'.sched, i) ensures Registered(d.sched, i) {
      QuietRegisters(d.sched, d'.sched, i);
    }
  }

  /** A step keeps paused tasks to unresponsive devices exactly when it is harmless. */
  lemma PausedStep(d: Daemon, e: DaemonEvent)
    requires Agree(d) && PausedAgree(d) && LegalStep(d, e)
    ensures PausedAgree(DaemonStep(d, e)) <==> Harmless(d, e)
  {
    match e
    case Configure(cfg) => ConfigurePauses(d, cfg);
    case AddOwn(n, c, kids, phase, pauses) =>
      if n !in d.sched.tasks { AddOwnPauses(d, NewTask(n, c, kids, phase, pauses)); }
    case DeviceIssues(devices) => IssuesRows(d, devices);
    case Delete(id) =>
      RemoveIsQuiet(d.sched, id);
      QuietPauses(d, Deleted(d, id));
    case Purge(updated) =>
      RetireIsQuiet(d.sched, DoomedFrom(d.sched, d.devices - updated));
      QuietPauses(d, Purged(d, updated));
    case Reactor(ev) =>
      ReactorIsQuiet(d.sched, ev);
      QuietPauses(d, DaemonStep(d, e));
  }

  /** In each state of a run paused tasks belong to unresponsive devices. */
  ghost predicate AlwaysPausedAgree(d: Daemon, es: seq<DaemonEvent>)
    decreases |es|
  {
    PausedAgree(d) && (es != [] ==> AlwaysPausedAgree(DaemonStep(d, es[0]), es[1..]))
  }

  ghost predicate AllHarmless(d: Daemon, es: seq<DaemonEvent>)
    decreases |es|
  {
    es != [] ==> Harmless(d, es[0]) && AllHarmless(DaemonStep(d, es[0]), es[1..])
  }

  /**
   Over every run, paused tasks always belong to unresponsive devices exactly when no step adds a task that pauses its
   config while the device is responsive.
   */
  lemma {:induction false} PausedMeansUnresponsive(d: Daemon, es: seq<DaemonEvent>)
    requires Agree(d) && PausedAgree(d) && LegalRun(d, es)
    ensures AlwaysPausedAgree(d, es) <==> AllHarmless(d, es)
    decreases |es|
  {
    hide Agree, PausedAgree, Harmless, LegalStep, DaemonStep;
    if es != [] {
      PausedStep(d, es[0]);
      DaemonStepKeeps(d, es[0]);
      var d' := DaemonStep(d, es[0]);
      if Harmless(d, es[0]) {
        PausedMeansUnresponsive(d', es[1..]);
      } else {
        NotAlways(d', es[1..]);
      }
    }
  }

  lemma NotAlways(d: Daemon, es: seq<DaemonEvent>)
    requires !PausedAgree(d)
    ensures !AlwaysPausedAgree(d, es)
  {
  }

  /** Right after a device-issue step paused means unresponsive exactly when no responsive config was paused before. */
  lemma PausedAfterIssues(d: Daemon, devices: set<string>)
    requires Agree(d)
    ensures var s' := WithIssues(d, devices).sched;
            (forall i: nat :: Registered(s', i) ==> (s'.heap[i].paused <==> s'.heap[i].configId in devices))
            <==> forall i: nat :: Registered(d.sched, i) && d.sched.heap[i].paused
                                  ==> d.sched.heap[i].configId in d.unresponsive + devices
  {
    IssuesRows(d, devices);
    var s, s' := d.sched, WithIssues(d, devices).sched;
    if forall i: nat :: Registered(s', i) ==> (s'.heap[i].paused <==> s'.heap[i].configId in devices) {
      forall i: nat | Registered(s, i) && s.heap[i].paused ensures s.heap[i].configId in d.unresponsive + devices {
        assert Registered(s', i);
      }
    } else {
      var i: nat :| Registered(s', i) && !(s'.heap[i].paused <==> s'.heap[i].configId in devices);
      assert Registered(s, i);
    }
  }

  // ----- a ping task of the nmap collector -----

  /** The configuration of a device whose one task pauses it, as those of the nmap collector do. */
  function Placeholder(id: string): Config {
    Config(id, [TaskSpec(id, [], "before", true)])
  }

  lemma PlaceholderIsPaused(d: Daemon, id: string)
    requires Agree(d) && LegalStep(d, Configure(Placeholder(id)))
    ensures var s, i := Updated(d, Placeholder(id)).0.sched, |d.sched.heap|;
            && i < |s.heap| && Registered(s, i) && s.heap[i].paused && s.heap[i].configId == id
            && forall k: nat :: Registered(s, k) && s.heap[k].configId == id ==> k == i
  {
    hide Valid, Agree, Updated;
    var cfg, i := Placeholder(id), |d.sched.heap|;
    UpdateKeeps(d, cfg);
    PausesOne(cfg.tasks[0]);
    assert NewRow(Updated(d, cfg).0.sched, id, cfg.tasks, i, i);
  }

  lemma FreshDaemon(id: string)
    ensures Agree(NewDaemon({})) && PausedAgree(NewDaemon({})) && LegalStep(NewDaemon({}), Configure(Placeholder(id)))
  {
  }

  /** Monitoring one such device gives a registered, paused task of a responsive device. */
  lemma ResponsiveButPaused(id: string)
    ensures var es := [Configure(Placeholder(id))];
            LegalRun(NewDaemon({}), es) && !PausedAgree(DaemonRun(NewDaemon({}), es))
  {
    var d, e := NewDaemon({}), Configure(Placeholder(id));
    FreshDaemon(id);
    PlaceholderIsPaused(d, id);
    assert [e][1..] == [];
    assert DaemonRun(d, [e]) == Updated(d, Placeholder(id)).0;
    UpdatedFields(d, Placeholder(id));
  }

  /** A device that was unresponsive for a while has its placeholder resumed, which then is no longer one. */
  lemma ClearingResumesPlaceholders(id: string)
    ensures var es := [Configure(Placeholder(id)), DeviceIssues({id}), DeviceIssues({})];
            && LegalRun(NewDaemon({}), es)
            && var s := DaemonRun(NewDaemon({}), es).sched;
               exists i: nat :: Registered(s, i) && s.heap[i].configId == id && s.heap[i].pauses && !s.heap[i].paused
  {
    var d, a, b, c := NewDaemon({}), Configure(Placeholder(id)), DeviceIssues({id}), DeviceIssues({});
    FreshDaemon(id);
    UpdateKeeps(d, Placeholder(id));
    var d1 := Updated(d, Placeholder(id)).0;
    PlaceholderIsPaused(d, id);
    assert NewRow(d1.sched, id, Placeholder(id).tasks, 0, 0);
    ThreeSteps(d, a, b, c);
    IssuesKeep(d1, {id});
    var d2 := WithIssues(d1, {id});
    IssuesRows(d1, {id});
    IssuesRows(d2, {});
    var s := WithIssues(d2, {}).sched;
    assert Registered(s, 0) && s.heap[0].configId == id && s.heap[0].pauses && !s.heap[0].paused;
  }

  lemma ThreeSteps(d: Daemon, a: DaemonEvent, b: DaemonEvent, c: DaemonEvent)
    requires LegalStep(d, a) && LegalStep(DaemonStep(d, a), b) && LegalStep(DaemonStep(DaemonStep(d, a), b), c)
    ensures LegalRun(d, [a, b, c]) && DaemonRun(d, [a, b, c]) == DaemonStep(DaemonStep(DaemonStep(d, a), b), c)
  {
    hide LegalStep, DaemonStep;
    var d1 := DaemonStep(d, a);
    var d2 := DaemonStep(d1, b);
    assert [a, b, c][1..] == [b, c] && [b, c][1..] == [c] && [c][1..] == [];
    assert LegalRun(d2, [c]) && DaemonRun(d2, [c]) == DaemonStep(d2, c);
    assert LegalRun(d1, [b, c]) && DaemonRun(d1, [b, c]) == DaemonRun(d2, [c]);
  }

  // ----- monitored devices and their tasks -----

  /**
   Deleting a device takes the tasks of another device that has some exactly when the cascade reaches it, and leaves
   that device monitored.
   */
  lemma DeleteStrips(d: Daemon, deviceId: string, other: string)
    requires HasTasks(d.sched, other)
    ensures !HasTasks(Deleted(d, deviceId).sched, other) <==> Reaches(d.sched, deviceId, other)
    ensures other in d.devices && other != deviceId ==> other in Deleted(d, deviceId).devices
  {
    RemovalStrips(d.sched, deviceId, other);
  }

  /** Updating a device does the same when the device was monitored already, and nothing else does. */
  lemma ConfigureStrips(d: Daemon, cfg: Config, other: string)
    requires Agree(d) && LegalStep(d, Configure(cfg)) && HasTasks(d.sched, other) && other != cfg.configId
    ensures !HasTasks(Updated(d, cfg).0.sched, other)
            <==> cfg.configId in d.devices && Reaches(d.sched, cfg.configId, other)
    ensures other in d.devices ==> other in Updated(d, cfg).0.devices
  {
    hide Valid, Agree, Reaches, Updated;
    var s, s' := BeforeUpdate(d, cfg.configId), Updated(d, cfg).0.sched;
    UpdateKeeps(d, cfg);
    UpdateOldRows(d, cfg);
    UpdatedFields(d, cfg);
    SameTasks(s, s', cfg.configId, other);
    RemovalStrips(d.sched, cfg.configId, other);
  }

  lemma SameTasks(s: Sched, s': Sched, c: string, other: string)
    requires |s.heap| <= |s'.heap| && other != c
    requires forall i: nat :: i < |s.heap| ==> (Registered(s', i) <==> Registered(s, i)) && s'.heap[i] == s.heap[i]
    requires forall i: nat :: |s.heap| <= i < |s'.heap| && Registered(s', i) ==> s'.heap[i].configId == c
    ensures HasTasks(s', other) <==> HasTasks(s, other)
  {
    if HasTasks(s', other) {
      var i: nat :| Registered(s', i) && s'.heap[i].configId == other;
      assert i < |s.heap| && Registered(s, i);
    }
    if HasTasks(s, other) {
      var i: nat :| Registered(s, i) && s.heap[i].configId == other;
      assert Registered(s', i);
    }
  }

  /** A purge takes the tasks of a device it keeps exactly when a device it drops reaches it. */
  lemma PurgeStrips(d: Daemon, updated: set<string>, other: string)
    requires HasTasks(d.sched, other)
    ensures !HasTasks(Purged(d, updated).sched, other)
            <==> exists c :: c in d.devices - updated && Reaches(d.sched, c, other)
    ensures other in d.devices * updated ==> other in Purged(d, updated).devices
  {
    hide Reaches;
    var gone, s, s' := DoomedFrom(d.sched, d.devices - updated), d.sched, Purged(d, updated).sched;
    forall i: nat | i < |s.heap| ensures Registered(s', i) <==> Registered(s, i) && i !in gone {
    }
    var i: nat :| Registered(s, i) && s.heap[i].configId == other;
    assert i in gone <==> exists c :: c in d.devices - updated && Reaches(s, c, other);
  }

  /**
   The end of a task's run takes all registered tasks of a device that has some exactly when the task completes and its
   config reaches the device, which it does when it is the device's own; every device stays monitored.
   */
  lemma FinishStrips(d: Daemon, i: nat, failed: bool, completed: bool, other: string)
    requires i in d.sched.running && i < |d.sched.heap| && HasTasks(d.sched, other)
    ensures var d', c := DaemonStep(d, Reactor(Finish(i, failed, completed))), d.sched.heap[i].configId;
            && d'.devices == d.devices
            && (!HasTasks(d'.sched, other) <==> completed && Reaches(d.sched, c, other))
            && (c == other ==> Reaches(d.sched, c, other))
  {
    hide Reaches, RunEnds;
    var s, c := d.sched, d.sched.heap[i].configId;
    EndKeepsTasks(s, i, failed, completed, other);
    EndKeepsReach(s, i, failed, completed, c, other);
    RemovalStrips(RunEnds(s, i, failed, completed), c, other);
    ReachesSelf(s, c);
  }

  // ----- a run in which a monitored device loses its tasks -----

  function Single(id: string, childIds: seq<string>): Config {
    Config(id, [TaskSpec(id, childIds, "before", false)])
  }

  lemma SingleAdded(d: Daemon, cfg: Config)
    requires Agree(d) && LegalStep(d, Configure(cfg)) && |cfg.tasks| == 1
    ensures var s', n := Updated(d, cfg).0.sched, |d.sched.heap|;
            && |s'.heap| == n + 1 && Registered(s', n)
            && s'.heap[n].configId == cfg.configId && s'.heap[n].childIds == cfg.tasks[0].childIds
            && s'.heap[n].name == cfg.tasks[0].name
  {
    hide Valid, Agree, Updated;
    UpdateKeeps(d, cfg);
    assert NewRow(Updated(d, cfg).0.sched, cfg.configId, cfg.tasks, |d.sched.heap|, |d.sched.heap|);
  }

  lemma FirstDevice(b: string) returns (d: Daemon)
    ensures LegalStep(NewDaemon({}), Configure(Single(b, [])))
            && d == DaemonStep(NewDaemon({}), Configure(Single(b, [])))
    ensures Agree(d) && d.devices == {b} && d.reserved == {} && |d.sched.heap| == 1
    ensures Registered(d.sched, 0) && d.sched.heap[0].configId == b && d.sched.heap[0].name == b
  {
    var d0, cfg := NewDaemon({}), Single(b, []);
    SingleAdded(d0, cfg);
    UpdateKeeps(d0, cfg);
    d := Updated(d0, cfg).0;
  }

  lemma SecondDevice(d: Daemon, a: string, b: string) returns (d': Daemon)
    requires Agree(d) && a != b && d.devices == {b} && d.reserved == {} && |d.sched.heap| == 1
    requires Registered(d.sched, 0) && d.sched.heap[0].configId == b && d.sched.heap[0].name == b
    ensures LegalStep(d, Configure(Single(a, [b]))) && d' == DaemonStep(d, Configure(Single(a, [b])))
    ensures Agree(d') && d'.devices == {a, b} && d'.reserved == {}
    ensures HasTasks(d'.sched, b) && Reaches(d'.sched, a, b) && LegalStep(d', Configure(Single(a, [b])))
  {
    hide Valid, Agree, HasTasks, Reaches;
    var cfg := Single(a, [b]);
    assert FreshNames(d.sched, cfg);
    SingleAdded(d, cfg);
    UpdateKeeps(d, cfg);
    UpdateOldRows(d, cfg);
    StaysUnknown(d, a);
    d' := Updated(d, cfg).0;
    hide Updated;
    UpdatedFields(d, cfg);
    ParentReaches(d'.sched, a, b);
    assert FreshNames(d'.sched, cfg);
  }

  lemma ParentReaches(s: Sched, a: string, b: string)
    requires |s.heap| == 2 && Registered(s, 0) && Registered(s, 1)
    requires s.heap[0].configId == b && s.heap[1].configId == a && b in s.heap[1].childIds
    ensures HasTasks(s, b) && Reaches(s, a, b)
  {
    var p := [a, b];
    assert Edge(s, a, b);
    assert IsPath(s, p) && p[0] == a && p[|p| - 1] == b;
  }

  /** Two devices, the second naming the first as its child: the daemon the following runs start from. */
  lemma ParentAndChild(a: string, b: string) returns (d: Daemon)
    requires a != b
    ensures LegalRun(NewDaemon({}), [Configure(Single(b, [])), Configure(Single(a, [b]))])
    ensures d == DaemonRun(NewDaemon({}), [Configure(Single(b, [])), Configure(Single(a, [b]))])
    ensures Agree(d) && d.devices == {a, b} && HasTasks(d.sched, b) && Reaches(d.sched, a, b)
    ensures LegalStep(d, Configure(Single(a, [b])))
  {
    hide Agree, HasTasks, Reaches, LegalStep, DaemonStep;
    var e, f := Configure(Single(b, [])), Configure(Single(a, [b]));
    var d1 := FirstDevice(b);
    d := SecondDevice(d1, a, b);
    assert [e, f][1..] == [f];
    OneStepRun(d1, f);
  }

  lemma OneStepRun(d: Daemon, e: DaemonEvent)
    requires LegalStep(d, e)
    ensures LegalRun(d, [e]) && DaemonRun(d, [e]) == DaemonStep(d, e)
  {
    hide LegalStep, DaemonStep;
    assert [e][1..] == [] && LegalRun(DaemonStep(d, e), []);
    assert DaemonRun(DaemonStep(d, e), []) == DaemonStep(d, e);
  }

  lemma StaysUnknown(d: Daemon, a: string)
    requires a !in d.devices
    ensures BeforeUpdate(d, a) == d.sched
  {
  }

  /**
   Such a run: the first device is monitored without a task, after the second was deleted and after it was
   updated.
   */
  lemma MonitoredWithoutTasks(a: string, b: string)
    requires a != b
    ensures var es := [Configure(Single(b, [])), Configure(Single(a, [b])), Delete(a)];
            && LegalRun(NewDaemon({}), es)
            && b in DaemonRun(NewDaemon({}), es).devices && !HasTasks(DaemonRun(NewDaemon({}), es).sched, b)
    ensures var es := [Configure(Single(b, [])), Configure(Single(a, [b])), Configure(Single(a, [b]))];
            && LegalRun(NewDaemon({}), es)
            && b in DaemonRun(NewDaemon({}), es).devices && !HasTasks(DaemonRun(NewDaemon({}), es).sched, b)
  {
    hide Agree, HasTasks, Reaches, LegalStep, DaemonStep;
    var d := ParentAndChild(a, b);
    var e, f := Configure(Single(b, [])), Configure(Single(a, [b]));
    OneMoreStep(NewDaemon({}), e, f, Delete(a));
    OneMoreStep(NewDaemon({}), e, f, f);
    Stripped(d, a, b);
  }

  lemma Stripped(d: Daemon, a: string, b: string)
    requires Agree(d) && d.devices == {a, b} && a != b && HasTasks(d.sched, b) && Reaches(d.sched, a, b)
    requires LegalStep(d, Configure(Single(a, [b])))
    ensures LegalStep(d, Delete(a))
    ensures var d' := DaemonStep(d, Delete(a)); b in d'.devices && !HasTasks(d'.sched, b)
    ensures var d' := DaemonStep(d, Configure(Single(a, [b]))); b in d'.devices && !HasTasks(d'.sched, b)
  {
    DeleteStrips(d, a, b);
    ConfigureStrips(d, Single(a, [b]), b);
  }

  lemma OneMoreStep(d: Daemon, a: DaemonEvent, b: DaemonEvent, c: DaemonEvent)
    requires LegalRun(d, [a, b])
    ensures LegalRun(d, [a, b, c]) <==> LegalStep(DaemonRun(d, [a, b]), c)
    ensures LegalRun(d, [a, b, c]) ==> DaemonRun(d, [a, b, c]) == DaemonStep(DaemonRun(d, [a, b]), c)
  {
    hide LegalStep, DaemonStep;
    var d1 := DaemonStep(d, a);
    var d2 := DaemonStep(d1, b);
    assert [a, b, c][1..] == [b, c] && [b, c][1..] == [c] && [c][1..] == [];
    assert [a, b][1..] == [b] && [b][1..] == [];
    assert DaemonRun(d1, [b]) == DaemonRun(d2, []) == d2;
    assert DaemonRun(d2, [c]) == DaemonStep(d2, c) && DaemonRun(d1, [b, c]) == DaemonRun(d2, [c]);
    assert LegalRun(d1, [b, c]) <==> LegalStep(d1, b) && LegalRun(d2, [c]);
    assert LegalRun(d2, [c]) <==> LegalStep(d2, c);
    assert LegalRun(d1, [b]);
  }

  // ----- a run in which a device task completes -----

  lemma FirstAdded(id: string)
    ensures var d := Updated(NewDaemon({}), Single(id, [])).0;
            d.devices == {id} && d.sched == Step(INITIAL, AddTask(id, id, [], "before", false))
  {
    var cfg := Single(id, []);
    assert cfg.tasks[1..] == [];
    var t := NewTask(id, id, [], "before", false);
    assert TaskOf(id, cfg.tasks[0]) == t && t.name !in INITIAL.tasks;
    var s := Add(INITIAL, t).value;
    assert AddAll(INITIAL, id, cfg.tasks) == AddAll(s, id, []) == (s, true);
  }

  /** Monitored, started and running: the daemon in which the only task of its only device runs. */
  lemma OnlyTaskRuns(id: string) returns (d: Daemon)
    ensures var es := [Configure(Single(id, [])), Reactor(FireStart(0)), Reactor(RunNext)];
            LegalRun(NewDaemon({}), es) && d == DaemonRun(NewDaemon({}), es)
    ensures d.devices == {id} && 0 in d.sched.running && |d.sched.heap| == 1 && d.sched.heap[0].configId == id
    ensures HasTasks(d.sched, id)
  {
    var a, b, c := Configure(Single(id, [])), Reactor(FireStart(0)), Reactor(RunNext);
    FreshDaemon(id);
    FirstAdded(id);
    var s := Started(id, id);
    Begun(s, id);
    hide Updated, Step, HasTasks;
    var d0, d1 := NewDaemon({}), Updated(NewDaemon({}), Single(id, [])).0;
    ThreeSteps(d0, a, b, c);
    d := DaemonStep(DaemonStep(d1, b), c);
  }

  lemma Begun(s: Sched, id: string)
    requires |s.heap| == 1 && s.heap[0].name == id && s.heap[0].configId == id
    requires s.tasks == map[id := 0] && s.queue == [0] && s.running == {} && s.maxRunning == Some(1)
    ensures var s' := Step(s, RunNext);
            0 in s'.running && |s'.heap| == 1 && s'.heap[0].configId == id && HasTasks(s', id)
  {
    assert Registered(Step(s, RunNext), 0);
  }

  /** The device of a task that completes is monitored without a task. */
  lemma CompletedWithoutTasks(id: string)
    ensures var start := [Configure(Single(id, [])), Reactor(FireStart(0)), Reactor(RunNext)];
            var es := start + [Reactor(Finish(0, false, true))];
            && LegalRun(NewDaemon({}), es)
            && id in DaemonRun(NewDaemon({}), es).devices && !HasTasks(DaemonRun(NewDaemon({}), es).sched, id)
  {
    hide HasTasks, Reaches, LegalStep, DaemonStep;
    var a, b, c := Configure(Single(id, [])), Reactor(FireStart(0)), Reactor(RunNext);
    var f := Reactor(Finish(0, false, true));
    assert [a, b, c] + [f] == [a, b, c, f];
    var d := OnlyTaskRuns(id);
    FinishStrips(d, 0, false, true, id);
    FinishIsLegal(d);
    FourthStep(NewDaemon({}), a, b, c, f);
  }

  lemma FinishIsLegal(d: Daemon)
    ensures LegalStep(d, Reactor(Finish(0, false, true)))
  {
  }

  lemma FourthStep(d: Daemon, a: DaemonEvent, b: DaemonEvent, c: DaemonEvent, f: DaemonEvent)
    requires LegalRun(d, [a, b, c]) && LegalStep(DaemonRun(d, [a, b, c]), f)
    ensures LegalRun(d, [a, b, c, f]) && DaemonRun(d, [a, b, c, f]) == DaemonStep(DaemonRun(d, [a, b, c]), f)
  {
    hide LegalStep, DaemonStep;
    var d1 := DaemonStep(d, a);
    assert [a, b, c][1..] == [b, c] && [a, b, c, f][1..] == [b, c, f];
    OneMoreStep(d1, b, c, f);
  }
}
