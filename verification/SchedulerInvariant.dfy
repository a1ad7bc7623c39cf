/**
 What every reactor event keeps, and what follows over whole runs: dictionaries
 that agree, at most one outstanding submission a task, no lost task, and old
 and new generations of a configuration that never run at the same time.
 */
module SchedulerInvariant {
  import opened Wrappers
  import opened SchedulerState

  ghost predicate KeysAgree(s: Sched) {
    && s.loopingCalls == s.tasks && s.taskStats == s.tasks
    && (forall n :: n in s.tasks ==> s.tasks[n] < |s.heap| && s.heap[s.tasks[n]].name == n)
    && (forall i :: 0 <= i < |s.heap| ==> s.heap[i].name in s.callbacks)
  }

  ghost predicate SetsOk(s: Sched) {
    && (forall i :: i in s.cleanup ==> i < |s.heap|)
    && (forall i :: i in s.cleaning ==> i in s.cleanup)
    && (forall i :: i in s.starts ==> i < |s.heap|)
    && (forall i :: i in s.running ==> i < |s.heap|)
    && (forall i :: i in s.queue ==> i < |s.heap|)
    && (forall j, k :: 0 <= j < k < |s.queue| ==> s.queue[j] != s.queue[k])
  }

  /** The state attribute says where the task is. */
  ghost predicate StateOk(s: Sched, i: nat)
    requires i < |s.heap|
  {
    var t := s.heap[i];
    && (t.state.Queued? <==> i in s.queue)
    && (t.state.Running? || t.state.Own? <==> i in s.running)
    && (Registered(s, i) ==> !(t.state.Cleaning? || t.state.Completed? || t.state.Shutdown?))
    && (i in s.cleaning <==> i in s.cleanup && (t.state.Cleaning? || t.state.Shutdown?))
    && (Gone(s, i) ==> t.state.Cleaning? || t.state.Completed? || t.state.Shutdown?)
  }

  ghost predicate LifeOk(s: Sched, i: nat)
    requires i < |s.heap|
  {
    var t := s.heap[i];
    && (t.removedAt.None? <==> Registered(s, i))
    && (t.observed <==> Registered(s, i))
    && (t.looping <==> Registered(s, i) && t.started)
    && (t.removedAt.Some? ==> i < t.removedAt.value <= |s.heap|)
    && (i in s.cleanup ==> !Registered(s, i))
    && (Registered(s, i) && !t.started ==> i in s.starts)
  }

  ghost predicate CountersOk(s: Sched, i: nat)
    requires i < |s.heap|
  {
    var c := s.heap[i].counters;
    && c.ticks == c.submissions + c.parked + c.missedRuns
    && c.submissions == c.totalRuns + (if i in s.queue then 1 else 0)
    && c.totalRuns == c.finished + (if i in s.running then 1 else 0)
    && c.failedRuns <= c.finished
    && (c.submissions > 0 ==> s.heap[i].started)
  }

  ghost predicate Rows(s: Sched) {
    forall i: nat :: i < |s.heap| ==> StateOk(s, i) && LifeOk(s, i) && CountersOk(s, i)
  }

  ghost predicate NamesOk(s: Sched) {
    forall i, j :: 0 <= i < |s.heap| && 0 <= j < |s.heap| && s.heap[i].name == s.heap[j].name
                   ==> s.heap[i].configId == s.heap[j].configId
  }

  /** t was removed before u was added, under the same configId. */
  ghost predicate OlderGeneration(s: Sched, t: nat, u: nat) {
    && t < |s.heap| && u < |s.heap|
    && s.heap[t].configId == s.heap[u].configId
    && s.heap[t].removedAt.Some? && s.heap[t].removedAt.value <= u
  }

  /** Once a task's loop was started, every older generation is through its cleanup. */
  ghost predicate Generations(s: Sched) {
    forall t: nat, u: nat :: OlderGeneration(s, t, u) && s.heap[u].started ==> t !in s.cleanup
  }

  ghost predicate Valid(s: Sched) {
    KeysAgree(s) && SetsOk(s) && Rows(s) && NamesOk(s) && Generations(s)
  }

  // ----- each event keeps the invariant -----

  /** A task object nothing happened to yet. */
  predicate IsNew(t: Task) {
    t == NewTask(t.name, t.configId, t.childIds, t.stopPhase, t.pauses)
  }

  ghost predicate FreshName(s: Sched, t: Task) {
    forall i :: 0 <= i < |s.heap| && s.heap[i].name == t.name ==> s.heap[i].configId == t.configId
  }

  lemma EnrolledKeeps(s: Sched, t: Task)
    requires Valid(s) && IsNew(t) && FreshName(s, t) && t.name !in s.tasks
    ensures Valid(Enrolled(s, t))
  {
    var s' := Enrolled(s, t);
    forall i: nat | i < |s'.heap| ensures StateOk(s', i) && LifeOk(s', i) && CountersOk(s', i) {
      if i < |s.heap| {
        assert s'.heap[i] == s.heap[i];
        assert StateOk(s, i) && LifeOk(s, i) && CountersOk(s, i);
        assert Registered(s', i) <==> Registered(s, i);
      }
    }
    forall t: nat, u: nat | OlderGeneration(s', t, u) && s'.heap[u].started ensures t !in s'.cleanup {
      assert u < |s.heap| && s'.heap[u] == s.heap[u];
      assert t < |s.heap| && s'.heap[t] == s.heap[t];
      assert OlderGeneration(s, t, u);
    }
  }

  lemma AddKeeps(s: Sched, t: Task)
    requires Valid(s) && IsNew(t) && FreshName(s, t)
    ensures Add(s, t).Ok? <==> t.name !in s.tasks
    ensures Add(s, t).Ok? ==> Valid(Add(s, t).value)
  {
    hide Valid, Enrolled, SetPaused;
    if t.name !in s.tasks {
      EnrolledKeeps(s, t);
      if t.pauses { PauseKeeps(Enrolled(s, t), t.configId, true); }
    }
  }

  lemma CallKeepsRow(s: Sched, i: nat, k: nat)
    requires Valid(s) && i < |s.heap| && s.heap[i].looping && k < |s.heap|
    ensures var s' := Call(s, i); StateOk(s', k) && LifeOk(s', k) && CountersOk(s', k)
  {
    var s' := Call(s, i);
    assert StateOk(s, i) && LifeOk(s, i) && CountersOk(s, i);
    assert StateOk(s, k) && LifeOk(s, k) && CountersOk(s, k);
    assert Registered(s', k) <==> Registered(s, k);
    assert k != i ==> (k in s'.queue <==> k in s.queue);
  }

  lemma CallKeeps(s: Sched, i: nat)
    requires Valid(s) && i < |s.heap| && s.heap[i].looping
    ensures Valid(Call(s, i))
  {
    var s' := Call(s, i);
    assert StateOk(s, i) && LifeOk(s, i);
    assert s'.queue != s.queue ==> i !in s.queue;
    hide StateOk, LifeOk, CountersOk;
    forall k: nat | k < |s'.heap| ensures StateOk(s', k) && LifeOk(s', k) && CountersOk(s', k) {
      CallKeepsRow(s, i, k);
    }
    forall t: nat, u: nat | OlderGeneration(s', t, u) && s'.heap[u].started ensures t !in s'.cleanup {
      assert OlderGeneration(s, t, u);
    }
  }

  /** A loop starts only when nothing under its configId awaits cleanup, and only a registered task's loop. */
  lemma StartIsClean(s: Sched, p: nat, i: nat)
    requires Valid(s) && i < |s.heap| && !s.heap[i].looping && StartTask(s, p).heap[i].looping
    ensures Registered(s, i) && s.heap[i].removedAt.None?
    ensures forall t :: t in s.cleanup ==> s.heap[t].configId != s.heap[i].configId
  {
    assert LifeOk(s, i);
  }

  lemma StartKeeps(s: Sched, p: nat)
    requires Valid(s)
    ensures Valid(StartTask(s, p))
  {
    if p in s.starts {
      var n := s.heap[p].name;
      var fired := s.(starts := s.starts - multiset{p});
      if n !in s.tasks || s.heap[s.tasks[n]].looping {
        assert StateOk(s, p) && LifeOk(s, p);
        forall k: nat | k < |s.heap| ensures StateOk(fired, k) && LifeOk(fired, k) && CountersOk(fired, k) {
          assert StateOk(s, k) && LifeOk(s, k) && CountersOk(s, k);
          assert Registered(fired, k) <==> Registered(s, k);
        }
        forall t: nat, u: nat | OlderGeneration(fired, t, u) && fired.heap[u].started ensures t !in fired.cleanup {
          assert OlderGeneration(s, t, u);
        }
      } else if !AwaitsCleanup(s, s.heap[p].configId) {
        LoopStartKeeps(s, p, s.tasks[n]);
        CallKeeps(fired.(heap := s.heap[s.tasks[n] := s.heap[s.tasks[n]].(looping := true, started := true)]),
            s.tasks[n]);
      }
    }
  }

  lemma LoopStartKeeps(s: Sched, p: nat, i: nat)
    requires Valid(s) && p in s.starts && i < |s.heap|
    requires s.heap[p].name in s.tasks && s.tasks[s.heap[p].name] == i && !s.heap[i].looping
    requires !AwaitsCleanup(s, s.heap[p].configId)
    ensures Valid(s.(starts := s.starts - multiset{p},
            heap := s.heap[i := s.heap[i].(looping := true, started := true)]))
  {
    var s' := s.(starts := s.starts - multiset{p}, heap := s.heap[i := s.heap[i].(looping := true, started := true)]);
    assert LifeOk(s, i) && LifeOk(s, p);
    forall k: nat | k < |s.heap| ensures StateOk(s', k) && LifeOk(s', k) && CountersOk(s', k) {
      assert StateOk(s, k) && LifeOk(s, k) && CountersOk(s, k);
      assert Registered(s', k) <==> Registered(s, k);
    }
    forall t: nat, u: nat | OlderGeneration(s', t, u) && s'.heap[u].started ensures t !in s'.cleanup {
      assert OlderGeneration(s, t, u);
      assert u == i ==> s.heap[t].configId == s.heap[p].configId;
    }
  }

  lemma RunHeadKeeps(s: Sched)
    requires Valid(s)
    ensures Valid(RunHead(s))
    ensures s.maxRunning.Some? && |s.running| <= s.maxRunning.value ==> |RunHead(s).running| <= s.maxRunning.value
  {
    var s' := RunHead(s);
    if s.queue != [] {
      var i := s.queue[0];
      assert i in s.queue;
      assert StateOk(s, i) && CountersOk(s, i);
      if s' != s {
        assert forall k: nat :: k in s.queue <==> k == i || k in s'.queue;
        forall k: nat | k < |s.heap| ensures StateOk(s', k) && LifeOk(s', k) && CountersOk(s', k) {
          RunHeadKeepsRow(s, k);
        }
        hide StateOk, LifeOk, CountersOk;
        forall t: nat, u: nat | OlderGeneration(s', t, u) && s'.heap[u].started ensures t !in s'.cleanup {
          assert OlderGeneration(s, t, u);
        }
      }
    }
  }

  lemma RunHeadKeepsRow(s: Sched, k: nat)
    requires Valid(s) && k < |s.heap|
    ensures StateOk(RunHead(s), k) && LifeOk(RunHead(s), k) && CountersOk(RunHead(s), k)
  {
    var s' := RunHead(s);
    assert StateOk(s, k) && LifeOk(s, k) && CountersOk(s, k);
    if s' != s {
      var i := s.queue[0];
      assert i in s.queue && StateOk(s, i) && CountersOk(s, i);
      assert s.queue == [i] + s'.queue;
      assert forall j :: j in s.queue <==> j == i || j in s'.queue;
      assert i !in s'.queue;
      assert Registered(s', k) <==> Registered(s, k);
    }
  }

  lemma OwnStateKeepsRow(s: Sched, i: nat, tag: string, k: nat)
    requires Valid(s) && k < |s.heap|
    ensures var s' := SetOwnState(s, i, tag); StateOk(s', k) && LifeOk(s', k) && CountersOk(s', k)
  {
    var s' := SetOwnState(s, i, tag);
    assert StateOk(s, k) && LifeOk(s, k) && CountersOk(s, k);
    assert Registered(s', k) <==> Registered(s, k);
  }

  lemma OwnStateKeeps(s: Sched, i: nat, tag: string)
    requires Valid(s)
    ensures Valid(SetOwnState(s, i, tag))
  {
    hide StateOk, LifeOk, CountersOk;
    var s' := SetOwnState(s, i, tag);
    forall k: nat | k < |s.heap| ensures StateOk(s', k) && LifeOk(s', k) && CountersOk(s', k) {
      OwnStateKeepsRow(s, i, tag, k);
    }
    forall t: nat, u: nat | OlderGeneration(s', t, u) && s'.heap[u].started ensures t !in s'.cleanup {
      assert OlderGeneration(s, t, u);
    }
  }

  /** Valid except that the tasks in d, about to be retired, may be COMPLETED. */
  ghost predicate NearlyValid(s: Sched, d: set<nat>) {
    && KeysAgree(s) && SetsOk(s) && NamesOk(s) && Generations(s)
    && (forall i :: i in d ==> Registered(s, i))
    && (forall i: nat :: i < |s.heap| ==> LifeOk(s, i) && CountersOk(s, i))
    && (forall i: nat :: i < |s.heap| ==> StateOk(s, i) || (i in d && s.heap[i].state.Completed? && !Outstanding(s, i)))
  }

  lemma RetireKeeps(s: Sched, d: set<nat>)
    requires NearlyValid(s, d)
    ensures Valid(Retire(s, d))
  {
    var s' := Retire(s, d);
    forall i: nat | i < |s.heap| ensures StateOk(s', i) && LifeOk(s', i) && CountersOk(s', i) {
      assert LifeOk(s, i) && CountersOk(s, i);
      assert StateOk(s, i) || (i in d && s.heap[i].state.Completed?);
      assert Registered(s', i) <==> Registered(s, i) && i !in d;
    }
    forall t: nat, u: nat | OlderGeneration(s', t, u) && s'.heap[u].started ensures t !in s'.cleanup {
      assert t !in d;
      assert OlderGeneration(s, t, u);
    }
  }

  lemma RunEndsKeepsRow(s: Sched, i: nat, failed: bool, completed: bool, k: nat)
    requires Valid(s) && i in s.running && k < |s.heap|
    ensures var s' := RunEnds(s, i, failed, completed);
            && LifeOk(s', k) && CountersOk(s', k) && (Registered(s', k) <==> Registered(s, k))
            && (k != i || !completed || !Registered(s, i) ==> StateOk(s', k))
  {
    var s' := RunEnds(s, i, failed, completed);
    assert StateOk(s, i) && LifeOk(s, i) && CountersOk(s, i);
    assert StateOk(s, k) && LifeOk(s, k) && CountersOk(s, k);
    assert Registered(s', k) <==> Registered(s, k);
  }

  lemma RunEndsKeeps(s: Sched, i: nat, failed: bool, completed: bool)
    requires Valid(s) && i in s.running
    ensures !completed || !Registered(s, i) ==> Valid(RunEnds(s, i, failed, completed))
    ensures forall d: set<nat> :: completed && i in d && (forall k :: k in d ==> Registered(s, k))
                                  ==> NearlyValid(RunEnds(s, i, failed, completed), d)
  {
    var s' := RunEnds(s, i, failed, completed);
    assert StateOk(s, i);
    assert s'.heap[i].state.Completed? <==> completed;
    hide StateOk, LifeOk, CountersOk, Registered;
    forall k: nat | k < |s.heap|
      ensures LifeOk(s', k) && CountersOk(s', k) && (Registered(s', k) <==> Registered(s, k))
      ensures k != i || !completed || !Registered(s, i) ==> StateOk(s', k)
    {
      RunEndsKeepsRow(s, i, failed, completed, k);
    }
    assert i !in s'.queue && i !in s'.running by { RunEndsIsOut(s, i, failed, completed); }
    forall t: nat, u: nat | OlderGeneration(s', t, u) && s'.heap[u].started ensures t !in s'.cleanup {
      assert OlderGeneration(s, t, u);
    }
  }

  lemma RunEndsIsOut(s: Sched, i: nat, failed: bool, completed: bool)
    requires Valid(s) && i in s.running
    ensures !Outstanding(RunEnds(s, i, failed, completed), i)
  {
    assert StateOk(s, i);
  }

  lemma ReachesSelf(s: Sched, c: string)
    ensures Reaches(s, c, c)
  {
    assert IsPath(s, [c]) && [c][0] == c;
  }

  lemma RemoveKeeps(s: Sched, c: string)
    requires Valid(s)
    ensures Valid(RemoveConfig(s, c))
  {
    RetireKeeps(s, Doomed(s, c));
  }

  lemma FinishKeeps(s: Sched, i: nat, failed: bool, completed: bool)
    requires Valid(s)
    ensures Valid(FinishRun(s, i, failed, completed))
  {
    if i in s.running {
      RunEndsKeeps(s, i, failed, completed);
      if completed {
        var s' := RunEnds(s, i, failed, completed);
        var d := Doomed(s', s.heap[i].configId);
        ReachesSelf(s', s.heap[i].configId);
        assert forall k: nat :: k < |s.heap| ==> (Registered(s', k) <==> Registered(s, k));
        RetireKeeps(s', d);
      }
    }
  }

  lemma PauseKeepsRow(s: Sched, c: string, paused: bool, k: nat)
    requires Valid(s) && k < |s.heap|
    ensures var s' := SetPaused(s, c, paused); StateOk(s', k) && LifeOk(s', k) && CountersOk(s', k)
  {
    var s' := SetPaused(s, c, paused);
    assert StateOk(s, k) && LifeOk(s, k) && CountersOk(s, k);
    assert Registered(s', k) <==> Registered(s, k);
  }

  lemma PauseKeeps(s: Sched, c: string, paused: bool)
    requires Valid(s)
    ensures Valid(SetPaused(s, c, paused))
  {
    hide StateOk, LifeOk, CountersOk;
    var s' := SetPaused(s, c, paused);
    forall k: nat | k < |s.heap| ensures StateOk(s', k) && LifeOk(s', k) && CountersOk(s', k) {
      PauseKeepsRow(s, c, paused, k);
    }
    forall t: nat, u: nat | OlderGeneration(s', t, u) && s'.heap[u].started ensures t !in s'.cleanup {
      assert OlderGeneration(s, t, u);
    }
  }

  lemma SweepKeepsRow(s: Sched, k: nat)
    requires Valid(s) && k < |s.heap|
    ensures StateOk(SweepCleanup(s), k) && LifeOk(SweepCleanup(s), k) && CountersOk(SweepCleanup(s), k)
    ensures k in s.cleanup && !Outstanding(s, k) ==> k in SweepCleanup(s).cleaning
  {
    var s' := SweepCleanup(s);
    assert StateOk(s, k) && LifeOk(s, k) && CountersOk(s, k);
    assert Registered(s', k) <==> Registered(s, k);
  }

  /** The sweep takes up every removed task that has no run outstanding. */
  lemma SweepKeeps(s: Sched)
    requires Valid(s)
    ensures Valid(SweepCleanup(s))
    ensures forall i :: i in s.cleanup && !Outstanding(s, i) ==> i in SweepCleanup(s).cleaning
  {
    hide StateOk, LifeOk, CountersOk;
    var s' := SweepCleanup(s);
    forall k: nat | k < |s.heap|
      ensures StateOk(s', k) && LifeOk(s', k) && CountersOk(s', k)
      ensures k in s.cleanup && !Outstanding(s, k) ==> k in s'.cleaning
    {
      SweepKeepsRow(s, k);
    }
    forall t: nat, u: nat | OlderGeneration(s', t, u) && s'.heap[u].started ensures t !in s'.cleanup {
      assert OlderGeneration(s, t, u);
    }
  }

  lemma EndCleanupKeepsRow(s: Sched, i: nat, completed: bool, k: nat)
    requires Valid(s) && k < |s.heap|
    ensures var s' := EndCleanup(s, i, completed); StateOk(s', k) && LifeOk(s', k) && CountersOk(s', k)
  {
    var s' := EndCleanup(s, i, completed);
    assert StateOk(s, k) && LifeOk(s, k) && CountersOk(s, k);
    assert Registered(s', k) <==> Registered(s, k);
  }

  lemma EndCleanupKeeps(s: Sched, i: nat, completed: bool)
    requires Valid(s)
    ensures Valid(EndCleanup(s, i, completed))
  {
    hide StateOk, LifeOk, CountersOk;
    var s' := EndCleanup(s, i, completed);
    forall k: nat | k < |s.heap| ensures StateOk(s', k) && LifeOk(s', k) && CountersOk(s', k) {
      EndCleanupKeepsRow(s, i, completed, k);
    }
    forall t: nat, u: nat | OlderGeneration(s', t, u) && s'.heap[u].started ensures t !in s'.cleanup {
      assert OlderGeneration(s, t, u);
    }
  }

  lemma StopKeeps(s: Sched, phase: string)
    requires Valid(s)
    ensures Valid(StopPhase(s, phase))
  {
    var s1 := s.(shuttingDown := true);
    FlagKeeps(s, s1);
    forall k: nat | k < |s.heap| ensures StateOk(s1, k) && LifeOk(s1, k) && CountersOk(s1, k) {}
    assert forall k: nat :: k < |s.heap| ==> (Registered(s1, k) <==> Registered(s, k));
    RetireKeeps(s1, Stopping(s, phase));
    SweepKeeps(Retire(s1, Stopping(s, phase)));
  }

  /** The invariant does not speak of the shutdown flag or the executor's size. */
  lemma FlagKeeps(s: Sched, s': Sched)
    requires Valid(s) && s' == s.(shuttingDown := s'.shuttingDown, maxRunning := s'.maxRunning)
    ensures Valid(s')
  {
    forall k: nat | k < |s.heap| ensures StateOk(s', k) && LifeOk(s', k) && CountersOk(s', k) {
      assert StateOk(s, k) && LifeOk(s, k) && CountersOk(s, k);
      assert Registered(s', k) <==> Registered(s, k);
    }
    forall t: nat, u: nat | OlderGeneration(s', t, u) && s'.heap[u].started ensures t !in s'.cleanup {
      assert OlderGeneration(s, t, u);
    }
  }

  lemma StepKeeps(s: Sched, e: Event)
    requires Valid(s) && OneConfigPerName(s, e)
    ensures Valid(Step(s, e))
  {
    hide Valid, Call, StartTask, RunHead, SetOwnState, FinishRun, RemoveConfig, SetPaused, SweepCleanup, EndCleanup,
        StopPhase;
    match e
    case AddTask(n, c, kids, phase, pauses) => AddKeeps(s, NewTask(n, c, kids, phase, pauses));
    case FireStart(p) => StartKeeps(s, p);
    case Tick(i) => if i < |s.heap| && s.heap[i].looping { CallKeeps(s, i); }
    case RunNext => RunHeadKeeps(s);
    case OwnState(i, tag) => OwnStateKeeps(s, i, tag);
    case Finish(i, failed, completed) => FinishKeeps(s, i, failed, completed);
    case Remove(c) => RemoveKeeps(s, c);
    case Pause(c) => PauseKeeps(s, c, true);
    case Resume(c) => PauseKeeps(s, c, false);
    case Sweep => SweepKeeps(s);
    case CleanupDone(i, completed) => EndCleanupKeeps(s, i, completed);
    case Stop(phase) => StopKeeps(s, phase);
    case SetMax(max) => FlagKeeps(s, Step(s, e));
  }

  // ----- over every run -----

  lemma {:induction false} RunKeeps(s: Sched, es: seq<Event>)
    requires Valid(s) && Legal(s, es)
    ensures Valid(Run(s, es))
    decreases |es|
  {
    if es != [] {
      StepKeeps(s, es[0]);
      RunKeeps(Step(s, es[0]), es[1..]);
    }
  }
}
