/** What each event does to whom: when a tick submits, who runs next, what a sweep and a shutdown phase take up. */
module SchedulerEffects {
  import opened Wrappers
  import opened SchedulerState
  import opened SchedulerInvariant

  /** Nothing but the row of i and the queue differs. */
  ghost predicate OnlyRow(s: Sched, s': Sched, i: nat) {
    && i < |s.heap| && |s'.heap| == |s.heap|
    && (forall k :: 0 <= k < |s.heap| && k != i ==> s'.heap[k] == s.heap[k])
    && s' == s.(heap := s'.heap, queue := s'.queue)
  }

  /** Parked at an earlier tick, and its config is still paused. */
  predicate StillParked(t: Task) {
    t.state.Paused? && t.paused
  }

  /**
   A tick of a running loop submits the task exactly when no run of it is outstanding and it is not paused; it parks it
   when none is outstanding and it was paused since its last run; and it counts a missed run in the other cases, when a
   run is outstanding or the task is still parked.
   */
  lemma TickSubmits(s: Sched, i: nat)
    requires Valid(s) && i < |s.heap| && s.heap[i].looping
    ensures OnlyRow(s, Step(s, Tick(i)), i)
    ensures Step(s, Tick(i)).queue == s.queue + [i] <==> !Outstanding(s, i) && !s.heap[i].paused
    ensures Step(s, Tick(i)).queue == s.queue <==> Outstanding(s, i) || s.heap[i].paused
    ensures var t, t' := s.heap[i], Step(s, Tick(i)).heap[i];
            var c, c', busy := t.counters, t'.counters, Outstanding(s, i);
            && t' == t.(state := if busy then t.state else if t.paused then Paused else Queued, counters := c')
            && c'.ticks == c.ticks + 1
            && c'.missedRuns == c.missedRuns + (if busy || StillParked(t) then 1 else 0)
            && c'.parked == c.parked + (if !busy && t.paused && !StillParked(t) then 1 else 0)
            && c'.submissions == c.submissions + (if !busy && !t.paused then 1 else 0)
  {
    assert StateOk(s, i) && LifeOk(s, i);
    assert |s.queue + [i]| == |s.queue| + 1;
  }

  /** A task that was parked is submitted at the first tick after its config was resumed. */
  lemma ResumedTaskRuns(s: Sched, c: string, i: nat)
    requires Valid(s) && Registered(s, i) && s.heap[i].configId == c && s.heap[i].looping && s.heap[i].state.Paused?
    ensures Step(Step(s, Resume(c)), Tick(i)).queue == s.queue + [i]
  {
    PauseKeeps(s, c, false);
    assert StateOk(s, i);
    TickSubmits(SetPaused(s, c, false), i);
  }

  /** A task whose config was paused is not submitted by its next tick. */
  lemma PausedTaskWaits(s: Sched, c: string, i: nat)
    requires Valid(s) && Registered(s, i) && s.heap[i].configId == c && s.heap[i].looping
    ensures Step(Step(s, Pause(c)), Tick(i)).queue == s.queue
  {
    PauseKeeps(s, c, true);
    TickSubmits(SetPaused(s, c, true), i);
  }

  /** The executor begins the oldest submission exactly when there is one and a run more is allowed. */
  lemma OldestRunsNext(s: Sched, max: Option<nat>)
    requires Valid(s)
    ensures var t := Step(s, SetMax(max));
            var s', free := Step(t, RunNext), max.None? || |s.running| < max.value;
            if s.queue == [] || !free then s' == s.(maxRunning := max)
            else
              var i := s.queue[0];
              && s.queue == [i] + s'.queue && s'.running == s.running + {i}
              && s'.heap[i] == s.heap[i].(state := Running,
                    counters := s.heap[i].counters.(totalRuns := s.heap[i].counters.totalRuns + 1))
              && OnlyRow(s.(queue := s'.queue, running := s'.running, maxRunning := max), s', i)
  {
    if s.queue != [] { assert s.queue[0] in s.queue; }
  }

  /** While it runs, a task sets its own state, and no event but the end of the run takes it from there. */
  lemma OwnStateIsSet(s: Sched, i: nat, tag: string)
    requires Valid(s) && i in s.running
    ensures var s' := Step(s, OwnState(i, tag));
            s'.heap[i] == s.heap[i].(state := Own(tag)) && OnlyRow(s, s', i) && s'.queue == s.queue
  {
  }

  /** A new task is registered under its name, with a delayed start to come; other rows keep all but the pause flag. */
  lemma AddEnters(s: Sched, t: Task)
    requires Valid(s) && IsNew(t) && t.name !in s.tasks
    ensures var s', n := Step(s, AddTask(t.name, t.configId, t.childIds, t.stopPhase, t.pauses)), |s.heap|;
            && |s'.heap| == n + 1 && s'.heap[n] == t.(paused := t.pauses)
            && s'.tasks == s.tasks[t.name := n] && s'.loopingCalls == s'.tasks && s'.taskStats == s'.tasks
            && s'.callbacks == s.callbacks + {t.name} && s'.starts == s.starts + multiset{n}
            && (forall i: nat :: i < n ==>
                  s'.heap[i] == if t.pauses && Registered(s, i) && s.heap[i].configId == t.configId
                                then s.heap[i].(paused := true) else s.heap[i])
            && s' == s.(heap := s'.heap, tasks := s'.tasks, loopingCalls := s'.loopingCalls,
                        taskStats := s'.taskStats, callbacks := s'.callbacks, starts := s'.starts)
  {
  }

  /** The end of a cleanup discards the task for good. */
  lemma CleanupEnds(s: Sched, i: nat, completed: bool)
    requires Valid(s) && i in s.cleaning
    ensures var s' := Step(s, CleanupDone(i, completed));
            && Gone(s', i) && i !in s'.cleanup && i !in s'.cleaning
            && s'.heap[i].state == (if completed then Completed else s.heap[i].state)
            && OnlyRow(s.(cleanup := s.cleanup - {i}, cleaning := s.cleaning - {i}), s', i)
  {
    assert LifeOk(s, i) && StateOk(s, i);
  }

  /**
   The end of a run of a registered task that does not complete leaves it idle, so that its next tick submits it again
   unless it is paused.
   */
  lemma FinishedTaskIsIdle(s: Sched, i: nat, failed: bool)
    requires Valid(s) && i in s.running && s.heap[i].looping
    ensures var s', c := Step(s, Finish(i, failed, false)), s.heap[i].counters;
            && s'.running == s.running - {i}
            && s'.heap[i] == s.heap[i].(state := Idle, counters :=
                  c.(finished := c.finished + 1, failedRuns := c.failedRuns + if failed then 1 else 0))
            && OnlyRow(s.(running := s'.running), s', i)
            && (Step(s', Tick(i)).queue == s.queue + [i] <==> !s.heap[i].paused)
  {
    FinishKeeps(s, i, failed, false);
    assert StateOk(s, i);
    TickSubmits(FinishRun(s, i, failed, false), i);
  }

  /** A sweep takes up exactly the removed tasks that have no run outstanding and are not being cleaned already. */
  lemma SweepTakesUp(s: Sched, i: nat)
    requires Valid(s) && i < |s.heap|
    ensures var s' := Step(s, Sweep);
            && (i in s'.cleaning <==> i in s.cleaning || (i in s.cleanup && !Outstanding(s, i)))
            && s'.heap[i] == (if i in s'.cleaning && i !in s.cleaning
                              then s.heap[i].(state := if s.shuttingDown then Shutdown else Cleaning) else s.heap[i])
            && s' == s.(heap := s'.heap, cleaning := s'.cleaning)
  {
    assert StateOk(s, i);
  }

  /**
   A shutdown phase removes exactly the registered tasks of that phase, and in every phase those that name none of the
   three; what is removed stops looping and is cleaned at once unless a run is outstanding.
   */
  lemma PhaseStops(s: Sched, phase: string, i: nat)
    requires Valid(s) && Registered(s, i)
    ensures var s', own := Step(s, Stop(phase)), s.heap[i].stopPhase;
            && (Registered(s', i) <==> own != phase && own in ["before", "during", "after"])
            && (Registered(s', i) ==> s'.heap[i] == s.heap[i])
            && (!Registered(s', i) ==> i in s'.cleanup && !s'.heap[i].looping)
            && (!Registered(s', i) ==> (i in s'.cleaning <==> !Outstanding(s, i)))
            && s'.shuttingDown && s'.queue == s.queue && s'.running == s.running && s'.starts == s.starts
  {
    assert StateOk(s, i) && LifeOk(s, i);
  }

  /** The three phases leave no task registered. */
  lemma ShutdownStopsAll(s: Sched)
    requires Valid(s)
    ensures StopPhase(StopPhase(StopPhase(s, "before"), "during"), "after").tasks == map[]
  {
    hide Valid, StopPhase;
    var s1 := StopPhase(s, "before");
    var s2 := StopPhase(s1, "during");
    var s3 := StopPhase(s2, "after");
    StopKeeps(s, "before");
    StopKeeps(s1, "during");
    StopKeeps(s2, "after");
    PhaseShrinks(s, "before");
    PhaseShrinks(s1, "during");
    PhaseShrinks(s2, "after");
    if n :| n in s3.tasks {
      var i := s3.tasks[n];
      NameIsRegistered(s3, n);
      PhaseStops(s, "before", i);
      PhaseStops(s1, "during", i);
      PhaseStops(s2, "after", i);
    }
  }

  lemma NameIsRegistered(s: Sched, n: string)
    requires Valid(s) && n in s.tasks
    ensures Registered(s, s.tasks[n])
  {
  }

  lemma PhaseShrinks(s: Sched, phase: string)
    requires Valid(s)
    ensures forall i: nat :: Registered(StopPhase(s, phase), i) ==> Registered(s, i)
  {
    var s' := StopPhase(s, phase);
    forall i: nat | Registered(s', i) ensures Registered(s, i) {
      assert s'.heap[i].name in s.tasks;
    }
  }
}
