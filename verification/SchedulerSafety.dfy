/** The scheduler's promises, for every list of reactor events from its start. */
module SchedulerSafety {
  import opened Wrappers
  import opened SchedulerState
  import opened SchedulerInvariant

  lemma ReachableIsValid(es: seq<Event>)
    requires Legal(INITIAL, es)
    ensures Valid(Run(INITIAL, es))
  {
    RunKeeps(INITIAL, es);
  }

  /** Runs of a removed and of a re-added generation never overlap. */
  lemma GenerationsNeverOverlap(es: seq<Event>, t: nat, u: nat)
    requires Legal(INITIAL, es) && OlderGeneration(Run(INITIAL, es), t, u)
    ensures !(Outstanding(Run(INITIAL, es), t) && Outstanding(Run(INITIAL, es), u))
    ensures Run(INITIAL, es).heap[u].started ==> Gone(Run(INITIAL, es), t) && !Outstanding(Run(INITIAL, es), t)
  {
    ReachableIsValid(es);
    var s := Run(INITIAL, es);
    assert StateOk(s, t) && LifeOk(s, t) && CountersOk(s, u);
  }

  /** A removed task stays in the cleanup set until it has no outstanding run. */
  lemma RemovedWaitsInCleanup(es: seq<Event>, i: nat)
    requires Legal(INITIAL, es)
    requires i < |Run(INITIAL, es).heap| && Run(INITIAL, es).heap[i].removedAt.Some?
    ensures Outstanding(Run(INITIAL, es), i) ==> i in Run(INITIAL, es).cleanup
    ensures !Run(INITIAL, es).heap[i].looping && !Registered(Run(INITIAL, es), i)
  {
    ReachableIsValid(es);
    assert StateOk(Run(INITIAL, es), i) && LifeOk(Run(INITIAL, es), i);
  }

  lemma OneOutstandingSubmission(es: seq<Event>, i: nat)
    requires Legal(INITIAL, es)
    ensures var s := Run(INITIAL, es);
            multiset(s.queue)[i] + (if i in s.running then 1 else 0) <= 1
  {
    ReachableIsValid(es);
    var s := Run(INITIAL, es);
    DistinctCounts(s.queue, i);
    if i in s.queue {
      assert StateOk(s, i);
    }
  }

  lemma {:induction false} DistinctCounts(q: seq<nat>, i: nat)
    requires forall j, k :: 0 <= j < k < |q| ==> q[j] != q[k]
    ensures multiset(q)[i] == if i in q then 1 else 0
  {
    if q != [] {
      assert q == [q[0]] + q[1..];
      DistinctCounts(q[1..], i);
    }
  }

  /** No registered task is lost: its loop runs, or a delayed start still names it. */
  lemma NoTaskIsLost(es: seq<Event>, i: nat)
    requires Legal(INITIAL, es) && Registered(Run(INITIAL, es), i)
    ensures Run(INITIAL, es).heap[i].looping || i in Run(INITIAL, es).starts
  {
    ReachableIsValid(es);
    assert LifeOk(Run(INITIAL, es), i);
  }

  /** The dictionaries agree, listeners sit on registered tasks only, and each counter balances. */
  lemma BookkeepingBalances(es: seq<Event>, i: nat)
    requires Legal(INITIAL, es)
    ensures var s := Run(INITIAL, es);
            && s.loopingCalls == s.tasks && s.taskStats == s.tasks && s.tasks.Keys <= s.callbacks
            && (i < |s.heap| ==>
                  var c := s.heap[i].counters;
                  && s.heap[i].name in s.callbacks
                  && (s.heap[i].observed <==> Registered(s, i))
                  && c.ticks == c.submissions + c.parked + c.missedRuns
                  && c.failedRuns <= c.finished <= c.totalRuns <= c.submissions
                  && c.submissions - c.finished == (if Outstanding(s, i) then 1 else 0))
  {
    ReachableIsValid(es);
    var s := Run(INITIAL, es);
    if i < |s.heap| {
      assert StateOk(s, i) && LifeOk(s, i) && CountersOk(s, i);
    }
  }

  // ----- cleanup is final -----

  /** Being cleaned, or through it. */
  ghost predicate Final(s: Sched, i: nat) {
    i < |s.heap| && (s.heap[i].state.Cleaning? || s.heap[i].state.Shutdown? || Gone(s, i))
  }

  /** A task enters cleanup only after its removal and with no run outstanding. */
  lemma CleaningNeedsRemoval(s: Sched, i: nat)
    requires Valid(s) && Final(s, i)
    ensures s.heap[i].removedAt.Some? && !Registered(s, i) && !Outstanding(s, i) && !s.heap[i].looping
  {
    assert StateOk(s, i) && LifeOk(s, i);
  }

  lemma FinalIsKept(s: Sched, e: Event, i: nat)
    requires Valid(s) && OneConfigPerName(s, e) && Final(s, i)
    ensures Final(Step(s, e), i)
    ensures Step(s, e).heap[i].counters == s.heap[i].counters
  {
    CleaningNeedsRemoval(s, i);
    hide Valid, Add, StartTask, FinishRun, RemoveConfig, StopPhase, RunHead;
    match e
    case FireStart(p) => FinalThroughStart(s, p, i);
    case AddTask(n, c, kids, phase, pauses) => FinalThroughAdd(s, NewTask(n, c, kids, phase, pauses), i);
    case RunNext => FinalThroughRunHead(s, i);
    case Remove(c) => FinalThroughRemove(s, c, i);
    case Finish(k, failed, completed) => FinalThroughFinish(s, k, failed, completed, i);
    case Stop(phase) => FinalThroughStop(s, phase, i);
    case _ =>
  }

  lemma FinalThroughAdd(s: Sched, t: Task, i: nat)
    requires KeysAgree(s) && Final(s, i) && !Registered(s, i)
    ensures Add(s, t).Ok? ==> Final(Add(s, t).value, i) && Add(s, t).value.heap[i] == s.heap[i]
  {
  }

  lemma FinalThroughRunHead(s: Sched, i: nat)
    requires Valid(s) && Final(s, i)
    ensures Final(RunHead(s), i) && RunHead(s).heap[i] == s.heap[i]
  {
    CleaningNeedsRemoval(s, i);
    if s.queue != [] { assert s.queue[0] in s.queue; }
  }

  lemma FinalThroughRemove(s: Sched, c: string, i: nat)
    requires Final(s, i) && !Registered(s, i)
    ensures Final(RemoveConfig(s, c), i) && RemoveConfig(s, c).heap[i] == s.heap[i]
  {
    FinalThroughRetire(s, Doomed(s, c), i);
  }

  lemma FinalThroughStop(s: Sched, phase: string, i: nat)
    requires Final(s, i) && !Registered(s, i)
    ensures Final(StopPhase(s, phase), i) && StopPhase(s, phase).heap[i].counters == s.heap[i].counters
  {
    FinalThroughRetire(s.(shuttingDown := true), Stopping(s, phase), i);
  }

  lemma FinalThroughStart(s: Sched, p: nat, i: nat)
    requires Valid(s) && Final(s, i)
    ensures Final(StartTask(s, p), i) && StartTask(s, p).heap[i] == s.heap[i]
  {
    CleaningNeedsRemoval(s, i);
    if p in s.starts && s.heap[p].name in s.tasks {
      assert s.tasks[s.heap[p].name] != i;
    }
  }

  lemma FinalThroughRetire(s: Sched, d: set<nat>, i: nat)
    requires Final(s, i) && i !in d && !Registered(s, i)
    ensures Final(Retire(s, d), i) && Retire(s, d).heap[i] == s.heap[i]
  {
  }

  lemma FinalThroughFinish(s: Sched, k: nat, failed: bool, completed: bool, i: nat)
    requires Valid(s) && Final(s, i)
    ensures Final(FinishRun(s, k, failed, completed), i)
    ensures FinishRun(s, k, failed, completed).heap[i] == s.heap[i]
  {
    CleaningNeedsRemoval(s, i);
    if k in s.running {
      var s' := RunEnds(s, k, failed, completed);
      assert s'.heap[i] == s.heap[i] && !Registered(s', i);
      if completed {
        FinalThroughRetire(s', Doomed(s', s.heap[k].configId), i);
      }
    }
  }

  /** No run starts after cleanup began, whatever happens next. */
  lemma {:induction false} NoRunAfterCleanup(s: Sched, es: seq<Event>, i: nat)
    requires Valid(s) && Legal(s, es) && Final(s, i)
    ensures Final(Run(s, es), i) && !Outstanding(Run(s, es), i)
    ensures Run(s, es).heap[i].counters == s.heap[i].counters
    decreases |es|
  {
    if es == [] {
      CleaningNeedsRemoval(s, i);
    } else {
      FinalIsKept(s, es[0], i);
      StepKeeps(s, es[0]);
      NoRunAfterCleanup(Step(s, es[0]), es[1..], i);
    }
  }
}
