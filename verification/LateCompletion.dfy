/** A removed task that completes after its configuration was added again. */
module LateCompletion {
  import opened Wrappers
  import opened SchedulerState
  import opened SchedulerInvariant
  import opened SchedulerRemoval

  /** The end of a run changes no child ids and no registration. */
  lemma EndKeepsEdges(s: Sched, t: nat, failed: bool, completed: bool, a: string, b: string)
    requires t < |s.heap|
    ensures Edge(RunEnds(s, t, failed, completed), a, b) <==> Edge(s, a, b)
  {
    var s' := RunEnds(s, t, failed, completed);
    forall i: nat | i < |s.heap|
      ensures Registered(s', i) <==> Registered(s, i)
      ensures s'.heap[i].configId == s.heap[i].configId && s'.heap[i].childIds == s.heap[i].childIds
    {
    }
    if Edge(s, a, b) {
      var i: nat :| Registered(s, i) && s.heap[i].configId == a && b in s.heap[i].childIds;
      assert Registered(s', i) && s'.heap[i].configId == a && b in s'.heap[i].childIds;
    }
    if Edge(s', a, b) {
      var i: nat :| Registered(s', i) && s'.heap[i].configId == a && b in s'.heap[i].childIds;
      assert Registered(s, i) && s.heap[i].configId == a && b in s.heap[i].childIds;
    }
  }

  lemma EndKeepsReach(s: Sched, t: nat, failed: bool, completed: bool, a: string, b: string)
    requires t < |s.heap|
    ensures Reaches(RunEnds(s, t, failed, completed), a, b) <==> Reaches(s, a, b)
  {
    hide Edge, RunEnds;
    var s' := RunEnds(s, t, failed, completed);
    forall x, y ensures Edge(s', x, y) <==> Edge(s, x, y) {
      EndKeepsEdges(s, t, failed, completed, x, y);
    }
    if p: seq<string> :| IsPath(s, p) && p[0] == a && p[|p| - 1] == b { assert IsPath(s', p); }
    if p: seq<string> :| IsPath(s', p) && p[0] == a && p[|p| - 1] == b { assert IsPath(s, p); }
  }

  /**
   A removed task that ends its run takes out exactly the registered tasks its configuration reaches, if it
   completes.
   */
  lemma LateCompletionRemoves(s: Sched, t: nat, failed: bool, completed: bool, u: nat)
    requires Valid(s) && t in s.running && !Registered(s, t) && Registered(s, u)
    ensures var s' := FinishRun(s, t, failed, completed);
            && (!Registered(s', u) <==> completed && Reaches(s, s.heap[t].configId, s.heap[u].configId))
            && (!Registered(s', u) ==> u in s'.cleanup)
  {
    hide Reaches;
    var s1 := RunEnds(s, t, failed, completed);
    assert Registered(s1, u) && s1.heap[u].configId == s.heap[u].configId;
    EndKeepsReach(s, t, failed, completed, s.heap[t].configId, s.heap[u].configId);
    if completed { assert u in Doomed(s1, s.heap[t].configId)
        <==> Reaches(s1, s.heap[t].configId, s.heap[u].configId); }
  }

  /**
   It leaves every registered task alone exactly when it does not complete, or its configuration has no tasks
   again.
   */
  lemma LateCompletionIsHarmless(s: Sched, t: nat, failed: bool, completed: bool)
    requires Valid(s) && t in s.running && !Registered(s, t)
    ensures FinishRun(s, t, failed, completed).tasks == s.tasks <==> !completed || !HasTasks(s, s.heap[t].configId)
  {
    hide Reaches, Doomed;
    var s1, c := RunEnds(s, t, failed, completed), s.heap[t].configId;
    if completed {
      EndKeepsTasks(s, t, failed, completed, c);
      NothingToRemove(s1, c);
      DoomedAreRegistered(s1, c);
      RetireSome(s1, Doomed(s1, c));
    }
  }

  lemma EndKeepsTasks(s: Sched, t: nat, failed: bool, completed: bool, c: string)
    requires t < |s.heap|
    ensures HasTasks(RunEnds(s, t, failed, completed), c) <==> HasTasks(s, c)
  {
    var s' := RunEnds(s, t, failed, completed);
    forall i: nat | i < |s.heap|
      ensures (Registered(s', i) <==> Registered(s, i)) && s'.heap[i].configId == s.heap[i].configId
    {
    }
    if HasTasks(s, c) {
      var i: nat :| Registered(s, i) && s.heap[i].configId == c;
      assert Registered(s', i);
    }
  }

  lemma DoomedAreRegistered(s: Sched, c: string)
    ensures forall i :: i in Doomed(s, c) ==> Registered(s, i)
  {
  }

  lemma RetireSome(s: Sched, d: set<nat>)
    requires forall i :: i in d ==> Registered(s, i)
    ensures Retire(s, d).tasks == s.tasks <==> d == {}
  {
    if i :| i in d { assert s.heap[i].name in s.tasks && s.heap[i].name !in Retire(s, d).tasks; }
  }

  // ----- a run in which it happens -----

  /** A task is started, runs, is removed while it runs, and is added again. */
  function Again(name: string, c: string): seq<Event> {
    [AddTask(name, c, [], "before", false), FireStart(0), RunNext, Remove(c), AddTask(name, c, [], "before", false)]
  }

  lemma Started(name: string, c: string) returns (s: Sched)
    ensures s == Step(Step(INITIAL, AddTask(name, c, [], "before", false)), FireStart(0))
    ensures |s.heap| == 1 && s.heap[0].name == name && s.heap[0].configId == c && s.heap[0].childIds == []
    ensures s.tasks == map[name := 0] && s.queue == [0] && s.running == {} && s.cleanup == {} && s.maxRunning == Some(1)
  {
    var s1 := Step(INITIAL, AddTask(name, c, [], "before", false));
    assert s1.heap == [NewTask(name, c, [], "before", false)] && s1.tasks == map[name := 0]
        && s1.loopingCalls == map[name := 0];
    assert 0 in s1.starts && s1.queue == [] && s1.cleanup == {};
    assert !AwaitsCleanup(s1, c);
    s := Step(s1, FireStart(0));
  }

  lemma RemovedWhileRunning(s: Sched, name: string, c: string) returns (s': Sched)
    requires |s.heap| == 1 && s.heap[0].name == name && s.heap[0].configId == c && s.heap[0].childIds == []
    requires s.tasks == map[name := 0] && s.queue == [0] && s.running == {} && s.maxRunning == Some(1)
    ensures s' == Step(Step(s, RunNext), Remove(c))
    ensures |s'.heap| == 1 && s'.heap[0].name == name && s'.heap[0].configId == c
    ensures s'.tasks == map[] && s'.running == {0}
  {
    var s1 := Step(s, RunNext);
    assert s1.running == {0} && Registered(s1, 0);
    ReachesSelf(s1, c);
    assert 0 in Doomed(s1, c);
    s' := Step(s1, Remove(c));
  }

  /** The run is legal, and after it a removed task runs while the next generation is registered. */
  lemma NextGenerationWhileRunning(name: string, c: string)
    ensures Legal(INITIAL, Again(name, c))
    ensures var s := Run(INITIAL, Again(name, c));
            && 0 in s.running && !Registered(s, 0) && Registered(s, 1)
            && s.heap[0].configId == c && s.heap[1].configId == c
  {
    var es := Again(name, c);
    var s2 := Started(name, c);
    var s4 := RemovedWhileRunning(s2, name, c);
    AddedAgain(s4, name, c);
    NamesAreFine(s4, name, c);
    hide Step, Registered, OneConfigPerName, Legal, Run;
    var s1 := Step(INITIAL, es[0]);
    var s3 := Step(s2, es[2]);
    assert es[1..][1..] == es[2..] && es[2..][1..] == es[3..] && es[3..][1..] == es[4..];
    RunOne(s4, es[4], es[4..]);
    RunFirst(s3, es[3..]);
    RunFirst(s2, es[2..]);
    RunFirst(s1, es[1..]);
    RunFirst(INITIAL, es);
  }

  lemma NamesAreFine(s: Sched, name: string, c: string)
    requires |s.heap| == 1 && s.heap[0].configId == c
    ensures OneConfigPerName(INITIAL, AddTask(name, c, [], "before", false))
    ensures OneConfigPerName(s, AddTask(name, c, [], "before", false))
  {
  }

  lemma RunFirst(s: Sched, es: seq<Event>)
    requires es != [] && OneConfigPerName(s, es[0]) && Legal(Step(s, es[0]), es[1..])
    ensures Legal(s, es) && Run(s, es) == Run(Step(s, es[0]), es[1..])
  {
  }

  lemma RunOne(s: Sched, e: Event, es: seq<Event>)
    requires es == [e] && OneConfigPerName(s, e)
    ensures Legal(s, es) && Run(s, es) == Step(s, e)
  {
    hide Step;
    assert es[1..] == [];
  }

  lemma AddedAgain(s: Sched, name: string, c: string)
    requires |s.heap| == 1 && s.heap[0].name == name && s.heap[0].configId == c && s.tasks == map[] && s.running == {0}
    ensures var s' := Step(s, AddTask(name, c, [], "before", false));
            && 0 in s'.running && !Registered(s', 0) && Registered(s', 1) && s'.heap[0].configId == c
                && s'.heap[1].configId == c
  {
  }

  /** There the completion of the old task removes the new one. */
  lemma LateCompletionHappens(name: string, c: string)
    ensures var es := Again(name, c) + [Finish(0, false, true)];
            && Legal(INITIAL, es) && !Registered(Run(INITIAL, es), 1) && 1 in Run(INITIAL, es).cleanup
  {
    hide Step, Registered, Again;
    var s, e := Run(INITIAL, Again(name, c)), Finish(0, false, true);
    NextGenerationWhileRunning(name, c);
    RunKeeps(INITIAL, Again(name, c));
    LateCompletionRemoves(s, 0, false, true, 1);
    ReachesSelf(s, c);
    RunSnoc(INITIAL, Again(name, c), e);
    FinishIsStep(s);
  }

  lemma FinishIsStep(s: Sched)
    ensures Step(s, Finish(0, false, true)) == FinishRun(s, 0, false, true)
  {
  }

  lemma {:induction false} RunSnoc(s: Sched, es: seq<Event>, e: Event)
    requires Legal(s, es) && !e.AddTask?
    ensures Legal(s, es + [e]) && Run(s, es + [e]) == Step(Run(s, es), e)
    decreases |es|
  {
    hide Step;
    if es == [] {
      assert es + [e] == [e] && [e][1..] == [];
    } else {
      assert (es + [e])[0] == es[0] && (es + [e])[1..] == es[1..] + [e];
      RunSnoc(Step(s, es[0]), es[1..], e);
    }
  }
}
