/**
 A postponed start waits only for what is on its way: the outstanding runs and the cleanups of the older
 generation.
 */
module SchedulerProgress {
  import opened Wrappers
  import opened SchedulerState
  import opened SchedulerInvariant

  /** The start made for task p is to come, its name is registered and not looping. */
  ghost predicate Waits(s: Sched, p: nat, i: nat) {
    && p in s.starts && p < |s.heap| && i < |s.heap| && Registered(s, i)
    && s.heap[i].name == s.heap[p].name && !s.heap[i].looping
  }

  /** Every removed task of the configuration is being cleaned. */
  ghost predicate AllInCleaning(s: Sched, c: string) {
    forall t :: t in s.cleanup && t < |s.heap| && s.heap[t].configId == c ==> t in s.cleaning
  }

  predicate OnlyCleanup(es: seq<Event>) {
    forall k :: 0 <= k < |es| ==> es[k].Sweep? || es[k].CleanupDone?
  }

  lemma EndCleanupWaits(s: Sched, p: nat, i: nat, t: nat)
    requires Valid(s) && Waits(s, p, i) && t in s.cleaning && AllInCleaning(s, s.heap[p].configId)
    ensures var s' := EndCleanup(s, t, false);
            && Valid(s') && Waits(s', p, i) && AllInCleaning(s', s'.heap[p].configId)
            && s'.heap[p].configId == s.heap[p].configId && |s'.cleanup| < |s.cleanup|
  {
    EndCleanupKeeps(s, t, false);
    assert Registered(EndCleanup(s, t, false), i);
  }

  /** The start, coming due now, starts the loop. */
  ghost predicate StartsLoop(s: Sched, p: nat, i: nat) {
    var s' := StartTask(s, p);
    i < |s'.heap| && s'.heap[i].looping
  }

  lemma NothingAwaited(s: Sched, p: nat, i: nat)
    requires Valid(s) && Waits(s, p, i) && !AwaitsCleanup(s, s.heap[p].configId)
    ensures StartsLoop(s, p, i)
  {
  }

  lemma RunFirst(s: Sched, e: Event, es: seq<Event>)
    requires !e.AddTask? && Legal(Step(s, e), es)
    ensures Legal(s, [e] + es) && Run(s, [e] + es) == Run(Step(s, e), es)
  {
    hide Step;
    assert ([e] + es)[1..] == es;
  }

  lemma OneMore(e: Event, es: seq<Event>)
    requires OnlyCleanup(es) && (e.Sweep? || e.CleanupDone?)
    ensures OnlyCleanup([e] + es)
  {
  }

  lemma CleanupIsStep(s: Sched, t: nat)
    ensures Step(s, CleanupDone(t, false)) == EndCleanup(s, t, false) && Step(s, Sweep) == SweepCleanup(s)
  {
  }

  /** Once all of them are being cleaned, the ends of these cleanups let the start proceed. */
  lemma {:induction false} CleanupsEnd(s: Sched, p: nat, i: nat) returns (es: seq<Event>)
    requires Valid(s) && Waits(s, p, i) && AllInCleaning(s, s.heap[p].configId)
    ensures OnlyCleanup(es) && Legal(s, es) && StartsLoop(Run(s, es), p, i)
    decreases |s.cleanup|
  {
    if AwaitsCleanup(s, s.heap[p].configId) {
      var t :| t in s.cleanup && t < |s.heap| && s.heap[t].configId == s.heap[p].configId;
      assert t in s.cleaning;
      hide Valid, StartsLoop, EndCleanup, Legal, Run, Step, Waits, AllInCleaning, OnlyCleanup;
      EndCleanupWaits(s, p, i, t);
      CleanupIsStep(s, t);
      var rest := CleanupsEnd(EndCleanup(s, t, false), p, i);
      RunFirst(s, CleanupDone(t, false), rest);
      OneMore(CleanupDone(t, false), rest);
      es := [CleanupDone(t, false)] + rest;
    } else {
      NothingAwaited(s, p, i);
      es := [];
    }
  }

  /**
   A postponed start can proceed: when no removed task of its configuration has a run outstanding, one sweep and the
   ends of cleanups are all it takes until the loop of the registered task is started.
   */
  lemma PostponedStartProceeds(s: Sched, p: nat, i: nat) returns (es: seq<Event>)
    requires Valid(s) && Waits(s, p, i)
    requires forall t :: t in s.cleanup && t < |s.heap| && s.heap[t].configId == s.heap[p].configId
                ==> !Outstanding(s, t)
    ensures OnlyCleanup(es) && Legal(s, es) && StartsLoop(Run(s, es), p, i)
  {
    hide Valid, StartsLoop, SweepCleanup, Legal, Run, Step;
    SweepKeeps(s);
    SweepWaits(s, p, i);
    CleanupIsStep(s, 0);
    var rest := CleanupsEnd(SweepCleanup(s), p, i);
    RunFirst(s, Sweep, rest);
    es := [Sweep] + rest;
  }

  lemma SweepWaits(s: Sched, p: nat, i: nat)
    requires Valid(s) && Waits(s, p, i)
    requires forall t :: t in s.cleanup && t < |s.heap| && s.heap[t].configId == s.heap[p].configId
                ==> !Outstanding(s, t)
    ensures var s' := SweepCleanup(s); Waits(s', p, i) && AllInCleaning(s', s'.heap[p].configId)
  {
    SweepKeeps(s);
    var s' := SweepCleanup(s);
    assert Registered(s', i);
    forall t | t in s'.cleanup && s'.heap[t].configId == s'.heap[p].configId ensures t in s'.cleaning {
      assert !Outstanding(s, t);
    }
  }
}
