/** What a tick and the end of a run do to one task, and the ways a delayed start can go. */
module SchedulerRows {
  import opened Wrappers
  import opened SchedulerState
  import opened SchedulerInvariant

  /** What a tick does to a task, and whether it is submitted. */
  method CallRow(was: Task) returns (t: Task, submit: bool)
    ensures t == Called(was) && (submit <==> t.counters.submissions > was.counters.submissions)
  {
    t, submit := was, false;
    if t.state.Paused? && !t.paused {
      t := t.(state := Idle);
    }
    var c := t.counters.(ticks := t.counters.ticks + 1);
    if t.state.Idle? {
      if t.paused {
        t := t.(state := Paused, counters := c.(parked := c.parked + 1));
      } else {
        submit := true;
        t := t.(state := Queued, counters := c.(submissions := c.submissions + 1));
      }
    } else {
      t := was.(counters := c.(missedRuns := c.missedRuns + 1));
    }
  }

  /** What the end of a run does to a task. */
  method EndRow(was: Task, failed: bool, completed: bool) returns (t: Task)
    ensures t == Ended(was, failed, completed) && t.name == was.name
  {
    var c := was.counters.(finished := was.counters.finished + 1);
    t := was.(state := if completed then Completed else Idle, counters := c);
    if failed {
      t := t.(counters := c.(failedRuns := c.failedRuns + 1));
    }
  }

  /** The ways a delayed start can go, in the state with the start taken out. */
  lemma StartCases(s: Sched, p: nat)
    requires Valid(s) && p in s.starts
    ensures p < |s.heap| && forall n :: n in s.loopingCalls ==> s.loopingCalls[n] < |s.heap|
    ensures var fired, t := s.(starts := s.starts - multiset{p}), s.heap[p];
            && fired.(starts := fired.starts + multiset{p}) == s
            && (t.name !in s.loopingCalls ==> StartTask(s, p) == fired)
            && (t.name in s.loopingCalls ==>
                  var i := s.loopingCalls[t.name];
                  var begun := fired.(heap := s.heap[i := s.heap[i].(looping := true, started := true)]);
                  && (s.heap[i].looping ==> StartTask(s, p) == fired)
                  && (!s.heap[i].looping && AwaitsCleanup(s, t.configId) ==> StartTask(s, p) == s)
                  && (!s.heap[i].looping && !AwaitsCleanup(s, t.configId)
                      ==> Valid(begun) && StartTask(s, p) == Call(begun, i)))
  {
    hide Call;
    assert s.starts - multiset{p} + multiset{p} == s.starts;
    var t := s.heap[p];
    if t.name in s.loopingCalls && !s.heap[s.loopingCalls[t.name]].looping && !AwaitsCleanup(s, t.configId) {
      LoopStartKeeps(s, p, s.loopingCalls[t.name]);
    }
  }
}
