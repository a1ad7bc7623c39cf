/** Depth-first removal through childIds takes exactly the reachable configurations. */
module SchedulerRemoval {
  import opened Wrappers
  import opened SchedulerState
  import opened SchedulerInvariant

  /** The registered tasks of one configuration. */
  ghost function OwnTasks(s: Sched, c: string): set<nat> {
    set i: nat | i < |s.heap| && Registered(s, i) && s.heap[i].configId == c
  }

  /** d holds every registered task of config k. */
  ghost predicate Covers(s: Sched, d: set<nat>, k: string) {
    OwnTasks(s, k) <= d
  }

  lemma ReachesEdge(s: Sched, a: string, b: string, c: string)
    requires Reaches(s, a, b) && Edge(s, b, c)
    ensures Reaches(s, a, c)
  {
    var p :| IsPath(s, p) && p[0] == a && p[|p| - 1] == b;
    var q := p + [c];
    assert IsPath(s, q) && q[0] == a && q[|q| - 1] == c;
  }

  lemma ReachesJoins(s: Sched, a: string, b: string, c: string)
    requires Reaches(s, a, b) && Reaches(s, b, c)
    ensures Reaches(s, a, c)
  {
    var p :| IsPath(s, p) && p[0] == a && p[|p| - 1] == b;
    var q :| IsPath(s, q) && q[0] == b && q[|q| - 1] == c;
    var r := p + q[1..];
    forall k | 0 <= k < |r| - 1 ensures Edge(s, r[k], r[k + 1]) {
      if k >= |p| - 1 {
        assert r[k] == q[k - |p| + 1] && r[k + 1] == q[k - |p| + 2];
      }
    }
    assert IsPath(s, r) && r[0] == a && r[|r| - 1] == c;
  }

  lemma ReachesBeforeRetiring(s: Sched, d: set<nat>, a: string, b: string)
    requires Reaches(Retire(s, d), a, b)
    ensures Reaches(s, a, b)
  {
    var s' := Retire(s, d);
    var p :| IsPath(s', p) && p[0] == a && p[|p| - 1] == b;
    forall k | 0 <= k < |p| - 1 ensures Edge(s, p[k], p[k + 1]) {
      assert Edge(s', p[k], p[k + 1]);
      var i: nat :| Registered(s', i) && s'.heap[i].configId == p[k] && p[k + 1] in s'.heap[i].childIds;
      assert Registered(s, i);
    }
    assert IsPath(s, p);
  }

  lemma RetireTwice(s: Sched, a: set<nat>, b: set<nat>)
    requires a !! b
    ensures Retire(Retire(s, a), b) == Retire(s, a + b)
  {
    var l, r := Retire(Retire(s, a), b), Retire(s, a + b);
    assert l.heap == r.heap;
    assert l.tasks == r.tasks && l.loopingCalls == r.loopingCalls && l.taskStats == r.taskStats;
    assert l.cleanup == r.cleanup;
  }

  lemma {:induction false} PathIsCovered(s: Sched, d: set<nat>, p: seq<string>)
    requires IsPath(s, p) && Covers(s, d, p[0])
    requires forall i, k :: i in d && i < |s.heap| && k in s.heap[i].childIds ==> Covers(s, d, k)
    ensures Covers(s, d, p[|p| - 1])
    decreases |p|
  {
    if |p| > 1 {
      assert Edge(s, p[0], p[1]);
      var i: nat :| Registered(s, i) && s.heap[i].configId == p[0] && p[1] in s.heap[i].childIds;
      assert i in OwnTasks(s, p[0]);
      assert forall k :: 0 <= k < |p[1..]| - 1 ==> Edge(s, p[1..][k], p[1..][k + 1]) by {
        forall k | 0 <= k < |p[1..]| - 1 ensures Edge(s, p[1..][k], p[1..][k + 1]) {
          assert Edge(s, p[k + 1], p[k + 2]);
        }
      }
      PathIsCovered(s, d, p[1..]);
    }
  }

  /** A sound, closed set of tasks that covers c is the set of tasks reachable from c. */
  lemma ClosedIsDoomed(s: Sched, c: string, d: set<nat>)
    requires forall i :: i in d ==> i < |s.heap| && Registered(s, i) && Reaches(s, c, s.heap[i].configId)
    requires Covers(s, d, c)
    requires forall i, k :: i in d && k in s.heap[i].childIds ==> Covers(s, d, k)
    ensures d == Doomed(s, c)
  {
    forall i | i in Doomed(s, c) ensures i in d {
      var p :| IsPath(s, p) && p[0] == c && p[|p| - 1] == s.heap[i].configId;
      PathIsCovered(s, d, p);
      assert i in OwnTasks(s, s.heap[i].configId);
    }
  }

  lemma DoomedIsClosed(s: Sched, c: string, i: nat, k: string)
    requires i in Doomed(s, c) && k in s.heap[i].childIds
    ensures Covers(s, Doomed(s, c), k)
  {
    assert Edge(s, s.heap[i].configId, k);
    ReachesEdge(s, c, s.heap[i].configId, k);
  }

  /** One more child in the cascade: d grows by what the child's own removal takes. */
  lemma CascadeGrows(s: Sched, c: string, d: set<nat>, k: string)
    requires forall i :: i in d ==> i < |s.heap| && Registered(s, i) && Reaches(s, c, s.heap[i].configId)
    requires Reaches(s, c, k)
    ensures var e := Doomed(Retire(s, d), k);
            && Retire(Retire(s, d), e) == Retire(s, d + e)
            && (forall i :: i in e ==> i < |s.heap| && i !in d && Registered(s, i) && Reaches(s, c, s.heap[i].configId))
            && Covers(s, d + e, k)
            && (forall i, j :: i in e && j in s.heap[i].childIds ==> Covers(s, d + e, j))
  {
    var s' := Retire(s, d);
    var e := Doomed(s', k);
    forall i | i in e ensures i < |s.heap| && i !in d && Registered(s, i) && Reaches(s, c, s.heap[i].configId) {
      ReachesBeforeRetiring(s, d, k, s.heap[i].configId);
      ReachesJoins(s, c, k, s.heap[i].configId);
    }
    RetireTwice(s, d, e);
    assert forall i: nat :: i < |s.heap| && Registered(s, i) && i !in d ==> Registered(s', i);
    forall i | i in OwnTasks(s, k) && i !in d ensures i in e {
      ReachesSelf(s', k);
    }
    forall i, j | i in e && j in s.heap[i].childIds ensures Covers(s, d + e, j) {
      DoomedIsClosed(s', k, i, j);
      forall r | r in OwnTasks(s, j) ensures r in d + e {
        if r !in d { assert r in OwnTasks(s', j); }
      }
    }
  }

  /** The cascade from c has taken d and has visited the first j of c's children. */
  ghost predicate Cascade(s: Sched, c: string, kids: seq<string>, j: nat, d: set<nat>) {
    && j <= |kids|
    && (forall i :: i in d ==> i < |s.heap| && Registered(s, i) && Reaches(s, c, s.heap[i].configId))
    && Covers(s, d, c)
    && (forall k :: 0 <= k < j ==> Covers(s, d, kids[k]))
    && (forall i, k :: i in d && i !in OwnTasks(s, c) && k in s.heap[i].childIds ==> Covers(s, d, k))
  }

  /** kids lists what the tasks of c name as children. */
  ghost predicate ChildrenOf(s: Sched, c: string, kids: seq<string>) {
    forall k :: k in kids <==> exists i :: i in OwnTasks(s, c) && k in s.heap[i].childIds
  }

  lemma CascadeStarts(s: Sched, c: string, kids: seq<string>)
    ensures Cascade(s, c, kids, 0, OwnTasks(s, c))
  {
    ReachesSelf(s, c);
  }

  lemma CascadeStep(s: Sched, c: string, kids: seq<string>, j: nat, d: set<nat>)
    requires ChildrenOf(s, c, kids) && j < |kids| && Cascade(s, c, kids, j, d)
    ensures var e := Doomed(Retire(s, d), kids[j]);
            Cascade(s, c, kids, j + 1, d + e) && RemoveConfig(Retire(s, d), kids[j]) == Retire(s, d + e)
  {
    assert kids[j] in kids;
    var i :| i in OwnTasks(s, c) && kids[j] in s.heap[i].childIds;
    assert Edge(s, c, kids[j]);
    ReachesSelf(s, c);
    ReachesEdge(s, c, c, kids[j]);
    CascadeGrows(s, c, d, kids[j]);
    CascadeExtends(s, c, kids, j, d, Doomed(Retire(s, d), kids[j]));
  }

  lemma CascadeExtends(s: Sched, c: string, kids: seq<string>, j: nat, d: set<nat>, e: set<nat>)
    requires j < |kids| && Cascade(s, c, kids, j, d)
    requires forall i :: i in e ==> i < |s.heap| && Registered(s, i) && Reaches(s, c, s.heap[i].configId)
    requires Covers(s, d + e, kids[j])
    requires forall i, k :: i in e && k in s.heap[i].childIds ==> Covers(s, d + e, k)
    ensures Cascade(s, c, kids, j + 1, d + e)
  {
    forall k | 0 <= k < j + 1 ensures Covers(s, d + e, kids[k]) {
      if k < j { assert OwnTasks(s, kids[k]) <= d; }
    }
    forall i, k | i in d + e && i !in OwnTasks(s, c) && k in s.heap[i].childIds ensures Covers(s, d + e, k) {
      if i in d { assert Covers(s, d, k); }
    }
  }

  lemma CascadeEnds(s: Sched, c: string, kids: seq<string>, d: set<nat>)
    requires ChildrenOf(s, c, kids) && Cascade(s, c, kids, |kids|, d)
    ensures d == Doomed(s, c)
  {
    forall i, k | i in d && k in s.heap[i].childIds ensures Covers(s, d, k) {
      if i in OwnTasks(s, c) {
        assert k in kids;
        var j :| 0 <= j < |kids| && kids[j] == k;
      }
    }
    ClosedIsDoomed(s, c, d);
  }

  /** The registered tasks reachable from any of several configurations. */
  ghost function DoomedFrom(s: Sched, roots: set<string>): set<nat> {
    set i: nat | i < |s.heap| && Registered(s, i) && exists c :: c in roots && Reaches(s, c, s.heap[i].configId)
  }

  ghost function RemoveConfigs(s: Sched, roots: set<string>): Sched {
    Retire(s, DoomedFrom(s, roots))
  }

  /** Removing one configuration after others is removing them all, in any order. */
  lemma RemoveOneMore(s: Sched, roots: set<string>, c: string)
    ensures RemoveConfig(RemoveConfigs(s, roots), c) == RemoveConfigs(s, roots + {c})
  {
    var d := DoomedFrom(s, roots);
    var s' := Retire(s, d);
    var e := Doomed(s', c);
    assert d !! e;
    RetireTwice(s, d, e);
    forall i | i in e ensures i in DoomedFrom(s, roots + {c}) {
      ReachesBeforeRetiring(s, d, c, s.heap[i].configId);
      assert c in roots + {c};
    }
    forall i | i in d ensures i in DoomedFrom(s, roots + {c}) {
      var r :| r in roots && Reaches(s, r, s.heap[i].configId);
      assert r in roots + {c};
    }
    forall i | i in DoomedFrom(s, roots + {c}) && i !in d ensures i in e {
      assert Reaches(s, c, s.heap[i].configId);
      var p :| IsPath(s, p) && p[0] == c && p[|p| - 1] == s.heap[i].configId;
      PathSurvives(s, roots, p, i);
    }
    assert d + e == DoomedFrom(s, roots + {c});
  }

  lemma SuffixReaches(s: Sched, p: seq<string>, k: nat)
    requires IsPath(s, p) && k < |p|
    ensures Reaches(s, p[k], p[|p| - 1])
  {
    hide Edge;
    var q := p[k..];
    forall m | 0 <= m < |q| - 1 ensures Edge(s, q[m], q[m + 1]) {
      assert Edge(s, p[k + m], p[k + m + 1]);
    }
    assert IsPath(s, q) && q[0] == p[k] && q[|q| - 1] == p[|p| - 1];
  }

  /** A path to a task that stays is a path of tasks that stay. */
  lemma PathSurvives(s: Sched, roots: set<string>, p: seq<string>, i: nat)
    requires IsPath(s, p) && Registered(s, i) && i !in DoomedFrom(s, roots) && p[|p| - 1] == s.heap[i].configId
    ensures IsPath(Retire(s, DoomedFrom(s, roots)), p)
  {
    hide Reaches;
    var d := DoomedFrom(s, roots);
    forall k | 0 <= k < |p| - 1 ensures Edge(Retire(s, d), p[k], p[k + 1]) {
      assert Edge(s, p[k], p[k + 1]);
      var j: nat :| Registered(s, j) && s.heap[j].configId == p[k] && p[k + 1] in s.heap[j].childIds;
      if j in d {
        var r :| r in roots && Reaches(s, r, p[k]);
        SuffixReaches(s, p, k);
        ReachesJoins(s, r, p[k], s.heap[i].configId);
        assert false;
      }
      assert Registered(Retire(s, d), j);
    }
  }

  lemma RemoveNone(s: Sched)
    ensures RemoveConfigs(s, {}) == s
  {
    var s' := Retire(s, {});
    assert DoomedFrom(s, {}) == {};
    assert s'.heap == s.heap && s'.tasks == s.tasks && s'.loopingCalls == s.loopingCalls && s'.taskStats == s.taskStats;
    assert s'.cleanup == s.cleanup;
  }

  lemma MinusMinus(m: map<string, nat>, a: set<string>, n: string)
    ensures (m - a) - {n} == m - (a + {n})
  {
  }

  /** The rows after the first loop of the removal: loops stopped, listeners off. */
  function Halted(rows: seq<Task>, d: set<nat>): (r: seq<Task>)
    ensures |r| == |rows|
  {
    seq(|rows|, i requires 0 <= i < |rows| => if i in d then rows[i].(looping := false, observed := false) else rows[i])
  }

  /** The rows after the second loop. */
  function Dated(rows: seq<Task>, d: set<nat>, now: nat): (r: seq<Task>)
    ensures |r| == |rows|
  {
    seq(|rows|, i requires 0 <= i < |rows| => if i in d then rows[i].(removedAt := Some(now)) else rows[i])
  }

  lemma HaltOne(rows: seq<Task>, d: set<nat>, i: nat, t: Task)
    requires i < |rows| && i !in d && t == rows[i].(looping := false, observed := false)
    ensures Halted(rows, d)[i] == rows[i] && Halted(rows, d)[i := t] == Halted(rows, d + {i})
  {
  }

  lemma DateNone(rows: seq<Task>, now: nat)
    ensures Dated(rows, {}, now) == rows
  {
  }

  lemma DateOne(rows: seq<Task>, d: set<nat>, i: nat, now: nat)
    requires i < |rows| && i !in d
    ensures Dated(rows, d, now)[i := rows[i].(removedAt := Some(now))] == Dated(rows, d + {i}, now)
    ensures Dated(rows, d, now)[i] == rows[i]
  {
  }

  /** The rows after part of a sweep. */
  function Swept(rows: seq<Task>, d: set<nat>, state: TaskState): (r: seq<Task>)
    ensures |r| == |rows|
  {
    seq(|rows|, i requires 0 <= i < |rows| => if i in d then rows[i].(state := state) else rows[i])
  }

  lemma SweptNone(rows: seq<Task>, state: TaskState)
    ensures Swept(rows, {}, state) == rows
  {
  }

  lemma SweptIsSweep(s: Sched)
    ensures SweepCleanup(s)
            == s.(heap := Swept(s.heap, ToClean(s), if s.shuttingDown then TaskState.Shutdown else Cleaning),
                                  cleaning := s.cleaning + ToClean(s))
  {
  }

  lemma SweepOne(rows: seq<Task>, d: set<nat>, i: nat, state: TaskState)
    requires i < |rows| && i !in d
    ensures Swept(rows, d, state)[i] == rows[i]
    ensures Swept(rows, d, state)[i := rows[i].(state := state)] == Swept(rows, d + {i}, state)
  {
  }

  lemma OneMoreDated(s: Sched, own: set<nat>, moved: set<string>, dated: set<nat>, n: string)
    requires KeysAgree(s) && n in s.tasks && s.tasks[n] in own
    requires forall i :: i in own ==> i < |s.heap| && Registered(s, i)
    requires forall i :: i in dated <==> i in own && s.heap[i].name in moved
    ensures forall i :: i in dated + {s.tasks[n]} <==> i in own && s.heap[i].name in moved + {n}
  {
  }

  lemma AllDated(s: Sched, own: set<nat>, doomed: seq<string>, moved: set<string>, dated: set<nat>)
    requires forall n :: n in doomed <==> n in s.tasks && s.tasks[n] in own
    requires forall i :: i in own ==> i < |s.heap| && Registered(s, i)
    requires forall k :: 0 <= k < |doomed| ==> doomed[k] in moved
    requires forall n :: n in moved ==> n in doomed
    requires forall i :: i in dated <==> i in own && s.heap[i].name in moved
    ensures dated == own && forall n :: n in moved <==> n in s.tasks && s.tasks[n] in own
  {
    forall i | i in own ensures i in dated { assert s.heap[i].name in doomed; }
  }

  lemma RetiredInTwoLoops(s: Sched, own: set<nat>, moved: set<string>)
    requires KeysAgree(s)
    requires forall n :: n in moved <==> n in s.tasks && s.tasks[n] in own
    ensures Retire(s, own) == s.(heap := Dated(Halted(s.heap, own), own, |s.heap|), tasks := s.tasks - moved,
                                 loopingCalls := s.tasks - moved, taskStats := s.tasks - moved,
                                     cleanup := s.cleanup + own)
  {
    assert Retire(s, own).heap == Dated(Halted(s.heap, own), own, |s.heap|);
    assert Retire(s, own).tasks == s.tasks - moved;
  }

  lemma RetireKeepsKeys(s: Sched, d: set<nat>)
    requires KeysAgree(s)
    ensures KeysAgree(Retire(s, d))
  {
  }

  /** removeTasksForConfig in one statement. */
  lemma RemovalIsExact(s: Sched, c: string, i: nat)
    requires Valid(s) && i < |s.heap|
    ensures var s' := RemoveConfig(s, c);
            if Registered(s, i) && Reaches(s, c, s.heap[i].configId) then
              !Registered(s', i) && i in s'.cleanup && !s'.heap[i].looping && !s'.heap[i].observed
              && s'.heap[i].state == s.heap[i].state
            else
              s'.heap[i] == s.heap[i] && (Registered(s', i) <==> Registered(s, i))
              && (i in s'.cleanup <==> i in s.cleanup)
    ensures forall k, n :: Reaches(s, c, k) && n in RemoveConfig(s, c).tasks ==> s.heap[s.tasks[n]].configId != k
    ensures RemoveConfig(s, c).starts == s.starts && RemoveConfig(s, c).queue == s.queue
            && RemoveConfig(s, c).running == s.running
  {
  }

  /** Removing a second time finds nothing. */
  lemma RemovalIsIdempotent(s: Sched, c: string)
    requires Valid(s)
    ensures RemoveConfig(RemoveConfig(s, c), c) == RemoveConfig(s, c)
  {
    var s' := RemoveConfig(s, c);
    forall i | i in Doomed(s', c) ensures i in Doomed(s, c) {
      ReachesBeforeRetiring(s, Doomed(s, c), c, s'.heap[i].configId);
    }
    assert Doomed(s', c) == {};
    var s2 := Retire(s', {});
    assert s2.heap == s'.heap && s2.tasks == s'.tasks && s2.loopingCalls == s'.loopingCalls
        && s2.taskStats == s'.taskStats;
    assert s2.cleanup == s'.cleanup;
  }

  // ----- what a removal leaves of a configuration -----

  ghost predicate HasTasks(s: Sched, c: string) {
    exists i: nat :: Registered(s, i) && s.heap[i].configId == c
  }

  lemma RemovalStrips(s: Sched, c: string, other: string)
    requires HasTasks(s, other)
    ensures !HasTasks(RemoveConfig(s, c), other) <==> Reaches(s, c, other)
  {
    hide Reaches;
    var s' := RemoveConfig(s, c);
    forall i: nat | i < |s.heap| ensures Registered(s', i) <==> Registered(s, i) && i !in Doomed(s, c) {
    }
    var i: nat :| Registered(s, i) && s.heap[i].configId == other;
    assert i in Doomed(s, c) <==> Reaches(s, c, other);
  }

  /** Nothing is reached from a configuration without registered tasks. */
  lemma NothingToRemove(s: Sched, c: string)
    ensures Doomed(s, c) == {} <==> !HasTasks(s, c)
  {
    if HasTasks(s, c) {
      var i: nat :| Registered(s, i) && s.heap[i].configId == c;
      ReachesSelf(s, c);
      assert i in Doomed(s, c);
    }
    if i :| i in Doomed(s, c) {
      var p :| IsPath(s, p) && p[0] == c && p[|p| - 1] == s.heap[i].configId;
      FirstHasTasks(s, p, i);
    }
  }

  lemma FirstHasTasks(s: Sched, p: seq<string>, i: nat)
    requires IsPath(s, p) && Registered(s, i) && s.heap[i].configId == p[|p| - 1]
    ensures HasTasks(s, p[0])
  {
    if |p| > 1 { assert Edge(s, p[0], p[1]); }
  }
}
