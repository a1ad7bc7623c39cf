/**
 The collector scheduler as a value: one row per task object ever added (its
 identity is its index), the scheduler's dictionaries, the cleanup set, the
 executor's queue and the delayed starts the reactor still holds.

 Each function below is one reactor event.  Events that cannot happen in a
 state (a tick of a stopped loop, a run with an empty queue) leave it alone, so
 every list of events is a run.
 */
module SchedulerState {
  import opened Wrappers

  datatype TaskState =
    | Idle | Queued | Running | Paused | Cleaning | Completed | Shutdown
    | Own(tag: string)  // a state of the task's own, WAITING included

  datatype Counters = Counters(
    ticks: nat, submissions: nat, parked: nat, finished: nat,  // history
    totalRuns: nat, failedRuns: nat, missedRuns: nat)          // TaskStatistics

  /** A task object with the wrapper, looping call and statistics made for it. */
  datatype Task = Task(
    name: string,
    configId: string,
    childIds: seq<string>,
    stopPhase: string,
    pauses: bool,             // scheduled() pauses the task's config
    state: TaskState,
    paused: bool,
    looping: bool,            // LoopingCall.running
    observed: bool,           // state listener attached
    started: bool,            // history: the loop was started once
    removedAt: Option<nat>,   // history: number of tasks ever added when removed
    counters: Counters)

  datatype Sched = Sched(
    heap: seq<Task>,
    tasks: map<string, nat>,
    loopingCalls: map<string, nat>,
    taskStats: map<string, nat>,
    callbacks: set<string>,
    cleanup: set<nat>,        // _tasksToCleanup
    cleaning: set<nat>,       // cleanup() called, its callback still to come
    starts: multiset<nat>,    // delayed _startTask calls, by the task they were made for
    queue: seq<nat>,          // executor: submitted, not begun
    running: set<nat>,        // executor: begun, not finished
    maxRunning: Option<nat>,
    shuttingDown: bool)

  datatype Event =
    | AddTask(name: string, configId: string, childIds: seq<string>, stopPhase: string, pauses: bool)
    | FireStart(forTask: nat)
    | Tick(id: nat)
    | RunNext
    | OwnState(id: nat, tag: string)
    | Finish(id: nat, failed: bool, completed: bool)
    | Remove(configId: string)
    | Pause(configId: string)
    | Resume(configId: string)
    | Sweep
    | CleanupDone(id: nat, completed: bool)
    | Stop(phase: string)
    | SetMax(max: Option<nat>)

  const NO_COUNTERS := Counters(0, 0, 0, 0, 0, 0, 0)

  const INITIAL := Sched([], map[], map[], map[], {}, {}, {}, multiset{}, [], {}, Some(1), false)

  /** The task object is the one the scheduler holds under its name. */
  predicate Registered(s: Sched, i: nat) {
    i < |s.heap| && s.heap[i].name in s.tasks && s.tasks[s.heap[i].name] == i
  }

  /** Submitted to the executor and not finished. */
  predicate Outstanding(s: Sched, i: nat) {
    i in s.queue || i in s.running
  }

  /** Removed and through its cleanup. */
  predicate Gone(s: Sched, i: nat) {
    i < |s.heap| && !Registered(s, i) && i !in s.cleanup
  }

  /** KeyedSet.has_key on the cleanup set. */
  predicate AwaitsCleanup(s: Sched, configId: string) {
    exists i | i in s.cleanup :: i < |s.heap| && s.heap[i].configId == configId
  }

  // ----- adding and starting -----

  function NewTask(name: string, configId: string, childIds: seq<string>, stopPhase: string, pauses: bool): Task {
    Task(name, configId, childIds, stopPhase, pauses, Idle, false, false, true, false, None, NO_COUNTERS)
  }

  /** The dictionaries and the delayed start of a new task. */
  function Enrolled(s: Sched, t: Task): Sched {
    var i := |s.heap|;
    s.(heap := s.heap + [t],
       tasks := s.tasks[t.name := i], loopingCalls := s.loopingCalls[t.name := i],
       taskStats := s.taskStats[t.name := i], callbacks := s.callbacks + {t.name},
       starts := s.starts + multiset{i})
  }

  /** addTask; its last act is to tell the task that it was scheduled, and some tasks then have their config paused. */
  function Add(s: Sched, t: Task): Result<Sched> {
    if t.name in s.tasks then Err(ValueError)
    else Ok(if t.pauses then SetPaused(Enrolled(s, t), t.configId, true) else Enrolled(s, t))
  }

  /** CallableTask.__call__ on the row of one task. */
  function Called(t: Task): Task {
    var c := t.counters;
    var state := if t.state.Paused? && !t.paused then Idle else t.state;
    if state != Idle then
      t.(counters := c.(ticks := c.ticks + 1, missedRuns := c.missedRuns + 1))
    else if t.paused then
      t.(state := Paused, counters := c.(ticks := c.ticks + 1, parked := c.parked + 1))
    else
      t.(state := Queued, counters := c.(ticks := c.ticks + 1, submissions := c.submissions + 1))
  }

  function Call(s: Sched, i: nat): Sched
    requires i < |s.heap|
  {
    var t := Called(s.heap[i]);
    s.(heap := s.heap[i := t],
       queue := if t.counters.submissions > s.heap[i].counters.submissions then s.queue + [i] else s.queue)
  }

  function TickLoop(s: Sched, i: nat): Sched {
    if i < |s.heap| && s.heap[i].looping then Call(s, i) else s
  }

  /** The delayed _startTask call made when task p was added: it knows only p's name and configId. */
  function StartTask(s: Sched, p: nat): Sched {
    if p !in s.starts || p >= |s.heap| then s else
    var name := s.heap[p].name;
    var fired := s.(starts := s.starts - multiset{p});
    if name !in s.loopingCalls || s.loopingCalls[name] >= |s.heap| then fired else
    var i := s.loopingCalls[name];
    if s.heap[i].looping then fired
    else if AwaitsCleanup(s, s.heap[p].configId) then s  // the same call again, later
    else Call(fired.(heap := s.heap[i := s.heap[i].(looping := true, started := true)]), i)
  }

  // ----- running -----

  /** CallableTask._run on the row of one task, up to doTask. */
  function Begun(t: Task): Task {
    t.(state := Running, counters := t.counters.(totalRuns := t.counters.totalRuns + 1))
  }

  function RunHead(s: Sched): Sched {
    if s.queue == [] || (s.maxRunning.Some? && |s.running| >= s.maxRunning.value) || s.queue[0] >= |s.heap| then s else
    var i := s.queue[0];
    s.(queue := s.queue[1..], running := s.running + {i}, heap := s.heap[i := Begun(s.heap[i])])
  }

  function SetOwnState(s: Sched, i: nat, tag: string): Sched {
    if i in s.running && i < |s.heap| then s.(heap := s.heap[i := s.heap[i].(state := Own(tag))]) else s
  }

  /** CallableTask._finished on the row of one task. */
  function Ended(t: Task, failed: bool, completed: bool): Task {
    var c := t.counters;
    t.(state := if completed then Completed else Idle,
       counters := c.(finished := c.finished + 1, failedRuns := c.failedRuns + if failed then 1 else 0))
  }

  /** CallableTask._finished up to the removal of a completed task. */
  function RunEnds(s: Sched, i: nat, failed: bool, completed: bool): Sched
    requires i < |s.heap|
  {
    s.(running := s.running - {i}, heap := s.heap[i := Ended(s.heap[i], failed, completed)])
  }

  ghost function FinishRun(s: Sched, i: nat, failed: bool, completed: bool): Sched {
    if i !in s.running || i >= |s.heap| then s else
    var s' := RunEnds(s, i, failed, completed);
    if completed then RemoveConfig(s', s.heap[i].configId) else s'
  }

  // ----- removing -----

  /** Some registered task of config a names b among its children. */
  ghost predicate Edge(s: Sched, a: string, b: string) {
    exists i: nat :: Registered(s, i) && s.heap[i].configId == a && b in s.heap[i].childIds
  }

  ghost predicate IsPath(s: Sched, p: seq<string>) {
    |p| > 0 && forall k :: 0 <= k < |p| - 1 ==> Edge(s, p[k], p[k + 1])
  }

  ghost predicate Reaches(s: Sched, a: string, b: string) {
    exists p: seq<string> :: IsPath(s, p) && p[0] == a && p[|p| - 1] == b
  }

  /** The registered tasks whose config is reachable from c. */
  ghost function Doomed(s: Sched, c: string): set<nat> {
    set i: nat | i < |s.heap| && Registered(s, i) && Reaches(s, c, s.heap[i].configId)
  }

  function Retired(t: Task, now: nat): Task {
    t.(looping := false, observed := false, removedAt := Some(now))
  }

  /** Moves the tasks in d from the scheduler's dictionaries to the cleanup set. */
  function Retire(s: Sched, d: set<nat>): Sched {
    s.(heap := seq(|s.heap|, i requires 0 <= i < |s.heap| =>
                     if i in d then Retired(s.heap[i], |s.heap|) else s.heap[i]),
       tasks := map n | n in s.tasks && s.tasks[n] !in d :: s.tasks[n],
       loopingCalls := map n | n in s.loopingCalls && s.loopingCalls[n] !in d :: s.loopingCalls[n],
       taskStats := map n | n in s.taskStats && s.taskStats[n] !in d :: s.taskStats[n],
       cleanup := s.cleanup + d)
  }

  ghost function RemoveConfig(s: Sched, c: string): Sched {
    Retire(s, Doomed(s, c))
  }

  // ----- pausing -----

  function SetPaused(s: Sched, c: string, paused: bool): Sched {
    s.(heap := seq(|s.heap|, i requires 0 <= i < |s.heap| =>
                     if Registered(s, i) && s.heap[i].configId == c then s.heap[i].(paused := paused) else s.heap[i]))
  }

  // ----- cleaning up and shutting down -----

  predicate Cleanable(st: TaskState) {
    st.Idle? || st.Paused? || st.Completed?
  }

  function ToClean(s: Sched): set<nat> {
    set i | i in s.cleanup && i < |s.heap| && Cleanable(s.heap[i].state)
  }

  function SweepCleanup(s: Sched): Sched {
    var todo := ToClean(s);
    s.(heap := seq(|s.heap|, i requires 0 <= i < |s.heap| =>
                     if i !in todo then s.heap[i]
                     else s.heap[i].(state := if s.shuttingDown then Shutdown else Cleaning)),
       cleaning := s.cleaning + todo)
  }

  /** cleanup() fired its callback; some tasks set themselves COMPLETED just before. */
  function EndCleanup(s: Sched, i: nat, completed: bool): Sched {
    if i !in s.cleaning || i >= |s.heap| then s else
    s.(cleanup := s.cleanup - {i}, cleaning := s.cleaning - {i},
       heap := s.heap[i := s.heap[i].(state := if completed then Completed else s.heap[i].state)])
  }

  predicate StopsIn(t: Task, phase: string) {
    t.stopPhase == phase || t.stopPhase !in ["before", "during", "after"]
  }

  function Stopping(s: Sched, phase: string): set<nat> {
    set i: nat | i < |s.heap| && Registered(s, i) && StopsIn(s.heap[i], phase)
  }

  function StopPhase(s: Sched, phase: string): Sched {
    SweepCleanup(Retire(s.(shuttingDown := true), Stopping(s, phase)))
  }

  // ----- runs -----

  ghost function Step(s: Sched, e: Event): Sched {
    match e
    case AddTask(n, c, kids, phase, pauses) =>
      var r := Add(s, NewTask(n, c, kids, phase, pauses));
      if r.Ok? then r.value else s
    case FireStart(p) => StartTask(s, p)
    case Tick(i) => TickLoop(s, i)
    case RunNext => RunHead(s)
    case OwnState(i, tag) => SetOwnState(s, i, tag)
    case Finish(i, failed, completed) => FinishRun(s, i, failed, completed)
    case Remove(c) => RemoveConfig(s, c)
    case Pause(c) => SetPaused(s, c, true)
    case Resume(c) => SetPaused(s, c, false)
    case Sweep => SweepCleanup(s)
    case CleanupDone(i, completed) => EndCleanup(s, i, completed)
    case Stop(phase) => StopPhase(s, phase)
    case SetMax(max) => s.(maxRunning := max)
  }

  /** The assumption on names: a name is only ever used with one configId. */
  predicate OneConfigPerName(s: Sched, e: Event) {
    e.AddTask? ==> forall i | 0 <= i < |s.heap| :: s.heap[i].name == e.name ==> s.heap[i].configId == e.configId
  }

  ghost predicate Legal(s: Sched, es: seq<Event>)
    decreases |es|
  {
    es == [] || (OneConfigPerName(s, es[0]) && Legal(Step(s, es[0]), es[1..]))
  }

  ghost function Run(s: Sched, es: seq<Event>): Sched
    decreases |es|
  {
    if es == [] then s else Run(Step(s, es[0]), es[1..])
  }
}
