/** What holds in every run of the modeler: its clients, its devices, its slots and its reports. */
module ModelerLaws {
  import opened Wrappers
  import opened ModelerState

  // ----- the peeking iterator -----

  /** next() takes the first of what is left. */
  lemma {:induction false} NextTakesTheFirst(g: Gen)
    ensures Next(g).None? <==> Contents(g) == []
    ensures Next(g).Some? ==> Contents(g) == [Next(g).value.item] + Contents(Next(g).value.gen)
  {
    if g.Chain? { NextTakesTheFirst(g.rest); }
  }

  function Left(g: Option<Gen>): seq<string> {
    if g.None? then [] else Contents(g.value)
  }

  /** Looking whether there is a device does not lose it. */
  lemma PeekingKeeps(g: Option<Gen>)
    ensures HasItems(g) <==> Left(g) != []
    ensures Left(Peeked(g)) == Left(g) && (Peeked(g).Some? <==> g.Some?)
  {
    if g.Some? { NextTakesTheFirst(g.value); }
  }

  // ----- the invariant -----

  /** Each of the clients 0 .. n-1, once. */
  function Numbers(n: nat): multiset<nat> {
    if n == 0 then multiset{} else Numbers(n - 1) + multiset{n - 1}
  }

  function Sum(reports: seq<Report>): (total: Report) {
    if reports == [] then Report(0, 0)
    else var t, r := Sum(reports[..|reports| - 1]),
        reports[|reports| - 1]; Report(t.devices + r.devices, t.timedOut + r.timedOut)
  }

  /** Every client ever added is running or has finished, and that once. */
  ghost predicate ClientsKept(s: Modeler) {
    multiset(s.clients) + multiset(s.everFinished) == Numbers(|s.timeouts|)
  }

  /** last is the end of all. */
  predicate EndsIn(all: seq<nat>, last: seq<nat>) {
    if |last| >= |all| then last == all else EndsIn(all[1..], last)
  }

  lemma {:induction false} EndsInMore(all: seq<nat>, last: seq<nat>, more: seq<nat>)
    requires EndsIn(all, last)
    ensures EndsIn(all + more, last + more)
  {
    if |last| < |all| {
      EndsInMore(all[1..], last, more);
      assert (all + more)[1..] == all[1..] + more;
    }
  }

  lemma {:induction false} EndsInNothing(all: seq<nat>)
    ensures EndsIn(all, [])
  {
    if all != [] { EndsInNothing(all[1..]); }
  }

  lemma {:induction false} EndsInHolds(all: seq<nat>, last: seq<nat>, c: nat)
    requires EndsIn(all, last) && c in last
    ensures c in all
  {
    if |last| < |all| { EndsInHolds(all[1..], last, c); }
  }

  /** The finished clients are the last that finished, and the reports count the others. */
  ghost predicate FinishedKept(s: Modeler) {
    && EndsIn(s.everFinished, s.finished)
    && Sum(s.reports).devices + |s.finished| == |s.everFinished|
    && Sum(s.reports).timedOut + |Among(s.finished, s.timedOut)| == |s.timedOut|
    && forall c :: c in s.timedOut ==> c in s.everFinished
  }

  /** The devices of the cycle were requested in order up to now, and the rest is still to come. */
  ghost predicate DevicesKept(s: Modeler) {
    s.requested + Left(s.devicegen) == s.devices
  }

  ghost predicate SlotsKept(s: Modeler) {
    && |s.clients| <= s.parallel + 4
    && (s.pending ==> |s.clients| < s.parallel + s.added && s.added <= 5)
  }

  ghost predicate Begun(s: Modeler) {
    !s.started ==> s == Idle(s.parallel)
  }

  ghost predicate Valid(s: Modeler) {
    ClientsKept(s) && FinishedKept(s) && DevicesKept(s) && SlotsKept(s) && Begun(s)
  }

  // ----- sequences of clients -----

  lemma {:induction false} NumbersAre(n: nat, c: nat)
    ensures Numbers(n)[c] == if c < n then 1 else 0
  {
    if n > 0 { NumbersAre(n - 1, c); }
  }

  lemma {:induction false} AmongJoins(a: seq<nat>, b: seq<nat>, marked: set<nat>)
    ensures Among(a + b, marked) == Among(a, marked) + Among(b, marked)
  {
    if a == [] {
      assert a + b == b;
    } else {
      var head := if a[0] in marked then [a[0]] else [];
      assert (a + b)[1..] == a[1..] + b;
      AmongJoins(a[1..], b, marked);
      assert head + (Among(a[1..], marked) + Among(b, marked)) == (head + Among(a[1..], marked)) + Among(b, marked);
    }
  }

  lemma {:induction false} AmongDependsOnOwn(cs: seq<nat>, m: set<nat>, n: set<nat>)
    requires forall c :: c in cs ==> (c in m <==> c in n)
    ensures Among(cs, m) == Among(cs, n)
  {
    if cs != [] { AmongDependsOnOwn(cs[1..], m, n); }
  }

  lemma {:induction false} AmongAll(cs: seq<nat>, m: set<nat>)
    requires forall c :: c in cs ==> c in m
    ensures Among(cs, m) == cs
  {
    if cs != [] { AmongAll(cs[1..], m); }
  }

  lemma {:induction false} AmongNone(cs: seq<nat>, m: set<nat>)
    requires forall c :: c in cs ==> c !in m
    ensures Among(cs, m) == []
  {
    if cs != [] { AmongNone(cs[1..], m); }
  }

  lemma {:induction false} WithoutTakesOne(cs: seq<nat>, c: nat)
    requires c in cs
    ensures multiset(cs) == multiset(Without(cs, c)) + multiset{c} && |Without(cs, c)| == |cs| - 1
  {
    assert cs == [cs[0]] + cs[1..];
    if cs[0] != c { WithoutTakesOne(cs[1..], c); }
  }

  lemma {:induction false} LateSplits(s: Modeler, cs: seq<nat>, now: int)
    ensures multiset(cs) == multiset(Late(s, cs, now, true)) + multiset(Late(s, cs, now, false))
    ensures |cs| == |Late(s, cs, now, true)| + |Late(s, cs, now, false)|
    ensures forall c :: c in Late(s, cs, now, true) <==> c in cs && Expired(s, c, now)
    ensures forall c :: c in Late(s, cs, now, false) <==> c in cs && !Expired(s, c, now)
  {
    if cs != [] {
      assert cs == [cs[0]] + cs[1..];
      LateSplits(s, cs[1..], now);
    }
  }

  lemma {:induction false} SetOfOnce(cs: seq<nat>)
    requires forall c :: c in cs ==> multiset(cs)[c] <= 1
    ensures |SetOf(cs)| == |cs|
  {
    if cs != [] {
      var rest := cs[1..];
      assert cs == [cs[0]] + rest;
      assert multiset(cs) == multiset{cs[0]} + multiset(rest);
      forall c | c in rest ensures multiset(rest)[c] <= 1 { assert c in cs; }
      SetOfOnce(rest);
      assert multiset(cs)[cs[0]] == 1 + multiset(rest)[cs[0]] && cs[0] in cs;
      assert cs[0] !in rest;
      assert SetOf(cs) == {cs[0]} + SetOf(rest);
    }
  }

  /** No client occurs twice, among the running and the finished together. */
  lemma OnceEach(s: Modeler, c: nat)
    requires ClientsKept(s)
    ensures multiset(s.clients)[c] + multiset(s.everFinished)[c] == if c < |s.timeouts| then 1 else 0
  {
    NumbersAre(|s.timeouts|, c);
    assert (multiset(s.clients) + multiset(s.everFinished))[c] == multiset(s.clients)[c] + multiset(s.everFinished)[c];
  }

  lemma OneMore(cs: seq<nat>, c: nat)
    ensures multiset(cs + [c]) == multiset(cs) + multiset{c}
  {
  }

  lemma MultisetsRegroup(a: multiset<nat>, b: multiset<nat>, c: multiset<nat>)
    ensures (a + b) + c == a + (b + c)
  {
  }

  lemma FromStep(lo: nat, n: nat)
    ensures From(lo, 0) == []
    ensures n > 0 ==> From(lo, n) == From(lo, n - 1) + [lo + n - 1]
    ensures n > 0 ==> Numbers(lo + n) == Numbers(lo + n - 1) + multiset{lo + n - 1}
  {
  }

  lemma {:induction false} FromIsNumbers(lo: nat, n: nat)
    ensures Numbers(lo + n) == Numbers(lo) + multiset(From(lo, n)) && |From(lo, n)| == n
    decreases n
  {
    hide Numbers, From;
    FromStep(lo, n);
    if n > 0 {
      var last: nat := lo + n - 1;
      FromIsNumbers(lo, n - 1);
      OneMore(From(lo, n - 1), last);
      MultisetsRegroup(Numbers(lo), multiset(From(lo, n - 1)), multiset{last});
    }
  }

  // ----- every step -----

  lemma CheckStopKeeps(s: Modeler)
    requires Valid(s)
    ensures Valid(CheckStop(s))
  {
    PeekingKeeps(s.devicegen);
    var t := CheckStop(s);
    if t.reports != s.reports {
      assert t.reports[..|t.reports| - 1] == s.reports;
      EndsInNothing(t.everFinished);
      assert Among([], s.timedOut) == [];
    }
  }

  lemma RequestKeeps(s: Modeler)
    requires Valid(s) && s.devicegen.Some? && !s.pending && |s.clients| < s.parallel
    ensures Valid(Request(s))
  {
    NextTakesTheFirst(s.devicegen.value);
    if Next(s.devicegen.value).None? {
      CheckStopKeeps(s.(devicegen := None));
    } else {
      var d := Next(s.devicegen.value).value;
      assert s.requested + ([d.item] + Contents(d.gen)) == (s.requested + [d.item]) + Contents(d.gen);
    }
  }

  /** Filling keeps everything, and leaves a free slot only when the hub is being asked or no device is left. */
  lemma FillKeeps(s: Modeler)
    requires Valid(s) && s.started
    ensures Valid(Fill(s))
    ensures Fill(s).pending || |Fill(s).clients| >= s.parallel || Left(Fill(s).devicegen) == []
  {
    PeekingKeeps(s.devicegen);
    var t := s.(devicegen := Peeked(s.devicegen));
    PeekingKeeps(t.devicegen);
    assert Valid(t);
    if |s.clients| >= s.parallel {
      CheckStopKeeps(s);
    } else if HasItems(s.devicegen) && !s.pending {
      RequestKeeps(t);
    } else {
      CheckStopKeeps(t);
    }
    if t.devicegen.Some? { NextTakesTheFirst(t.devicegen.value); }
  }

  lemma CollectedKeeps(s: Modeler, deadlines: seq<int>)
    requires Valid(s) && s.pending && s.added + |deadlines| <= 5
    ensures Valid(Collected(s, deadlines))
  {
    hide Among, Numbers, Sum, Contents, From;
    var added := From(|s.timeouts|, |deadlines|);
    FromIsNumbers(|s.timeouts|, |deadlines|);
    assert multiset(s.clients + added) == multiset(s.clients) + multiset(added);
  }

  lemma FinishKeeps(s: Modeler, c: nat)
    requires Valid(s) && s.started
    ensures Valid(Finish(s, c))
  {
    hide Without, Among, Numbers, Sum, Contents;
    if c in s.clients {
      WithoutTakesOne(s.clients, c);
      OneMore(s.everFinished, c);
      EndsInMore(s.everFinished, s.finished, [c]);
      OnceEach(s, c);
      assert c !in s.timedOut;
      AmongJoins(s.finished, [c], s.timedOut);
      AmongNone([c], s.timedOut);
    }
  }

  lemma LateAreNew(s: Modeler, late: seq<nat>)
    requires ClientsKept(s) && FinishedKept(s) && multiset(late) <= multiset(s.clients)
    ensures |s.timedOut + SetOf(late)| == |s.timedOut| + |late|
    ensures |Among(s.finished + late, s.timedOut + SetOf(late))| == |Among(s.finished, s.timedOut)| + |late|
  {
    var added := SetOf(late);
    forall c | c in late ensures multiset(late)[c] <= 1 && c !in s.everFinished {
      OnceEach(s, c);
      assert multiset(late)[c] <= multiset(s.clients)[c];
    }
    SetOfOnce(late);
    assert s.timedOut !! added;
    AmongJoins(s.finished, late, s.timedOut + added);
    AmongAll(late, s.timedOut + added);
    forall c | c in s.finished ensures c in s.everFinished { EndsInHolds(s.everFinished, s.finished, c); }
    AmongDependsOnOwn(s.finished, s.timedOut, s.timedOut + added);
  }

  lemma TimeOutKeeps(s: Modeler, now: int)
    requires Valid(s) && s.started
    ensures Valid(TimeOut(s, now))
  {
    hide Late, Among, Numbers, Sum, Contents;
    var late := Late(s, s.clients, now, true);
    LateSplits(s, s.clients, now);
    LateAreNew(s, late);
    EndsInMore(s.everFinished, s.finished, late);
    assert multiset(s.everFinished + late) == multiset(s.everFinished) + multiset(late);
  }

  /**
   The timer takes out exactly the running clients whose deadline is past: they are finished and marked as timed out,
   the others go on running.
   */
  lemma TimeOutTakes(s: Modeler, now: int, c: nat)
    requires Valid(s) && c < |s.timeouts|
    ensures var t := TimeOut(s, now);
            && (c in t.clients <==> c in s.clients && s.timeouts[c] >= now)
            && (c in t.finished <==> c in s.finished || (c in s.clients && s.timeouts[c] < now))
            && (c in t.timedOut <==> c in s.timedOut || (c in s.clients && s.timeouts[c] < now))
            && |t.clients| + |t.finished| == |s.clients| + |s.finished|
            && t == s.(clients := t.clients, finished := t.finished, everFinished := t.everFinished,
                       timedOut := t.timedOut)
  {
    hide Late;
    LateSplits(s, s.clients, now);
    OnceEach(s, c);
  }

  lemma StartCycleKeeps(s: Modeler)
    requires Valid(s)
    ensures s.started ==> Valid(StartCycle(s))
    ensures !s.started ==> Valid(StartCycle(s.(started := true, finished := [])))
  {
  }

  lemma ListedKeeps(s: Modeler, names: seq<string>)
    requires Valid(s) && s.awaiting > 0
    ensures Valid(Listed(s, names)) && Listed(s, names).started
  {
    assert [] + names == names;
  }

  lemma StepKeeps(s: Modeler, e: Event)
    requires Valid(s) && Legal(s, e)
    ensures Valid(Step(s, e)) && Step(s, e).parallel == s.parallel
  {
    StartsFirst(s, e);
    hide Valid, CheckStop, Fill, Finish, TimeOut, Listed, StartCycle;
    ParallelStays(s, e);
    match e
    case Main => StartCycleKeeps(s);
    case MainLoop => StartCycleKeeps(s);
    case DeviceList(names) =>
      ListedKeeps(s, names);
      FillKeeps(Listed(s, names));
    case ClientAdded(deadline) => CollectedKeeps(s, [deadline]);
    case ConfigEnds =>
      UnpendingKeeps(s);
      CheckStopKeeps(s.(pending := false));
    case ConfigFails => UnpendingKeeps(s);
    case ClientFinishes(c) =>
      FinishKeeps(s, c);
      StartedStays(s, c, 0);
      FillKeeps(Finish(s, c));
    case TimeoutTick(now) =>
      TimeOutKeeps(s, now);
      StartedStays(s, 0, now);
      FillKeeps(TimeOut(s, now));
    case CheckStops => CheckStopKeeps(s);
  }

  lemma StartsFirst(s: Modeler, e: Event)
    requires Valid(s) && Legal(s, e)
    ensures s.started || e.Main?
  {
  }

  lemma ParallelStays(s: Modeler, e: Event)
    requires Legal(s, e)
    ensures Step(s, e).parallel == s.parallel
  {
  }

  lemma UnpendingKeeps(s: Modeler)
    requires Valid(s) && s.pending
    ensures Valid(s.(pending := false))
  {
  }

  lemma StartedStays(s: Modeler, c: nat, now: int)
    ensures Finish(s, c).started == s.started && TimeOut(s, now).started == s.started
  {
  }

  lemma {:induction false} RunKeeps(s: Modeler, es: seq<Event>)
    requires Valid(s) && LegalRun(s, es)
    ensures Valid(Run(s, es))
    decreases es
  {
    hide Valid, Step, Legal;
    if es != [] {
      StepKeeps(s, es[0]);
      RunKeeps(Step(s, es[0]), es[1..]);
    }
  }

  lemma {:induction false} RunKeepsParallel(s: Modeler, es: seq<Event>)
    requires LegalRun(s, es)
    ensures Run(s, es).parallel == s.parallel
    decreases es
  {
    hide Step, Legal;
    if es != [] {
      ParallelStays(s, es[0]);
      RunKeepsParallel(Step(s, es[0]), es[1..]);
    }
  }

  // ----- what this means for every run -----

  /** Each client ever added is running or has finished, never both, and finishes at most once. */
  lemma EachClientFinishesOnce(parallel: nat, es: seq<Event>, c: nat)
    requires LegalRun(Idle(parallel), es)
    ensures var s := Run(Idle(parallel), es);
            && multiset(s.clients)[c] + multiset(s.everFinished)[c] == (if c < |s.timeouts| then 1 else 0)
            && (c in s.finished ==> c !in s.clients)
  {
    hide Run, LegalRun;
    RunKeeps(Idle(parallel), es);
    var s := Run(Idle(parallel), es);
    OnceEach(s, c);
    if c in s.finished { EndsInHolds(s.everFinished, s.finished, c); }
  }

  /** Whatever was reported, is finished or still runs adds up to the clients ever added. */
  lemma ReportsAddUp(parallel: nat, es: seq<Event>)
    requires LegalRun(Idle(parallel), es)
    ensures var s := Run(Idle(parallel), es);
            && Sum(s.reports).devices + |s.finished| + |s.clients| == |s.timeouts|
            && Sum(s.reports).timedOut + |Among(s.finished, s.timedOut)| == |s.timedOut|
  {
    hide Run, LegalRun;
    RunKeeps(Idle(parallel), es);
    NumbersSize(|Run(Idle(parallel), es).timeouts|);
  }

  lemma {:induction false} NumbersSize(n: nat)
    ensures |Numbers(n)| == n
  {
    if n > 0 { NumbersSize(n - 1); }
  }

  /** Devices are requested in the order of the list, each once, for all the peeking in between. */
  lemma DevicesInOrder(parallel: nat, es: seq<Event>)
    requires LegalRun(Idle(parallel), es)
    ensures var s := Run(Idle(parallel), es);
            s.devices == s.requested + Left(s.devicegen)
  {
    hide Run, LegalRun;
    RunKeeps(Idle(parallel), es);
  }

  lemma IdleIsValid(parallel: nat)
    ensures Valid(Idle(parallel))
  {
  }

  lemma SlotsOf(s: Modeler)
    requires Valid(s)
    ensures |s.clients| <= s.parallel + 4
  {
  }

  lemma SlotsAreBounded(parallel: nat, es: seq<Event>)
    requires LegalRun(Idle(parallel), es)
    ensures |Run(Idle(parallel), es).clients| <= parallel + 4
  {
    hide Run, LegalRun, Valid;
    IdleIsValid(parallel);
    RunKeepsParallel(Idle(parallel), es);
    RunKeeps(Idle(parallel), es);
    SlotsOf(Run(Idle(parallel), es));
  }

  /** A cycle is reported only when each of its devices was requested and every client is done. */
  lemma ReportsAreFinal(s: Modeler, e: Event)
    requires Valid(s) && Legal(s, e) && Step(s, e).reports != s.reports
    ensures var t := Step(s, e);
            t.requested == t.devices && t.clients == [] && !t.pending && t.finished == []
  {
    StepKeeps(s, e);
    StepReports(s, e);
    DevicesDone(Step(s, e));
  }

  lemma DevicesDone(s: Modeler)
    requires Valid(s) && Left(s.devicegen) == []
    ensures s.requested == s.devices
  {
  }

  lemma StepReports(s: Modeler, e: Event)
    requires Legal(s, e) && Step(s, e).reports != s.reports
    ensures var t := Step(s, e); t.clients == [] && !t.pending && t.finished == [] && Left(t.devicegen) == []
  {
    hide CheckStop, Fill, Left;
    match e
    case Main => assert false;
    case MainLoop => assert false;
    case ConfigFails => assert false;
    case DeviceList(names) => FillReports(Listed(s, names));
    case ClientAdded(_) => assert false;
    case ConfigEnds => CheckReports(s.(pending := false));
    case ClientFinishes(c) => FillReports(Finish(s, c));
    case TimeoutTick(now) => FillReports(TimeOut(s, now));
    case CheckStops => CheckReports(s);
  }

  lemma CheckReports(s: Modeler)
    requires CheckStop(s).reports != s.reports
    ensures var t := CheckStop(s); t.clients == [] && !t.pending && t.finished == [] && Left(t.devicegen) == []
  {
    PeekingKeeps(s.devicegen);
  }

  lemma FillReports(s: Modeler)
    requires Fill(s).reports != s.reports
    ensures var t := Fill(s); t.clients == [] && !t.pending && t.finished == [] && Left(t.devicegen) == []
  {
    if |s.clients| >= s.parallel {
      CheckReports(s);
    } else if !HasItems(s.devicegen) || s.pending {
      CheckReports(s.(devicegen := Peeked(s.devicegen)));
    }
  }

  // ----- what each event sees to -----

  /** A cycle is under way, nothing is pending, running or left: its end is to be reported. */
  predicate Overdue(s: Modeler) {
    s.start && !s.pending && s.clients == [] && Left(s.devicegen) == []
  }

  lemma CheckStopSees(s: Modeler)
    ensures !Overdue(CheckStop(s))
    ensures CheckStop(s).reports != s.reports <==> Overdue(s)
    ensures !Overdue(s) ==> CheckStop(s).start == s.start
  {
    PeekingKeeps(s.devicegen);
  }

  lemma FillSees(s: Modeler)
    ensures !Overdue(Fill(s))
  {
    hide CheckStop, Overdue;
    var t := s.(devicegen := Peeked(s.devicegen));
    PeekingKeeps(s.devicegen);
    CheckStopSees(s);
    CheckStopSees(t);
    if t.devicegen.Some? { CheckStopSees(t.(devicegen := None)); }
    PendingIsNotOverdue(Fill(s));
  }

  lemma PendingIsNotOverdue(s: Modeler)
    ensures s.pending ==> !Overdue(s)
  {
  }

  /** After a device list, a client's answer, a finish, a tick of the timer or a check no end of a cycle is overdue. */
  lemma EndsAreReported(s: Modeler, e: Event)
    requires Legal(s, e) && (e.DeviceList? || e.ConfigEnds? || e.ClientFinishes? || e.TimeoutTick? || e.CheckStops?)
    ensures !Overdue(Step(s, e))
  {
    hide Fill, CheckStop, Overdue;
    match e
    case DeviceList(names) => FillSees(Listed(s, names));
    case ConfigEnds => CheckStopSees(s.(pending := false));
    case ClientFinishes(c) => FillSees(Finish(s, c));
    case TimeoutTick(now) => FillSees(TimeOut(s, now));
    case CheckStops => CheckStopSees(s);
  }

  /** After a device list, a finish or a tick a slot is free only while the hub is asked or when no device is left. */
  lemma SlotsAreFilled(s: Modeler, e: Event)
    requires Valid(s) && Legal(s, e) && (e.DeviceList? || e.ClientFinishes? || e.TimeoutTick?)
    ensures var t := Step(s, e); t.pending || |t.clients| >= t.parallel || Left(t.devicegen) == []
  {
    StartsFirst(s, e);
    ParallelStays(s, e);
    hide Fill, Finish, TimeOut, Listed, Valid;
    match e
    case DeviceList(names) =>
      ListedKeeps(s, names);
      ParallelOf(s, names, 0, 0);
      FillKeeps(Listed(s, names));
    case ClientFinishes(c) =>
      FinishKeeps(s, c);
      StartedStays(s, c, 0);
      ParallelOf(s, [], c, 0);
      FillKeeps(Finish(s, c));
    case TimeoutTick(now) =>
      TimeOutKeeps(s, now);
      StartedStays(s, 0, now);
      ParallelOf(s, [], 0, now);
      FillKeeps(TimeOut(s, now));
  }

  lemma ParallelOf(s: Modeler, names: seq<string>, c: nat, now: int)
    ensures Finish(s, c).parallel == s.parallel && TimeOut(s, now).parallel == s.parallel
    ensures s.awaiting > 0 ==> Listed(s, names).parallel == s.parallel
  {
  }

  /** A cycle starts, and asks for a device list, exactly when no client runs. */
  lemma CyclesStart(s: Modeler, e: Event)
    requires Legal(s, e) && (e.Main? || e.MainLoop?)
    ensures var t := Step(s, e);
            if s.clients == [] then t.start && t.awaiting == s.awaiting + 1
            else t.start == s.start && t.awaiting == s.awaiting
  {
  }

  // ----- the bound on the slots is reached -----

  /** A device answers with one client that never times out, and the next second the next device is asked for. */
  function Round(): seq<Event> {
    [ClientAdded(0), ConfigEnds, TimeoutTick(0)]
  }

  /** The hub is being asked, n clients run and never time out, and left devices are to come. */
  ghost predicate Asking(s: Modeler, n: nat, left: nat) {
    && s.started && s.pending && s.added == 0 && |s.clients| == n && |Left(s.devicegen)| == left
    && forall k :: 0 <= k < |s.timeouts| ==> s.timeouts[k] >= 0
  }

  lemma {:induction false} NoneLate(s: Modeler, cs: seq<nat>)
    requires forall k :: 0 <= k < |s.timeouts| ==> s.timeouts[k] >= 0
    ensures Late(s, cs, 0, true) == [] && Late(s, cs, 0, false) == cs
  {
    if cs != [] { NoneLate(s, cs[1..]); }
  }

  lemma FillAsks(s: Modeler)
    requires s.started && !s.pending && |s.clients| < s.parallel && Left(s.devicegen) != []
    ensures var t := Fill(s);
            && t.pending && t.added == 0 && t.clients == s.clients && t.timeouts == s.timeouts && t.started
            && t.parallel == s.parallel && |Left(t.devicegen)| == |Left(s.devicegen)| - 1
  {
    PeekingKeeps(s.devicegen);
    NextTakesTheFirst(Peeked(s.devicegen).value);
  }

  lemma OneAdded(s: Modeler)
    ensures Collected(s, [0]).clients == s.clients + [|s.timeouts|] && Collected(s, [0]).timeouts == s.timeouts + [0]
  {
    assert From(|s.timeouts|, 1) == From(|s.timeouts|, 0) + [|s.timeouts|];
  }

  lemma OneRound(s: Modeler, n: nat, left: nat)
    requires Asking(s, n, left) && n + 1 < s.parallel && left > 0
    ensures LegalRun(s, Round()) && Asking(Run(s, Round()), n + 1, left - 1) && Run(s, Round()).parallel == s.parallel
  {
    OneAdded(s);
    var s1 := Step(s, ClientAdded(0));
    var s2 := Step(s1, ConfigEnds);
    assert s2 == s1.(pending := false);
    NoneLate(s2, s2.clients);
    FillAsks(TimeOut(s2, 0));
    TwoSteps(s1, ConfigEnds, TimeoutTick(0));
    assert Round()[1..] == [ConfigEnds, TimeoutTick(0)];
  }

  lemma {:induction false} RunsJoin(s: Modeler, a: seq<Event>, b: seq<Event>)
    requires LegalRun(s, a) && LegalRun(Run(s, a), b)
    ensures LegalRun(s, a + b) && Run(s, a + b) == Run(Run(s, a), b)
    decreases a
  {
    if a == [] {
      assert a + b == b;
    } else {
      assert (a + b)[0] == a[0] && (a + b)[1..] == a[1..] + b;
      RunsJoin(Step(s, a[0]), a[1..], b);
    }
  }

  /** The last device answers with five clients. */
  lemma LastAnswer(s: Modeler) returns (es: seq<Event>)
    requires s.pending && s.added == 0
    ensures LegalRun(s, es) && |Run(s, es).clients| == |s.clients| + 5
  {
    es := Additions(s, 5);
  }

  lemma {:induction false} Additions(s: Modeler, n: nat) returns (es: seq<Event>)
    requires s.pending && s.added + n <= 5
    ensures LegalRun(s, es) && |Run(s, es).clients| == |s.clients| + n
    decreases n
  {
    if n == 0 {
      es := [];
    } else {
      OneAdded(s);
      var rest := Additions(Step(s, ClientAdded(0)), n - 1);
      es := [ClientAdded(0)] + rest;
      assert es[1..] == rest;
    }
  }

  /** The run from a state in which the hub is being asked for the last but left of the devices. */
  lemma {:induction false} Fills(s: Modeler, n: nat) returns (es: seq<Event>)
    requires n < s.parallel && Asking(s, n, s.parallel - 1 - n)
    ensures LegalRun(s, es) && |Run(s, es).clients| == s.parallel + 4
    decreases s.parallel - n
  {
    if n + 1 == s.parallel {
      es := LastAnswer(s);
    } else {
      hide Asking, Legal, Step, Round;
      OneRound(s, n, s.parallel - 1 - n);
      var rest := Fills(Run(s, Round()), n + 1);
      RunsJoin(s, Round(), rest);
      es := Round() + rest;
    }
  }

  lemma TwoSteps(s: Modeler, d: Event, e: Event)
    requires Legal(s, d) && Legal(Step(s, d), e)
    ensures LegalRun(s, [d, e]) && Run(s, [d, e]) == Step(Step(s, d), e)
  {
    assert [d, e][1..] == [e] && [e][1..] == [];
    assert Run(Step(s, d), [e]) == Step(Step(s, d), e);
  }

  /** For every number of slots some run has four clients more than that, so the bound cannot be lowered. */
  lemma BoundIsReached(parallel: nat) returns (es: seq<Event>)
    requires parallel > 0
    ensures LegalRun(Idle(parallel), es) && |Run(Idle(parallel), es).clients| == parallel + 4
  {
    var names := seq(parallel, _ => "d");
    var begin := [Main, DeviceList(names)];
    var main := Step(Idle(parallel), Main);
    var s := Listed(main, names);
    FillAsks(s);
    TwoSteps(Idle(parallel), Main, DeviceList(names));
    var rest := Fills(Fill(s), 0);
    RunsJoin(Idle(parallel), begin, rest);
    es := begin + rest;
  }
}
