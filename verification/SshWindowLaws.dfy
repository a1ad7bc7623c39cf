/** What holds in every run of an SSH session: nothing is lost, the window is kept, it is used, and when it ends. */
module SshWindowLaws {
  import opened Wrappers
  import opened SshWindowState

  /** Commands have a channel in the order they came, and the rest wait in that order. */
  ghost predicate Ordered(s: Window) {
    s.commands == Commands(s.channels) + s.workList
  }

  /** A failed channel keeps its session. */
  ghost predicate Counted(s: Window) {
    s.openSessions == Count(s, IsOpen) + Count(s, IsFailed) && s.openSessions <= s.limit
  }

  ghost predicate Collected(s: Window) {
    |s.results| == Count(s, IsDone) && multiset(s.results) == multiset(Answers(s.cmdmap, s.channels))
  }

  ghost predicate Busy(s: Window) {
    if s.connected then s.workList == [] || s.openSessions == s.limit else s.channels == []
  }

  ghost predicate Valid(s: Window) {
    Ordered(s) && Counted(s) && Collected(s) && Busy(s)
  }

  // ----- one channel changes -----

  lemma {:induction false} OfJoins(a: seq<Channel>, b: seq<Channel>, kind: Kind)
    ensures Of(a + b, kind) == Of(a, kind) + Of(b, kind)
  {
    if a == [] {
      assert a + b == b;
    } else {
      var head := if KindOf(a[0].status) == kind then [a[0]] else [];
      assert (a + b)[1..] == a[1..] + b;
      OfJoins(a[1..], b, kind);
      assert head + (Of(a[1..], kind) + Of(b, kind)) == (head + Of(a[1..], kind)) + Of(b, kind);
    }
  }

  lemma {:induction false} AnswersJoin(m: map<string, string>, a: seq<Channel>, b: seq<Channel>)
    ensures Answers(m, a + b) == Answers(m, a) + Answers(m, b)
  {
    if a == [] {
      assert a + b == b;
    } else {
      var head := if a[0].status.Done? then [AnswerOf(m, a[0].command, a[0].status.data)] else [];
      assert (a + b)[1..] == a[1..] + b;
      AnswersJoin(m, a[1..], b);
      assert head + (Answers(m, a[1..]) + Answers(m, b)) == (head + Answers(m, a[1..])) + Answers(m, b);
    }
  }

  lemma OfOne(c: Channel, kind: Kind)
    ensures Of([c], kind) == if KindOf(c.status) == kind then [c] else []
  {
    assert [c][1..] == [];
  }

  lemma AnswersOne(m: map<string, string>, c: Channel)
    ensures Answers(m, [c]) == if c.status.Done? then [AnswerOf(m, c.command, c.status.data)] else []
  {
    assert [c][1..] == [];
  }

  /** Replacing one channel moves it from one kind to another. */
  lemma OfReplaced(cs: seq<Channel>, k: nat, c: Channel, kind: Kind)
    requires k < |cs|
    ensures |Of(cs[k := c], kind)| == |Of(cs, kind)| - (if KindOf(cs[k].status) == kind then 1 else 0)
                                      + (if KindOf(c.status) == kind then 1 else 0)
  {
    assert cs == cs[..k] + ([cs[k]] + cs[k + 1..]);
    assert cs[k := c] == cs[..k] + ([c] + cs[k + 1..]);
    OfJoins(cs[..k], [cs[k]] + cs[k + 1..], kind);
    OfJoins([cs[k]], cs[k + 1..], kind);
    OfJoins(cs[..k], [c] + cs[k + 1..], kind);
    OfJoins([c], cs[k + 1..], kind);
    OfOne(cs[k], kind);
    OfOne(c, kind);
  }

  lemma AnswersReplaced(m: map<string, string>, cs: seq<Channel>, k: nat, c: Channel)
    requires k < |cs| && cs[k].status.Open? && c.command == cs[k].command
    ensures multiset(Answers(m, cs[k := c]))
            == multiset(Answers(m, cs))
                + (if c.status.Done? then multiset{AnswerOf(m, c.command, c.status.data)} else multiset{})
  {
    assert cs == cs[..k] + ([cs[k]] + cs[k + 1..]);
    assert cs[k := c] == cs[..k] + ([c] + cs[k + 1..]);
    AnswersJoin(m, cs[..k], [cs[k]] + cs[k + 1..]);
    AnswersJoin(m, [cs[k]], cs[k + 1..]);
    AnswersJoin(m, cs[..k], [c] + cs[k + 1..]);
    AnswersJoin(m, [c], cs[k + 1..]);
    AnswersOne(m, cs[k]);
    AnswersOne(m, c);
  }

  lemma {:induction false} OpenChannels(cs: seq<Channel>)
    requires forall k :: 0 <= k < |cs| ==> cs[k].status.Open?
    ensures Of(cs, IsOpen) == cs && Of(cs, IsFailed) == [] && Of(cs, IsDone) == []
  {
    if cs != [] { OpenChannels(cs[1..]); }
  }

  lemma {:induction false} OpenAnswers(m: map<string, string>, cs: seq<Channel>)
    requires forall k :: 0 <= k < |cs| ==> cs[k].status.Open?
    ensures Answers(m, cs) == []
  {
    if cs != [] { OpenAnswers(m, cs[1..]); }
  }

  // ----- every step -----

  lemma OpenedAppends(cs: seq<Channel>, added: seq<Channel>, m: map<string, string>)
    requires forall k :: 0 <= k < |added| ==> added[k].status.Open?
    ensures |Of(cs + added, IsOpen)| == |Of(cs, IsOpen)| + |added|
    ensures Of(cs + added, IsDone) == Of(cs, IsDone) && Of(cs + added, IsFailed) == Of(cs, IsFailed)
    ensures Answers(m, cs + added) == Answers(m, cs)
  {
    OfJoins(cs, added, IsOpen);
    OfJoins(cs, added, IsFailed);
    OfJoins(cs, added, IsDone);
    OpenChannels(added);
    OpenAnswers(m, added);
    AnswersJoin(m, cs, added);
  }

  lemma OpenedOrder(s: Window, n: nat)
    requires n <= |s.workList| && Ordered(s)
    ensures Ordered(Opened(s, n))
  {
    assert Commands(Opened(s, n).channels) == Commands(s.channels) + s.workList[..n];
    assert s.workList == s.workList[..n] + s.workList[n..];
  }

  /** Opening channels keeps the order and the counts. */
  lemma OpenedKeeps(s: Window, n: nat)
    requires n <= |s.workList| && Ordered(s) && Counted(s) && Collected(s) && s.openSessions + n <= s.limit
    ensures Ordered(Opened(s, n)) && Counted(Opened(s, n)) && Collected(Opened(s, n))
    ensures Count(Opened(s, n), IsFailed) == Count(s, IsFailed)
  {
    hide Of, Answers;
    OpenedOrder(s, n);
    OpenedAppends(s.channels, seq(n, k requires 0 <= k < n => Channel(s.workList[k], Open)), s.cmdmap);
  }

  lemma RunCommandsKeeps(s: Window)
    requires Ordered(s) && Counted(s) && Collected(s) && s.connected
    ensures Valid(RunCommands(s)) && Count(RunCommands(s), IsFailed) == Count(s, IsFailed)
  {
    hide Of, Answers;
    OpenedKeeps(s, Room(s));
  }

  /** Between the result and the next command the counts are kept, with one session less. */
  lemma RecordedKeeps(s: Window, k: nat, data: string)
    requires Valid(s) && Legal(s, Closes(k, data))
    ensures var t := Recorded(s, k, data);
            && Ordered(t) && Counted(t) && Collected(t) && t.openSessions < t.limit
            && Count(t, IsFailed) == Count(s, IsFailed) && Count(t, IsOpen) == Count(s, IsOpen) - 1
  {
    hide Of, Answers;
    var c := s.channels[k].(status := Done(data));
    OfReplaced(s.channels, k, c, IsOpen);
    OfReplaced(s.channels, k, c, IsFailed);
    OfReplaced(s.channels, k, c, IsDone);
    AnswersReplaced(s.cmdmap, s.channels, k, c);
    assert Commands(s.channels[k := c]) == Commands(s.channels);
  }

  lemma ClosesKeeps(s: Window, k: nat, data: string)
    requires Valid(s) && Legal(s, Closes(k, data))
    ensures Valid(Step(s, Closes(k, data))) && Count(Step(s, Closes(k, data)), IsFailed) == Count(s, IsFailed)
  {
    hide Of, Answers;
    RecordedKeeps(s, k, data);
    var t := Recorded(s, k, data);
    CommandsSplit(t);
    if !CommandsFinished(t) && t.workList != [] {
      OpenedKeeps(t, 1);
    }
  }

  lemma OpenFailsKeeps(s: Window, k: nat)
    requires Valid(s) && Legal(s, OpenFails(k))
    ensures Valid(Step(s, OpenFails(k))) && Count(Step(s, OpenFails(k)), IsFailed) == Count(s, IsFailed) + 1
  {
    hide Of, Answers;
    var c := s.channels[k].(status := Failed);
    OfReplaced(s.channels, k, c, IsOpen);
    OfReplaced(s.channels, k, c, IsFailed);
    OfReplaced(s.channels, k, c, IsDone);
    AnswersReplaced(s.cmdmap, s.channels, k, c);
    assert Commands(s.channels[k := c]) == Commands(s.channels);
  }

  lemma StepKeeps(s: Window, e: Event)
    requires Valid(s) && Legal(s, e)
    ensures Valid(Step(s, e))
    ensures Count(Step(s, e), IsFailed) == Count(s, IsFailed) + if e.OpenFails? then 1 else 0
  {
    hide Of, Answers;
    match e
    case ServiceStarted => RunCommandsKeeps(s.(connected := true));
    case AddCommands(cs) =>
      assert s.commands + cs == Commands(s.channels) + (s.workList + cs);
      if s.connected { RunCommandsKeeps(s.(commands := s.commands + cs, workList := s.workList + cs)); }
    case Closes(k, data) => ClosesKeeps(s, k, data);
    case OpenFails(k) => OpenFailsKeeps(s, k);
  }

  /**
   In every reachable state: first in first out, at most limit sessions, every answer kept, the window full
   while commands wait.
   */
  lemma {:induction false} RunKeeps(s: Window, es: seq<Event>)
    requires Valid(s) && LegalRun(s, es)
    ensures Valid(Run(s, es))
    decreases es
  {
    if es != [] {
      StepKeeps(s, es[0]);
      RunKeeps(Step(s, es[0]), es[1..]);
    }
  }

  lemma FreshIsValid(limit: nat, plugins: seq<(string, string)>)
    ensures Valid(Fresh(limit, plugins))
  {
    var s := Fresh(limit, plugins);
    assert Commands(s.channels) == [];
  }

  // ----- what this means -----

  lemma CommandsCons(c: Channel, cs: seq<Channel>)
    ensures multiset(Commands([c] + cs)) == multiset{c.command} + multiset(Commands(cs))
  {
    assert Commands([c] + cs) == [c.command] + Commands(cs);
  }

  /** Each command is waiting, open, completed or failed, as often as it was given. */
  lemma {:induction false} ChannelsSplit(cs: seq<Channel>)
    ensures |cs| == |Of(cs, IsOpen)| + |Of(cs, IsDone)| + |Of(cs, IsFailed)|
    ensures multiset(Commands(cs))
            == multiset(Commands(Of(cs, IsOpen))) + multiset(Commands(Of(cs, IsDone)))
            + multiset(Commands(Of(cs, IsFailed)))
  {
    hide Commands;
    if cs == [] {
      NoCommands();
    } else {
      ChannelsSplit(cs[1..]);
      var c, kind := cs[0], KindOf(cs[0].status);
      assert cs == [c] + cs[1..];
      CommandsCons(c, cs[1..]);
      CommandsCons(c, Of(cs[1..], kind));
      assert Of(cs, IsOpen) == if kind == IsOpen then [c] + Of(cs[1..], IsOpen) else Of(cs[1..], IsOpen);
      assert Of(cs, IsDone) == if kind == IsDone then [c] + Of(cs[1..], IsDone) else Of(cs[1..], IsDone);
      assert Of(cs, IsFailed) == if kind == IsFailed then [c] + Of(cs[1..], IsFailed) else Of(cs[1..], IsFailed);
    }
  }

  lemma NoCommands()
    ensures Commands([]) == []
  {
  }

  lemma CommandsSplit(s: Window)
    requires Ordered(s)
    ensures |s.commands| == |s.workList| + Count(s, IsOpen) + Count(s, IsDone) + Count(s, IsFailed)
    ensures multiset(s.commands) == multiset(s.workList) + multiset(Commands(Of(s.channels, IsOpen)))
                                    + multiset(Commands(Of(s.channels, IsDone)))
                                        + multiset(Commands(Of(s.channels, IsFailed)))
  {
    ChannelsSplit(s.channels);
  }

  /** Every command of every run is accounted for. */
  lemma NothingIsLost(limit: nat, plugins: seq<(string, string)>, es: seq<Event>)
    requires LegalRun(Fresh(limit, plugins), es)
    ensures var s := Run(Fresh(limit, plugins), es);
            && multiset(s.commands) == multiset(s.workList) + multiset(Commands(Of(s.channels, IsOpen)))
                                       + multiset(Commands(Of(s.channels, IsDone)))
                                           + multiset(Commands(Of(s.channels, IsFailed)))
            && Commands(s.channels) <= s.commands
            && 0 <= s.openSessions <= limit
  {
    FreshIsValid(limit, plugins);
    RunKeeps(Fresh(limit, plugins), es);
    LimitStays(Fresh(limit, plugins), es);
    CommandsSplit(Run(Fresh(limit, plugins), es));
  }

  lemma {:induction false} LimitStays(s: Window, es: seq<Event>)
    requires LegalRun(s, es)
    ensures Run(s, es).limit == s.limit
    decreases es
  {
    if es != [] { LimitStays(Step(s, es[0]), es[1..]); }
  }

  /** All results are there exactly when nothing waits, nothing is open and nothing failed. */
  lemma FinishedMeans(s: Window)
    requires Valid(s)
    ensures CommandsFinished(s) <==> s.workList == [] && Count(s, IsOpen) == 0 && Count(s, IsFailed) == 0
  {
    CommandsSplit(s);
  }

  /** A close reports the client as finished exactly when it leaves nothing to do and nothing failed. */
  lemma CloseReports(s: Window, k: nat, data: string)
    requires Valid(s) && Legal(s, Closes(k, data))
    ensures var t := Step(s, Closes(k, data));
            && t.finishedCalls == s.finishedCalls + (if CommandsFinished(t) then 1 else 0)
            && (CommandsFinished(t) <==> s.workList == [] && Count(s, IsOpen) == 1 && Count(s, IsFailed) == 0)
  {
    hide Of, Answers;
    RecordedKeeps(s, k, data);
    CommandsSplit(Recorded(s, k, data));
  }

  lemma {:induction false} NoneOpen(cs: seq<Channel>)
    ensures |Of(cs, IsOpen)| == 0 <==> forall k :: 0 <= k < |cs| ==> !cs[k].status.Open?
  {
    if cs != [] {
      NoneOpen(cs[1..]);
      assert forall k :: 0 < k < |cs| ==> cs[k] == cs[1..][k - 1];
    }
  }

  /**
   Nothing but new commands can come to a connected session with waiting commands exactly when every session went to a
   failed open.
   */
  lemma StallsWhen(s: Window)
    requires Valid(s) && s.connected && s.workList != []
    ensures (forall e :: Legal(s, e) ==> e.AddCommands?) <==> Count(s, IsFailed) == s.limit
  {
    NoneOpen(s.channels);
    if k :| 0 <= k < |s.channels| && s.channels[k].status.Open? { assert Legal(s, OpenFails(k)); }
  }

  /** And then, whatever comes, no channel is opened any more, and what waits goes on waiting. */
  lemma {:induction false} StallsForever(s: Window, es: seq<Event>)
    requires Valid(s) && s.connected && Count(s, IsFailed) == s.limit && LegalRun(s, es)
    ensures Run(s, es).channels == s.channels && s.workList <= Run(s, es).workList
    decreases es
  {
    hide Of, Answers;
    if es != [] {
      var t := Step(s, es[0]);
      NoneOpen(s.channels);
      StepKeeps(s, es[0]);
      assert Room(s.(commands := t.commands, workList := t.workList)) == 0;
      StallsForever(t, es[1..]);
    }
  }

  /** Only a close or a failed open reports: over every run a client that was given no command never does. */
  lemma {:induction false} SilentWithoutCommands(s: Window, es: seq<Event>)
    requires Valid(s) && LegalRun(s, es) && Run(s, es).commands == []
    ensures CommandsFinished(Run(s, es)) && Run(s, es).finishedCalls == s.finishedCalls
    decreases es
  {
    hide Of, Answers;
    if es == [] {
      CommandsSplit(s);
    } else {
      StepKeeps(s, es[0]);
      CommandsGrow(Step(s, es[0]), es[1..]);
      assert |s.commands| == |s.channels| + |s.workList|;
      SilentWithoutCommands(Step(s, es[0]), es[1..]);
    }
  }

  lemma {:induction false} CommandsGrow(s: Window, es: seq<Event>)
    requires LegalRun(s, es)
    ensures |s.commands| <= |Run(s, es).commands|
    decreases es
  {
    if es != [] { CommandsGrow(Step(s, es[0]), es[1..]); }
  }

  predicate OnlyCloses(es: seq<Event>) {
    forall i :: 0 <= i < |es| ==> es[i].Closes?
  }

  lemma ResultsFit(s: Window)
    requires Valid(s)
    ensures |s.results| <= |s.commands|
  {
    CommandsSplit(s);
  }

  /**
   Without failures and new commands a connected session needs one close for each command not yet
   completed; it is finished after exactly these, and it reports that once.
   */
  lemma {:induction false} FinishesOnce(s: Window, es: seq<Event>)
    requires Valid(s) && s.connected && Count(s, IsFailed) == 0 && LegalRun(s, es) && OnlyCloses(es)
    ensures var t := Run(s, es);
            && |t.results| == |s.results| + |es| <= |s.commands| && t.commands == s.commands
            && t.finishedCalls == s.finishedCalls + (if es != [] && CommandsFinished(t) then 1 else 0)
    decreases es
  {
    hide Of, Answers, Valid;
    ResultsFit(s);
    if es != [] {
      var t := Step(s, es[0]);
      CloseReports(s, es[0].k, es[0].data);
      ClosesKeeps(s, es[0].k, es[0].data);
      assert t.connected && t.commands == s.commands && |t.results| == |s.results| + 1;
      FinishesOnce(t, es[1..]);
    }
  }

  /** After one failed open no close ever reports the client as finished. */
  lemma {:induction false} FailureIsForever(s: Window, es: seq<Event>)
    requires Valid(s) && LegalRun(s, es) && Count(s, IsFailed) > 0
    ensures Count(Run(s, es), IsFailed) > 0 && !CommandsFinished(Run(s, es))
    decreases es
  {
    hide Of, Answers;
    if es != [] {
      StepKeeps(s, es[0]);
      FailureIsForever(Step(s, es[0]), es[1..]);
    } else {
      FinishedMeans(s);
    }
  }

  // ----- a run that stands still -----

  /** Failing one open channel after the other, from the n-th on. */
  lemma {:induction false} FailRest(s: Window, n: nat) returns (es: seq<Event>)
    requires Valid(s) && s.connected && n <= |s.channels| && Count(s, IsOpen) == |s.channels| - n
    requires forall k :: n <= k < |s.channels| ==> s.channels[k].status.Open?
    ensures LegalRun(s, es)
    ensures var t := Run(s, es);
            Valid(t) && t.connected && t.workList == s.workList && Count(t, IsOpen) == 0 && t.limit == s.limit
    decreases |s.channels| - n
  {
    hide Of, Answers;
    if n == |s.channels| {
      es := [];
    } else {
      var e := OpenFails(n);
      OpenFailsKeeps(s, n);
      var rest := FailRest(Step(s, e), n + 1);
      es := [e] + rest;
      assert es[1..] == rest;
    }
  }

  /**
   With more commands than sessions, a session in which every open fails comes to stand still with commands
   waiting.
   */
  lemma StallIsReached(limit: nat, plugins: seq<(string, string)>) returns (es: seq<Event>)
    requires |plugins| > limit
    ensures LegalRun(Fresh(limit, plugins), es)
    ensures var s := Run(Fresh(limit, plugins), es);
            s.connected && s.workList != [] && Count(s, IsOpen) == 0 && Count(s, IsFailed) == limit
  {
    var s := Fresh(limit, plugins);
    FreshIsValid(limit, plugins);
    var t := Step(s, ServiceStarted);
    StepKeeps(s, ServiceStarted);
    assert |t.channels| == limit && |t.workList| == |plugins| - limit;
    OpenChannels(t.channels);
    var rest := FailRest(t, 0);
    es := [ServiceStarted] + rest;
    assert es[1..] == rest;
    StallsWhen(Run(t, rest));
  }

  // ----- whose answers they are -----

  /** The last plugin with the command. */
  ghost predicate LastWith(plugins: seq<(string, string)>, command: string, j: nat) {
    j < |plugins| && plugins[j].1 == command && forall k :: j < k < |plugins| ==> plugins[k].1 != command
  }

  lemma {:induction false} OwnersAre(plugins: seq<(string, string)>, command: string)
    ensures command in Owners(plugins) <==> exists j :: 0 <= j < |plugins| && plugins[j].1 == command
    ensures forall j: nat :: LastWith(plugins, command, j) ==> Owners(plugins)[command] == plugins[j].0
  {
    if plugins != [] {
      var n := |plugins| - 1;
      OwnersAre(plugins[..n], command);
      assert forall k :: 0 <= k < n ==> plugins[..n][k] == plugins[k];
      forall j: nat | LastWith(plugins, command, j) ensures Owners(plugins)[command] == plugins[j].0 {
        if j < n { assert LastWith(plugins[..n], command, j); }
      }
    }
  }

  lemma {:induction false} OwnersStay(s: Window, es: seq<Event>)
    requires LegalRun(s, es)
    ensures Run(s, es).cmdmap == s.cmdmap
    decreases es
  {
    if es != [] { OwnersStay(Step(s, es[0]), es[1..]); }
  }

  /**
   In every run, a close adds one result: the data it came with, for the last plugin that has the command, and for
   none when no plugin has it; and the channel is completed with that data.
   */
  lemma CloseAnswers(limit: nat, plugins: seq<(string, string)>, es: seq<Event>, k: nat, data: string)
    requires LegalRun(Fresh(limit, plugins), es) && Legal(Run(Fresh(limit, plugins), es), Closes(k, data))
    ensures var s := Run(Fresh(limit, plugins), es);
            var t, command := Step(s, Closes(k, data)), s.channels[k].command;
            && |t.results| == |s.results| + 1 && s.results <= t.results && t.results[|s.results|].data == data
            && (t.results[|s.results|].plugin.Some?
                <==> exists j :: 0 <= j < |plugins| && plugins[j].1 == command)
            && (forall j: nat :: LastWith(plugins, command, j)
                                 ==> t.results[|s.results|].plugin == Some(plugins[j].0))
            && t.channels[k] == Channel(command, Done(data))
  {
    OwnersStay(Fresh(limit, plugins), es);
    OwnersAre(plugins, Run(Fresh(limit, plugins), es).channels[k].command);
  }

  // ----- a whole session -----

  /** A failed open is reported, and changes nothing but its channel. */
  lemma OpenFailReports(s: Window, k: nat)
    requires Legal(s, OpenFails(k))
    ensures var t := Step(s, OpenFails(k));
            && t.finishedCalls == s.finishedCalls + 1 && t.channels[k] == Channel(s.channels[k].command, Failed)
            && t == s.(channels := s.channels[k := t.channels[k]], finishedCalls := t.finishedCalls)
  {
  }

  /**
   A session in which the service starts and then channels close, as often as the client has commands, reports its end
   exactly once and has every result, in any order; before the last close it has reported nothing.
   */
  lemma WholeSession(limit: nat, plugins: seq<(string, string)>, es: seq<Event>)
    requires OnlyCloses(es) && LegalRun(Fresh(limit, plugins), [ServiceStarted] + es)
    ensures var s := Run(Fresh(limit, plugins), [ServiceStarted] + es);
            && |es| == |s.results| <= |plugins|
            && s.finishedCalls == (if es != [] && |es| == |plugins| then 1 else 0)
            && s.commands == seq(|plugins|, k requires 0 <= k < |plugins| => plugins[k].1)
  {
    var f := Fresh(limit, plugins);
    FreshIsValid(limit, plugins);
    StepKeeps(f, ServiceStarted);
    assert ([ServiceStarted] + es)[1..] == es;
    FinishesOnce(Step(f, ServiceStarted), es);
  }
}
