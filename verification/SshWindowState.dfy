/** An SSH session to a device: commands wait in a work list and run over a bounded number of channels. */
module SshWindowState {
  import opened Wrappers

  datatype Status = Open | Done(data: string) | Failed

  datatype Channel = Channel(command: string, status: Status)

  /** A collected result: the plugin the command belongs to, and the data. */
  datatype Answer = Answer(plugin: Option<string>, data: string)

  /** channels: every channel opened so far, in the order of opening; finishedCalls: calls of clientFinished. */
  datatype Window = Window(
    limit: nat, cmdmap: map<string, string>, commands: seq<string>, workList: seq<string>, openSessions: int,
    connected: bool, channels: seq<Channel>, results: seq<Answer>, finishedCalls: nat)

  datatype Event = ServiceStarted | AddCommands(commands: seq<string>) | Closes(k: nat,
      data: string) | OpenFails(k: nat)

  /** The client for a list of plugins with their commands; the last plugin with a command owns it. */
  function Fresh(limit: nat, plugins: seq<(string, string)>): Window {
    var commands := seq(|plugins|, k requires 0 <= k < |plugins| => plugins[k].1);
    Window(limit, Owners(plugins), commands, commands, 0, false, [], [], 0)
  }

  function Owners(plugins: seq<(string, string)>): map<string, string> {
    if plugins == [] then map[]
    else var last := plugins[|plugins| - 1]; Owners(plugins[..|plugins| - 1])[last.1 := last.0]
  }

  function CommandsFinished(s: Window): bool {
    |s.results| == |s.commands|
  }

  /** The first n waiting commands get a channel. */
  function Opened(s: Window, n: nat): Window
    requires n <= |s.workList|
  {
    s.(workList := s.workList[n..], openSessions := s.openSessions + n,
       channels := s.channels + seq(n, k requires 0 <= k < n => Channel(s.workList[k], Open)))
  }

  function Room(s: Window): nat {
    var room := s.limit - s.openSessions;
    if room <= 0 then 0 else if room < |s.workList| then room else |s.workList|
  }

  function RunCommands(s: Window): Window {
    Opened(s, Room(s))
  }

  function AnswerOf(cmdmap: map<string, string>, command: string, data: string): Answer {
    Answer(if command in cmdmap then Some(cmdmap[command]) else None, data)
  }

  /** addResult, and one session less. */
  function Recorded(s: Window, k: nat, data: string): Window
    requires k < |s.channels|
  {
    s.(results := s.results + [AnswerOf(s.cmdmap, s.channels[k].command, data)],
       channels := s.channels[k := s.channels[k].(status := Done(data))],
       openSessions := s.openSessions - 1)
  }

  /** channelClosed, once the session is given back: report the end, or start the next command. */
  function Settled(t: Window): Window {
    if CommandsFinished(t) then t.(finishedCalls := t.finishedCalls + 1)
    else if t.workList == [] then t
    else if t.connected then Opened(t, 1)
    else t.(workList := t.workList[1..], openSessions := t.openSessions + 1)
  }

  /** CommandChannel.closed: the result is recorded, then the client is told. */
  function ChannelCloses(s: Window, k: nat, data: string): Window
    requires k < |s.channels|
  {
    Settled(Recorded(s, k, data))
  }

  predicate Legal(s: Window, e: Event) {
    match e
    case ServiceStarted => !s.connected
    case AddCommands(_) => true
    case Closes(k, _) => k < |s.channels| && s.channels[k].status.Open?
    case OpenFails(k) => k < |s.channels| && s.channels[k].status.Open?
  }

  function Step(s: Window, e: Event): Window
    requires Legal(s, e)
  {
    match e
    case ServiceStarted => RunCommands(s.(connected := true))
    case AddCommands(cs) =>
      var t := s.(commands := s.commands + cs, workList := s.workList + cs);
      if t.connected then RunCommands(t) else t
    case Closes(k, data) => ChannelCloses(s, k, data)
    case OpenFails(k) =>
      s.(channels := s.channels[k := s.channels[k].(status := Failed)], finishedCalls := s.finishedCalls + 1)
  }

  predicate LegalRun(s: Window, es: seq<Event>)
    decreases es
  {
    es == [] || (Legal(s, es[0]) && LegalRun(Step(s, es[0]), es[1..]))
  }

  function Run(s: Window, es: seq<Event>): Window
    requires LegalRun(s, es)
    decreases es
  {
    if es == [] then s else Run(Step(s, es[0]), es[1..])
  }

  // ----- counting channels -----

  function Commands(cs: seq<Channel>): seq<string> {
    seq(|cs|, k requires 0 <= k < |cs| => cs[k].command)
  }

  datatype Kind = IsOpen | IsDone | IsFailed

  function KindOf(s: Status): Kind {
    match s case Open => IsOpen case Done(_) => IsDone case Failed => IsFailed
  }

  /** The channels of one kind, in order. */
  function Of(cs: seq<Channel>, kind: Kind): seq<Channel> {
    if cs == [] then []
    else (if KindOf(cs[0].status) == kind then [cs[0]] else []) + Of(cs[1..], kind)
  }

  function Count(s: Window, kind: Kind): nat {
    |Of(s.channels, kind)|
  }

  /** What the completed channels answered. */
  function Answers(cmdmap: map<string, string>, cs: seq<Channel>): seq<Answer> {
    if cs == [] then []
    else
      (if cs[0].status.Done? then [AnswerOf(cmdmap, cs[0].command, cs[0].status.data)] else [])
      + Answers(cmdmap, cs[1..])
  }
}
