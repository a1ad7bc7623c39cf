/** The SSH client of the modeler, with its work list, its sessions and the connection it opens channels on. */
module SshClients {
  import opened Wrappers
  import opened SshWindowState

  class SshConnection {
    var channels: seq<Channel>

    constructor ()
      ensures channels == []
    {
      channels := [];
    }

    method AddCommand(command: string)
      modifies this
      ensures channels == old(channels) + [Channel(command, Open)]
    {
      channels := channels + [Channel(command, Open)];
    }
  }

  class SshClient {
    const concurrentSessions: nat
    const cmdmap: map<string, string>
    var commands: seq<string>
    var results: seq<Answer>
    var workList: seq<string>
    var openSessions: int
    var connection: SshConnection?
    var finishedCalls: nat

    ghost function State(): Window
      reads this, connection
    {
      Window(concurrentSessions, cmdmap, commands, workList, openSessions, connection != null,
             if connection == null then [] else connection.channels, results, finishedCalls)
    }

    /** One plugin after the other: a later plugin with the same command takes it over. */
    constructor (limit: nat, plugins: seq<(string, string)>)
      ensures State() == Fresh(limit, plugins)
    {
      var owners: map<string, string>, listed := map[], [];
      var k := 0;
      while k < |plugins|
        invariant 0 <= k <= |plugins| && owners == Owners(plugins[..k])
        invariant listed == seq(k, i requires 0 <= i < k => plugins[i].1)
      {
        assert plugins[..k + 1][..k] == plugins[..k];
        owners := owners[plugins[k].1 := plugins[k].0];
        listed := listed + [plugins[k].1];
        k := k + 1;
      }
      assert plugins[..k] == plugins;
      concurrentSessions, cmdmap, commands, workList := limit, owners, listed, listed;
      results, openSessions, connection, finishedCalls := [], 0, null, 0;
    }

    method StartNext()
      requires connection != null && workList != []
      modifies this`workList, this`openSessions, connection
      ensures State() == Opened(old(State()), 1)
    {
      ghost var was := workList;
      var cmd := workList[0];
      workList := workList[1..];
      openSessions := openSessions + 1;
      connection.AddCommand(cmd);
      assert seq(1, k requires 0 <= k < 1 => Channel(was[k], Open)) == [Channel(cmd, Open)];
    }

    method RunCommands()
      requires connection != null
      modifies this`workList, this`openSessions, connection
      ensures State() == SshWindowState.RunCommands(old(State()))
    {
      ghost var s := State();
      var n := concurrentSessions - openSessions;
      if |workList| < n { n := |workList|; }
      var i := 0;
      assert s.channels + [] == s.channels && Opened(s, 0) == s;
      while i < n
        invariant 0 <= i && (i <= n || i == 0) && i <= |s.workList|
        invariant State() == Opened(s, i)
        invariant n == if |s.workList| < s.limit - s.openSessions then |s.workList| else s.limit - s.openSessions
      {
        OpenedOneMore(s, i);
        StartNext();
        i := i + 1;
      }
    }

    method ServiceStarted(conn: SshConnection)
      requires connection == null && conn.channels == []
      modifies this`connection, this`workList, this`openSessions, conn
      ensures connection == conn && State() == Step(old(State()), Event.ServiceStarted)
    {
      connection := conn;
      RunCommands();
    }

    /** One command, or several. */
    method AddCommand(cmds: seq<string>)
      modifies this`commands, this`workList, this`openSessions, connection
      ensures State() == Step(old(State()), AddCommands(cmds))
    {
      commands := commands + cmds;
      workList := workList + cmds;
      if connection != null {
        RunCommands();
      }
    }

    method AddResult(command: string, data: string)
      modifies this`results
      ensures results == old(results) + [AnswerOf(cmdmap, command, data)]
    {
      results := results + [AnswerOf(cmdmap, command, data)];
    }

    predicate CommandsFinished()
      reads this
    {
      |results| == |commands|
    }

    method ClientFinished()
      modifies this`finishedCalls
      ensures finishedCalls == old(finishedCalls) + 1
    {
      finishedCalls := finishedCalls + 1;
    }

    method ChannelClosed()
      modifies this`workList, this`openSessions, this`finishedCalls, connection
      ensures var s := old(State());
              State() == Settled(s.(openSessions := s.openSessions - 1))
    {
      openSessions := openSessions - 1;
      if CommandsFinished() {
        ClientFinished();
        return;
      }
      if workList != [] {
        if connection != null {
          StartNext();
        } else {
          workList := workList[1..];
          openSessions := openSessions + 1;
        }
      }
    }

    /** CommandChannel.closed, for channel k of the connection. */
    method Closed(k: nat, data: string)
      requires connection != null && k < |connection.channels| && connection.channels[k].status.Open?
      modifies this`results, this`workList, this`openSessions, this`finishedCalls, connection
      ensures State() == Step(old(State()), Closes(k, data))
    {
      AddResult(connection.channels[k].command, data);
      connection.channels := connection.channels[k := connection.channels[k].(status := Done(data))];
      ChannelClosed();
    }

    /** CommandChannel.openFailed. */
    method OpenFailed(k: nat)
      requires connection != null && k < |connection.channels| && connection.channels[k].status.Open?
      modifies this`finishedCalls, connection
      ensures State() == Step(old(State()), OpenFails(k))
    {
      connection.channels := connection.channels[k := connection.channels[k].(status := Failed)];
      ClientFinished();
    }
  }

  lemma OpenedOneMore(s: Window, i: nat)
    requires i < |s.workList|
    ensures Opened(Opened(s, i), 1) == Opened(s, i + 1)
  {
    var more := seq(i + 1, k requires 0 <= k < i + 1 => Channel(s.workList[k], Open));
    assert more == seq(i, k requires 0 <= k < i => Channel(s.workList[k], Open)) + [Channel(s.workList[i], Open)];
    assert s.workList[i..][1..] == s.workList[i + 1..];
    assert seq(1, k requires 0 <= k < 1 => Channel(s.workList[i..][k], Open)) == [Channel(s.workList[i], Open)];
    assert Opened(Opened(s, i), 1).channels == Opened(s, i + 1).channels;
  }
}
