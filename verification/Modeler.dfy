/** The modeler daemon with its client slots. */
module Modelers {
  import opened Wrappers
  import opened ModelerState
  import opened ModelerLaws

  class ZenModeler {
    const parallel: nat
    var clients: seq<nat>
    var finished: seq<nat>
    var devicegen: Option<Gen>
    var pendingNewClients: bool
    ghost var added: nat
    var start: bool
    var timeouts: seq<int>
    var timedOut: set<nat>
    var awaiting: nat
    var started: bool
    var reports: seq<Report>
    ghost var devices: seq<string>
    ghost var requested: seq<string>
    ghost var everFinished: seq<nat>

    ghost function State(): Modeler
      reads this
    {
      Modeler(parallel, clients, finished, devicegen, pendingNewClients, added, start, timeouts, timedOut, awaiting,
          started,
              devices, requested, everFinished, reports)
    }

    constructor (parallel: nat)
      ensures State() == Idle(parallel)
    {
      this.parallel := parallel;
      clients, finished, devicegen, pendingNewClients, start := [], [], None, false, false;
      timeouts, timedOut, awaiting, started, reports := [], {}, 0, false, [];
      devices, requested, everFinished, added := [], [], [], 0;
    }

    /** _devicegen_has_items: the item drawn to look is put back in front. */
    method DevicegenHasItems() returns (result: bool)
      modifies this`devicegen
      ensures (result <==> Left(old(devicegen)) != []) && Left(devicegen) == Left(old(devicegen))
      ensures result == HasItems(old(devicegen)) && devicegen == Peeked(old(devicegen))
    {
      PeekingKeeps(devicegen);
      result := false;
      if devicegen.Some? {
        var drawn := Next(devicegen.value);
        if drawn.Some? {
          result := true;
          devicegen := Some(Chain(Some(drawn.value.item), drawn.value.gen));
        }
      }
    }

    method CheckStop()
      modifies this`devicegen, this`start, this`finished, this`reports
      ensures State() == ModelerState.CheckStop(old(State()))
    {
      if pendingNewClients || clients != [] { return; }
      var more := DevicegenHasItems();
      if more { return; }
      if start {
        start := false;
        var late, k := 0, 0;
        while k < |finished|
          invariant 0 <= k <= |finished|
          invariant late + |Among(finished[k..], timedOut)| == |Among(finished, timedOut)|
        {
          if finished[k] in timedOut { late := late + 1; }
          assert finished[k..][1..] == finished[k + 1..];
          k := k + 1;
        }
        reports := reports + [Report(|finished|, late)];
        finished := [];
      }
    }

    /** The body of the filling loop up to its yield; an iterator at its end is dropped. */
    method RequestNext()
      requires devicegen.Some?
      modifies this`devicegen, this`start, this`finished, this`reports, this`pendingNewClients, this`added,
          this`requested
      ensures State() == Request(old(State()))
    {
      match Next(devicegen.value)
      case None =>
        devicegen := None;
        CheckStop();
      case Some(d) =>
        pendingNewClients, added := true, 0;
        devicegen := Some(d.gen);
        requested := requested + [d.item];
    }

    /** fillCollectionSlots up to where it waits for the hub, or to its end. */
    method FillCollectionSlots()
      modifies this`devicegen, this`start, this`finished, this`reports, this`pendingNewClients, this`added,
          this`requested
      ensures State() == Fill(old(State()))
    {
      if |clients| < parallel {
        var more := DevicegenHasItems();
        if more && !pendingNewClients {
          RequestNext();
          return;
        }
      }
      CheckStop();
    }

    method AddClient(deadline: int)
      requires pendingNewClients
      modifies this`clients, this`timeouts, this`added
      ensures State() == Collected(old(State()), [deadline])
    {
      assert From(|timeouts|, 1) == From(|timeouts|, 0) + [|timeouts|];
      clients := clients + [|timeouts|];
      timeouts := timeouts + [deadline];
      added := added + 1;
    }

    /** collectDevice: the clients made for the device that the hub returned. */
    method CollectDevice(deadlines: seq<int>)
      requires pendingNewClients && added + |deadlines| <= 5
      modifies this`clients, this`timeouts, this`added
      ensures State() == Collected(old(State()), deadlines)
    {
      ghost var s := State();
      var k := 0;
      CollectedNone(s);
      while k < |deadlines|
        invariant 0 <= k <= |deadlines| && pendingNewClients
        invariant State() == Collected(s, deadlines[..k])
      {
        assert deadlines[..k + 1] == deadlines[..k] + [deadlines[k]];
        CollectedOneMore(s, deadlines[..k], deadlines[k]);
        AddClient(deadlines[k]);
        k := k + 1;
      }
      assert deadlines[..k] == deadlines;
    }

    /**
     The generator after its yield: the clients, none when the device is to be skipped or was not returned,
     then the check.
     */
    method ConfigArrives(deadlines: seq<int>)
      requires pendingNewClients && added + |deadlines| <= 5
      modifies this
      ensures State() == Step(Collected(old(State()), deadlines), ConfigEnds)
    {
      CollectDevice(deadlines);
      pendingNewClients := false;
      CheckStop();
    }

    /** The hub, or collectDevice after some clients, raises. */
    method ConfigFails()
      requires pendingNewClients
      modifies this`pendingNewClients
      ensures State() == Step(old(State()), Event.ConfigFails)
    {
      pendingNewClients := false;
    }

    /** clients.remove, which does nothing to a client that is not in the list. */
    method RemoveClient(client: nat) returns (found: bool)
      modifies this`clients
      ensures found == (client in old(clients))
      ensures clients == if found then Without(old(clients), client) else old(clients)
    {
      var k := 0;
      while k < |clients| && clients[k] != client
        invariant 0 <= k <= |clients| && client !in clients[..k]
      {
        k := k + 1;
      }
      found := k < |clients|;
      if found {
        WithoutIsAt(clients, client, k);
        clients := clients[..k] + clients[k + 1..];
      }
    }

    method ProcessClientFinished(client: nat)
      requires started
      modifies this
      ensures State() == Step(old(State()), ClientFinishes(client))
    {
      var found := RemoveClient(client);
      if found {
        finished := finished + [client];
        everFinished := everFinished + [client];
      }
      FillCollectionSlots();
    }

    /** _timeoutClients: the loop that sorts the clients into active and finished. */
    method TimeoutClients(now: int)
      modifies this`clients, this`finished, this`timedOut, this`everFinished
      ensures State() == TimeOut(old(State()), now)
    {
      hide Late, SetOf;
      ghost var s := State();
      NoneSorted(s, now);
      var active: seq<nat>, k := [], 0;
      while k < |clients|
        invariant 0 <= k <= |clients| && clients == s.clients && timeouts == s.timeouts
        invariant active == Late(s, clients[..k], now, false)
        invariant finished == s.finished + Late(s, clients[..k], now, true)
        invariant everFinished == s.everFinished + Late(s, clients[..k], now, true)
        invariant timedOut == s.timedOut + SetOf(Late(s, clients[..k], now, true))
      {
        var client := clients[k];
        assert clients[..k + 1] == clients[..k] + [client];
        OneMoreSorted(s, clients[..k], client, now);
        if client < |timeouts| && timeouts[client] < now {
          finished := finished + [client];
          everFinished := everFinished + [client];
          timedOut := timedOut + {client};
        } else {
          active := active + [client];
        }
        k := k + 1;
      }
      assert clients[..k] == clients;
      clients := active;
    }

    /** timeoutClients, once a second. */
    method TimeoutTick(now: int)
      requires started
      modifies this
      ensures State() == Step(old(State()), Event.TimeoutTick(now))
    {
      TimeoutClients(now);
      FillCollectionSlots();
    }

    /** mainLoop up to its request for the device list. */
    method MainLoop()
      modifies this`start, this`awaiting
      ensures State() == StartCycle(old(State()))
    {
      if clients != [] { return; }
      start := true;
      awaiting := awaiting + 1;
    }

    /** main. */
    method RunMain()
      requires !started
      modifies this
      ensures State() == Step(old(State()), Event.Main)
    {
      started := true;
      finished := [];
      MainLoop();
    }

    /** mainLoop with the device list. */
    method DeviceListArrives(names: seq<string>)
      requires awaiting > 0
      modifies this
      ensures State() == Step(old(State()), DeviceList(names))
    {
      hide Fill;
      awaiting := awaiting - 1;
      devicegen := Some(Base(names));
      devices, requested := names, [];
      FillCollectionSlots();
    }
  }

  lemma CollectedNone(s: Modeler)
    ensures Collected(s, []) == s
  {
    assert From(|s.timeouts|, 0) == [] && s.clients + [] == s.clients && s.timeouts + [] == s.timeouts;
  }

  lemma CollectedOneMore(s: Modeler, deadlines: seq<int>, deadline: int)
    ensures Collected(s, deadlines + [deadline]) == Collected(Collected(s, deadlines), [deadline])
  {
    var n, m := |deadlines|, |s.timeouts|;
    assert From(m, n + 1) == From(m, n) + [m + n];
    assert From(m + n, 1) == From(m + n, 0) + [m + n];
    assert s.timeouts + (deadlines + [deadline]) == (s.timeouts + deadlines) + [deadline];
    assert s.clients + (From(m, n) + [m + n]) == (s.clients + From(m, n)) + [m + n];
  }

  lemma {:induction false} WithoutIsAt(cs: seq<nat>, c: nat, k: nat)
    requires k < |cs| && cs[k] == c && c !in cs[..k]
    ensures Without(cs, c) == cs[..k] + cs[k + 1..]
  {
    if k > 0 {
      assert cs[..k][0] == cs[0];
      assert cs[1..][..k - 1] == cs[..k][1..];
      WithoutIsAt(cs[1..], c, k - 1);
      assert cs[..k] + cs[k + 1..] == [cs[0]] + (cs[1..][..k - 1] + cs[1..][k..]);
    }
  }

  lemma {:induction false} LateSnoc(s: Modeler, cs: seq<nat>, c: nat, now: int, late: bool)
    ensures Late(s, cs + [c], now, late) == Late(s, cs, now, late) + if Expired(s, c, now) == late then [c] else []
  {
    if cs != [] {
      assert (cs + [c])[1..] == cs[1..] + [c];
      LateSnoc(s, cs[1..], c, now, late);
    }
  }

  lemma NoneSorted(s: Modeler, now: int)
    ensures Late(s, [], now, true) == [] && Late(s, [], now, false) == [] && SetOf([]) == {}
  {
  }

  lemma OneMoreSorted(s: Modeler, cs: seq<nat>, c: nat, now: int)
    ensures Late(s, cs + [c], now, true) == Late(s, cs, now, true) + if Expired(s, c, now) then [c] else []
    ensures Late(s, cs + [c], now, false) == Late(s, cs, now, false) + if Expired(s, c, now) then [] else [c]
    ensures SetOf(Late(s, cs + [c], now, true))
            == SetOf(Late(s, cs, now, true)) + if Expired(s, c, now) then {c} else {}
  {
    LateSnoc(s, cs, c, now, true);
    LateSnoc(s, cs, c, now, false);
  }
}
