/** The modeler's client slots: devices are requested from the hub one at a time, and their clients run side by side. */
module ModelerState {
  import opened Wrappers

  // ----- the device iterator -----

  /** iter(list), or itertools.chain([first], rest) with first still to come or not. */
  datatype Gen = Base(items: seq<string>) | Chain(first: Option<string>, rest: Gen)

  datatype Drawn = Drawn(item: string, gen: Gen)

  /** next(); None for StopIteration. */
  function Next(g: Gen): Option<Drawn> {
    match g
    case Base(items) => if items == [] then None else Some(Drawn(items[0], Base(items[1..])))
    case Chain(first, rest) =>
      if first.Some? then Some(Drawn(first.value, Chain(None, rest))) else
      match Next(rest)
      case None => None
      case Some(d) => Some(Drawn(d.item, Chain(None, d.gen)))
  }

  /** What the iterator still yields. */
  function Contents(g: Gen): seq<string> {
    match g
    case Base(items) => items
    case Chain(first, rest) => (if first.Some? then [first.value] else []) + Contents(rest)
  }

  predicate HasItems(g: Option<Gen>) {
    g.Some? && Next(g.value).Some?
  }

  /** The iterator as _devicegen_has_items leaves it. */
  function Peeked(g: Option<Gen>): Option<Gen> {
    if !HasItems(g) then g
    else var d := Next(g.value).value; Some(Chain(Some(d.item), d.gen))
  }

  // ----- the state -----

  datatype Report = Report(devices: nat, timedOut: nat)

  /**
   A client is its number: client i was the i-th added, with deadline timeouts[i]. added counts the clients made for
   the device that is pending. devices and requested are
   the device list of the cycle and what was requested of it; everFinished holds every client
   that was put into finished, which checkStop empties.
   */
  datatype Modeler = Modeler(
    parallel: nat, clients: seq<nat>, finished: seq<nat>, devicegen: Option<Gen>, pending: bool, added: nat,
        start: bool,
    timeouts: seq<int>, timedOut: set<nat>, awaiting: nat, started: bool,
    devices: seq<string>, requested: seq<string>, everFinished: seq<nat>, reports: seq<Report>)

  datatype Event =
    | Main
    | MainLoop
    | DeviceList(names: seq<string>)
    | ClientAdded(deadline: int)
    | ConfigEnds
    | ConfigFails
    | ClientFinishes(client: nat)
    | TimeoutTick(now: int)
    | CheckStops

  function Idle(parallel: nat): Modeler {
    Modeler(parallel, [], [], None, false, 0, false, [], {}, 0, false, [], [], [], [])
  }

  function Among(cs: seq<nat>, marked: set<nat>): seq<nat> {
    if cs == [] then [] else (if cs[0] in marked then [cs[0]] else []) + Among(cs[1..], marked)
  }

  function CheckStop(s: Modeler): Modeler {
    if s.pending || s.clients != [] then s else
    var t := s.(devicegen := Peeked(s.devicegen));
    if HasItems(s.devicegen) || !s.start then t
    else t.(start := false, finished := [],
        reports := s.reports + [Report(|s.finished|, |Among(s.finished, s.timedOut)|)])
  }

  /** The next device is requested; the rest happens when the hub answers. An iterator at its end is dropped. */
  function Request(s: Modeler): Modeler
    requires s.devicegen.Some?
  {
    match Next(s.devicegen.value)
    case None => CheckStop(s.(devicegen := None))
    case Some(d) => s.(pending := true, added := 0, devicegen := Some(d.gen), requested := s.requested + [d.item])
  }

  /** fillCollectionSlots up to its yield, or to its end. */
  function Fill(s: Modeler): Modeler {
    if |s.clients| >= s.parallel then CheckStop(s) else
    var t := s.(devicegen := Peeked(s.devicegen));
    if HasItems(s.devicegen) && !s.pending then Request(t) else CheckStop(t)
  }

  /** The numbers of the next n clients. */
  function From(lo: nat, n: nat): seq<nat>
    decreases n
  {
    if n == 0 then [] else From(lo, n - 1) + [lo + n - 1]
  }

  /** Clients added for the device that is pending. */
  function Collected(s: Modeler, deadlines: seq<int>): Modeler {
    s.(clients := s.clients + From(|s.timeouts|, |deadlines|), timeouts := s.timeouts + deadlines,
        added := s.added + |deadlines|)
  }

  function Without(cs: seq<nat>, c: nat): seq<nat> {
    if cs == [] then [] else if cs[0] == c then cs[1..] else [cs[0]] + Without(cs[1..], c)
  }

  function Finish(s: Modeler, c: nat): Modeler {
    if c in s.clients then s.(clients := Without(s.clients, c), finished := s.finished + [c],
        everFinished := s.everFinished + [c])
    else s
  }

  predicate Expired(s: Modeler, c: nat, now: int) {
    c < |s.timeouts| && s.timeouts[c] < now
  }

  /** The clients that are, or are not, past their deadline. */
  function Late(s: Modeler, cs: seq<nat>, now: int, late: bool): seq<nat> {
    if cs == [] then [] else (if Expired(s, cs[0], now) == late then [cs[0]] else []) + Late(s, cs[1..], now, late)
  }

  function SetOf(cs: seq<nat>): set<nat> {
    set c | c in cs
  }

  function TimeOut(s: Modeler, now: int): Modeler {
    var late := Late(s, s.clients, now, true);
    s.(clients := Late(s, s.clients, now, false), finished := s.finished + late,
       everFinished := s.everFinished + late, timedOut := s.timedOut + SetOf(late))
  }

  function StartCycle(s: Modeler): Modeler {
    if s.clients != [] then s else s.(start := true, awaiting := s.awaiting + 1)
  }

  /** mainLoop when the device list is there. */
  function Listed(s: Modeler, names: seq<string>): Modeler
    requires s.awaiting > 0
  {
    s.(awaiting := s.awaiting - 1, devicegen := Some(Base(names)), devices := names, requested := [])
  }

  /**
   While a device is pending collectDevice adds up to five clients, some of which may finish, or time out, before it is
   done; and it, or the hub, may raise at any time.
   */
  predicate Legal(s: Modeler, e: Event) {
    match e
    case Main => !s.started
    case DeviceList(_) => s.awaiting > 0
    case ClientAdded(_) => s.pending && s.added < 5
    case ConfigEnds => s.pending
    case ConfigFails => s.pending
    case _ => s.started
  }

  function Step(s: Modeler, e: Event): Modeler
    requires Legal(s, e)
  {
    match e
    case Main => StartCycle(s.(started := true, finished := []))
    case MainLoop => StartCycle(s)
    case DeviceList(names) =>
      Fill(Listed(s, names))
    case ClientAdded(deadline) => Collected(s, [deadline])
    case ConfigEnds => CheckStop(s.(pending := false))
    case ConfigFails => s.(pending := false)
    case ClientFinishes(c) => Fill(Finish(s, c))
    case TimeoutTick(now) => Fill(TimeOut(s, now))
    case CheckStops => CheckStop(s)
  }

  predicate LegalRun(s: Modeler, es: seq<Event>)
    decreases es
  {
    es == [] || (Legal(s, es[0]) && LegalRun(Step(s, es[0]), es[1..]))
  }

  function Run(s: Modeler, es: seq<Event>): Modeler
    requires LegalRun(s, es)
    decreases es
  {
    if es == [] then s else Run(Step(s, es[0]), es[1..])
  }
}
