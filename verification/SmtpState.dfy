/** The SMTP channel: what one line, or one message, makes of its state. */
module SmtpState {
  import opened Wrappers
  import opened PyStrings

  // ----- strings -----

  predicate MatchAt(s: string, t: string, p: nat) {
    p + |t| <= |s| && s[p..p + |t|] == t
  }

  /** s.find(t, from), None for -1. */
  function FindFrom(s: string, t: string, from: nat): (r: Option<nat>)
    requires from <= |s|
    ensures r.Some? ==> from <= r.value && MatchAt(s, t, r.value)
    decreases |s| - from
  {
    if MatchAt(s, t, from) then Some(from)
    else if from == |s| then None
    else FindFrom(s, t, from + 1)
  }

  function Find(s: string, t: string): (r: Option<nat>)
    ensures r.Some? ==> MatchAt(s, t, r.value)
  {
    FindFrom(s, t, 0)
  }

  // ----- the channel -----

  /** A message as the server gets it: sender, recipients, text. */
  datatype Message = Message(sender: Option<string>, recipients: seq<string>, text: string)

  /** data: the channel is in state DATA. replies holds the reply codes sent. */
  datatype Channel = Channel(
    data: bool, greeting: Option<string>, mailfrom: Option<string>, rcpttos: seq<string>, text: string,
    closing: bool, replies: seq<nat>, delivered: seq<Message>)

  const CRLF := "\r\n"
  const END_OF_DATA := "\r\n.\r\n"

  function Opened(): Channel {
    Channel(false, None, None, [], "", false, [220], [])
  }

  function Terminator(c: Channel): (t: string)
    ensures |t| >= 2
  {
    if c.data then END_OF_DATA else CRLF
  }

  /** What Python takes as true of an optional string. */
  predicate Truthy(s: Option<string>) {
    s.Some? && s.value != ""
  }

  function Reply(c: Channel, code: nat): Channel {
    c.(replies := c.replies + [code])
  }

  /** __getaddr */
  function GetAddr(keyword: string, arg: string): Option<string> {
    var n := if |keyword| <= |arg| then |keyword| else |arg|;
    if Upper(arg[..n]) != keyword then None else
    var address := Strip(arg[n..]);
    if address != "" && address[0] == '<' && address[|address| - 1] == '>' && address != "<>" then Some(Inner(address))
    else Some(address)
  }

  function AddressIn(keyword: string, arg: Option<string>): Option<string> {
    if Truthy(arg) then GetAddr(keyword, arg.value) else None
  }

  function Helo(c: Channel, arg: Option<string>): Channel {
    if !Truthy(arg) then Reply(c, 501)
    else if Truthy(c.greeting) then Reply(c, 503)
    else Reply(c.(greeting := arg), 250)
  }

  function Mail(c: Channel, arg: Option<string>): Channel {
    var address := AddressIn("FROM:", arg);
    if !Truthy(address) then Reply(c, 501)
    else if Truthy(c.mailfrom) then Reply(c, 503)
    else Reply(c.(mailfrom := address), 250)
  }

  function Rcpt(c: Channel, arg: Option<string>): Channel {
    if !Truthy(c.mailfrom) then Reply(c, 503) else
    var address := AddressIn("TO:", arg);
    if !Truthy(address) then Reply(c, 501)
    else Reply(c.(rcpttos := c.rcpttos + [address.value]), 250)
  }

  function Rset(c: Channel, arg: Option<string>): Channel {
    if Truthy(arg) then Reply(c, 501)
    else Reply(c.(mailfrom := None, rcpttos := [], text := "", data := false), 250)
  }

  function Data(c: Channel, arg: Option<string>): Channel {
    if c.rcpttos == [] then Reply(c, 503)
    else if Truthy(arg) then Reply(c, 501)
    else Reply(c.(data := true), 354)
  }

  function CommandOf(line: string): string {
    match Find(line, " ")
    case None => Upper(line)
    case Some(i) => Upper(line[..i])
  }

  function ArgOf(line: string): Option<string> {
    match Find(line, " ")
    case None => None
    case Some(i) => Some(Strip(line[i + 1..]))
  }

  function Dispatch(c: Channel, command: string, arg: Option<string>): Channel {
    if command == "HELO" then Helo(c, arg)
    else if command == "NOOP" then Reply(c, if Truthy(arg) then 501 else 250)
    else if command == "QUIT" then Reply(c, 221).(closing := true)
    else if command == "MAIL" then Mail(c, arg)
    else if command == "RCPT" then Rcpt(c, arg)
    else if command == "RSET" then Rset(c, arg)
    else if command == "DATA" then Data(c, arg)
    else Reply(c, 502)
  }

  function Unstuffed(text: string): string {
    if text != "" && text[0] == '.' then text[1..] else text
  }

  function UnstuffedAll(texts: seq<string>): seq<string> {
    seq(|texts|, k requires 0 <= k < |texts| => Unstuffed(texts[k]))
  }

  /** The message text in what came before the terminator. */
  function Decoded(line: string): string {
    Join(UnstuffedAll(Split(line, CRLF)), "\n")
  }

  /** found_terminator; the server answers process_message with no status. */
  function Found(c: Channel, line: string): Channel {
    if c.data then
      var m := Message(c.mailfrom, c.rcpttos, Decoded(line));
      Reply(c.(text := m.text, delivered := c.delivered + [m], rcpttos := [], mailfrom := None, data := false), 250)
    else if line == "" then Reply(c, 500)
    else Dispatch(c, CommandOf(line), ArgOf(line))
  }

  // ----- framing -----

  datatype Fed = Fed(chan: Channel, rest: string)

  /** What a stream of characters comes to: each line or message in turn, and what is left without its terminator. */
  function Feed(c: Channel, s: string): Fed
    decreases |s|
  {
    match Find(s, Terminator(c))
    case None => Fed(c, s)
    case Some(i) => Feed(Found(c, s[..i]), s[i + |Terminator(c)|..])
  }
}
