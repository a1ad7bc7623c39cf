/** The SMTP channel over asynchat: input comes in pieces and is collected until a terminator is found. */
module SmtpChannels {
  import opened Wrappers
  import opened PyStrings
  import opened SmtpState
  import opened SmtpLaws
  import opened AsyncChat

  class SmtpChannel {
    var inData: bool
    var greeting: Option<string>
    var mailfrom: Option<string>
    var rcpttos: seq<string>
    var text: string
    var closing: bool
    var replies: seq<nat>
    var delivered: seq<Message>
    var line: seq<string>
    var acInBuffer: string

    function State(): Channel
      reads this`inData, this`greeting, this`mailfrom, this`rcpttos, this`text, this`closing, this`replies,
          this`delivered
    {
      Channel(inData, greeting, mailfrom, rcpttos, text, closing, replies, delivered)
    }

    /** What came in and was not yet understood. */
    ghost function Pending(): string
      reads this
    {
      Join(line, "") + acInBuffer
    }

    ghost predicate Valid()
      reads this
    {
      Past(Join(line, ""), acInBuffer, Terminator(State())) && SmtpLaws.Valid(State())
    }

    constructor ()
      ensures Valid() && State() == Opened() && Pending() == ""
    {
      inData, greeting, mailfrom, rcpttos, text := false, None, None, [], "";
      closing, replies, delivered, line, acInBuffer := false, [220], [], [], "";
    }

    method CollectIncomingData(data: string)
      modifies this`line
      ensures Join(line, "") == Join(old(line), "") + data
    {
      JoinOneMore(line, data);
      line := line + [data];
    }

    /** The de-transparency loop of a message. */
    method TextOf(message: string) returns (text: string)
      ensures text == Decoded(message)
    {
      var texts, data, k := Split(message, CRLF), [], 0;
      while k < |texts|
        invariant 0 <= k <= |texts| && data == UnstuffedAll(texts)[..k]
      {
        if texts[k] != "" && texts[k][0] == '.' {
          data := data + [texts[k][1..]];
        } else {
          data := data + [texts[k]];
        }
        k := k + 1;
      }
      assert data == UnstuffedAll(texts);
      text := Join(data, "\n");
    }

    method Push(code: nat)
      modifies this`replies
      ensures State() == Reply(old(State()), code)
    {
      replies := replies + [code];
    }

    method SmtpHelo(arg: Option<string>)
      modifies this`greeting, this`replies
      ensures State() == Helo(old(State()), arg)
    {
      if !Truthy(arg) { Push(501); return; }
      if Truthy(greeting) {
        Push(503);
      } else {
        greeting := arg;
        Push(250);
      }
    }

    method SmtpNoop(arg: Option<string>)
      modifies this`replies
      ensures State() == Reply(old(State()), if Truthy(arg) then 501 else 250)
    {
      if Truthy(arg) { Push(501); } else { Push(250); }
    }

    method SmtpQuit()
      modifies this`replies, this`closing
      ensures State() == Reply(old(State()), 221).(closing := true)
    {
      Push(221);
      closing := true;
    }

    method SmtpMail(arg: Option<string>)
      modifies this`mailfrom, this`replies
      ensures Truthy(old(mailfrom)) ==> mailfrom == old(mailfrom)
      ensures mailfrom != old(mailfrom) ==> Truthy(mailfrom)
      ensures State() == Mail(old(State()), arg)
    {
      var address := AddressIn("FROM:", arg);
      if !Truthy(address) { Push(501); return; }
      if Truthy(mailfrom) { Push(503); return; }
      mailfrom := address;
      Push(250);
    }

    method SmtpRcpt(arg: Option<string>)
      modifies this`rcpttos, this`replies
      ensures rcpttos != old(rcpttos) ==> Truthy(mailfrom) && exists a :: a != "" && rcpttos == old(rcpttos) + [a]
      ensures State() == Rcpt(old(State()), arg)
    {
      if !Truthy(mailfrom) { Push(503); return; }
      var address := AddressIn("TO:", arg);
      if !Truthy(address) { Push(501); return; }
      rcpttos := rcpttos + [address.value];
      Push(250);
    }

    method SmtpRset(arg: Option<string>)
      modifies this`mailfrom, this`rcpttos, this`text, this`inData, this`replies
      ensures State() == Rset(old(State()), arg)
    {
      if Truthy(arg) { Push(501); return; }
      mailfrom, rcpttos, text, inData := None, [], "", false;
      Push(250);
    }

    method SmtpData(arg: Option<string>)
      modifies this`inData, this`replies
      ensures inData && !old(inData) ==> rcpttos != []
      ensures State() == Data(old(State()), arg)
    {
      if rcpttos == [] { Push(503); return; }
      if Truthy(arg) { Push(501); return; }
      inData := true;
      Push(354);
    }

    method Command(command: string, arg: Option<string>)
      modifies this`greeting, this`mailfrom, this`rcpttos, this`text, this`inData, this`closing, this`replies
      ensures State() == Dispatch(old(State()), command, arg)
    {
      hide Mail, Rcpt, Helo, Rset, Data, Reply, Truthy;
      match command
      case "HELO" => SmtpHelo(arg);
      case "NOOP" => SmtpNoop(arg);
      case "QUIT" => SmtpQuit();
      case "MAIL" => SmtpMail(arg);
      case "RCPT" => SmtpRcpt(arg);
      case "RSET" => SmtpRset(arg);
      case "DATA" => SmtpData(arg);
      case _ => Push(502);
    }

    /** The message goes to the server, and the channel waits for the next command. */
    method Deliver(message: string)
      modifies this`text, this`delivered, this`rcpttos, this`mailfrom, this`inData, this`replies
      ensures old(inData) ==> State() == Found(old(State()), message)
    {
      text := TextOf(message);
      delivered := delivered + [Message(mailfrom, rcpttos, text)];
      rcpttos, mailfrom, inData := [], None, false;
      Push(250);
    }

    method FoundTerminator()
      requires SmtpLaws.Valid(State())
      modifies this
      ensures line == [] && acInBuffer == old(acInBuffer) && State() == Found(old(State()), Join(old(line), ""))
      ensures SmtpLaws.Valid(State())
    {
      hide Dispatch, CommandOf, ArgOf, SmtpLaws.Valid, Decoded;
      var all := Join(line, "");
      FoundKeeps(State(), all);
      line := [];
      if inData {
        Deliver(all);
      } else if all == "" {
        Push(500);
      } else {
        Command(CommandOf(all), ArgOf(all));
      }
    }

    /** handle_read: whatever pieces came before, the channel is where the whole stream puts it. */
    method HandleRead(data: string)
      requires Valid()
      modifies this
      ensures Valid()
      ensures Fed(State(), Pending()) == Feed(old(State()), old(Pending()) + data)
    {
      ghost var c, s := State(), Pending() + data;
      PastWithMore(Join(line, ""), acInBuffer, Terminator(State()), data);
      assert (Join(line, "") + acInBuffer) + data == Join(line, "") + (acInBuffer + data);
      acInBuffer := acInBuffer + data;
      var more := true;
      while more && acInBuffer != ""
        invariant Valid() && Feed(State(), Pending()) == Feed(c, s)
        invariant !more ==> Find(acInBuffer, Terminator(State())) == None
        decreases more, |acInBuffer|
      {
        more := HandleBuffer();
      }
      FindPast(Join(line, ""), acInBuffer, Terminator(State()));
      if acInBuffer == "" { FindIsNone("", Terminator(State())); }
    }

    /** One round of handle_read's loop; false to leave it. */
    method HandleBuffer() returns (more: bool)
      requires Valid() && acInBuffer != ""
      modifies this
      ensures Valid() && Feed(State(), Pending()) == Feed(old(State()), old(Pending()))
      ensures |acInBuffer| < |old(acInBuffer)| || (!more && |acInBuffer| <= |old(acInBuffer)|)
      ensures !more ==> Find(acInBuffer, Terminator(State())) == None
    {
      var terminator := Terminator(State());
      var index := Find(acInBuffer, terminator);
      if index.Some? {
        TakeFound(index.value);
        return true;
      }
      var n := FindPrefixAtEnd(acInBuffer, terminator);
      KeepPrefix(n);
      return n == 0;
    }

    /** A terminator was found at index of the buffer. */
    method TakeFound(index: nat)
      requires Valid() && Find(acInBuffer, Terminator(State())) == Some(index)
      modifies this
      ensures Valid() && Feed(State(), Pending()) == Feed(old(State()), old(Pending()))
      ensures |acInBuffer| < |old(acInBuffer)|
    {
      hide Feed, Found, Find, Terminator, SmtpLaws.Valid, Past;
      ghost var was := Join(line, "");
      FeedFound(State(), was, acInBuffer, index);
      if index > 0 {
        CollectIncomingData(acInBuffer[..index]);
      } else {
        assert was + acInBuffer[..index] == was;
      }
      acInBuffer := acInBuffer[index + |Terminator(State())|..];
      FoundTerminator();
      assert Join(line, "") + acInBuffer == acInBuffer;
      NothingPast(acInBuffer, Terminator(State()));
    }

    /** No terminator was found: all but the last n characters of the buffer are collected. */
    method KeepPrefix(n: nat)
      requires Valid() && Find(acInBuffer, Terminator(State())) == None
      requires n <= |acInBuffer| && IsPrefixAtEnd(acInBuffer, Terminator(State()), n)
      modifies this`line, this`acInBuffer
      ensures Valid() && Pending() == old(Pending())
      ensures acInBuffer == old(acInBuffer)[|old(acInBuffer)| - n..]
      ensures Find(acInBuffer, Terminator(State())) == None
    {
      hide Past, Find, IsPrefixAtEnd, Terminator, SmtpLaws.Valid;
      ghost var was, buffer := Join(line, ""), acInBuffer;
      CollectingIsSafe(was, buffer, Terminator(State()), n);
      ShortHasNone(buffer, Terminator(State()), n);
      CutRegroups(was, buffer, n);
      if n != |acInBuffer| {
        CollectIncomingData(acInBuffer[..|acInBuffer| - n]);
        acInBuffer := acInBuffer[|acInBuffer| - n..];
      }
    }
  }

  lemma CutRegroups(collected: string, buffer: string, n: nat)
    requires n <= |buffer|
    ensures (collected + buffer[..|buffer| - n]) + buffer[|buffer| - n..] == collected + buffer
    ensures n == |buffer| ==> collected + buffer[..|buffer| - n] == collected && buffer[|buffer| - n..] == buffer
  {
  }

  lemma NothingPast(buffer: string, t: string)
    ensures Past(Join([], ""), buffer, t)
  {
  }

  /** The first terminator in the buffer ends the line that was being collected. */
  lemma FeedFound(c: Channel, collected: string, buffer: string, index: nat)
    requires Past(collected, buffer, Terminator(c)) && Find(buffer, Terminator(c)) == Some(index)
    ensures Feed(c, collected + buffer)
            == Feed(Found(c, collected + buffer[..index]), buffer[index + |Terminator(c)|..])
  {
    hide Find, Found, Past;
    var s, t, n := collected + buffer, Terminator(c), |collected|;
    FindPast(collected, buffer, t);
    assert s[..n + index] == collected + buffer[..index];
    assert s[n + index + |t|..] == buffer[index + |t|..];
  }

  lemma ShortHasNone(buffer: string, t: string, n: nat)
    requires n <= |buffer| && IsPrefixAtEnd(buffer, t, n)
    ensures Find(buffer[|buffer| - n..], t) == None
  {
    FindIsNone(buffer[|buffer| - n..], t);
  }

  lemma {:induction false} JoinOneMore(parts: seq<string>, data: string)
    ensures Join(parts + [data], "") == Join(parts, "") + data
  {
    if |parts| == 0 {
      assert parts + [data] == [data];
    } else if |parts| == 1 {
      assert (parts + [data])[1..] == [data];
      assert parts[0] + "" + data == parts[0] + data;
    } else {
      assert (parts + [data])[1..] == parts[1..] + [data];
      JoinOneMore(parts[1..], data);
      assert parts[0] + "" + (Join(parts[1..], "") + data) == (parts[0] + "" + Join(parts[1..], "")) + data;
    }
  }

  method FindPrefixAtEnd(haystack: string, needle: string) returns (n: nat)
    requires needle != ""
    ensures IsPrefixAtEnd(haystack, needle, n) && n <= |haystack|
  {
    n := |needle| - 1;
    while n > 0 && !EndsWith(haystack, needle[..n])
      invariant n < |needle| && forall k :: n < k < |needle| ==> !EndsWith(haystack, needle[..k])
    {
      n := n - 1;
    }
  }
}
