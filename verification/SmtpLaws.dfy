/** Transparency, framing and what is delivered. */
module SmtpLaws {
  import opened Wrappers
  import opened PyStrings
  import opened SmtpState

  // ----- finding -----

  lemma {:induction false} FindFromIsFirst(s: string, t: string, from: nat)
    requires from <= |s|
    ensures FindFrom(s, t, from).Some? ==> forall p :: from <= p < FindFrom(s, t, from).value ==> !MatchAt(s, t, p)
    ensures FindFrom(s, t, from).None? ==> forall p :: from <= p ==> !MatchAt(s, t, p)
    decreases |s| - from
  {
    if !MatchAt(s, t, from) && from < |s| { FindFromIsFirst(s, t, from + 1); }
  }

  lemma FindIs(s: string, t: string, i: nat)
    requires MatchAt(s, t, i) && forall p :: 0 <= p < i ==> !MatchAt(s, t, p)
    ensures Find(s, t) == Some(i)
  {
    FindFromIsFirst(s, t, 0);
  }

  lemma FindIsNone(s: string, t: string)
    requires forall p :: 0 <= p <= |s| ==> !MatchAt(s, t, p)
    ensures Find(s, t) == None
  {
    FindFromIsFirst(s, t, 0);
  }

  // ----- transparency -----

  /** A line of text as it goes over the wire. */
  function Stuffed(text: string): string {
    if text != "" && text[0] == '.' then "." + text else text
  }

  function StuffedAll(texts: seq<string>): seq<string> {
    seq(|texts|, k requires 0 <= k < |texts| => Stuffed(texts[k]))
  }

  /** The message body as a sender transmits it, up to the end of data. */
  function Body(lines: seq<string>): string {
    Join(StuffedAll(lines), CRLF)
  }

  ghost predicate Lines(lines: seq<string>) {
    forall k :: 0 <= k < |lines| ==> '\r' !in lines[k] && '\n' !in lines[k]
  }

  lemma BodyStep(lines: seq<string>)
    requires |lines| > 1
    ensures Body(lines) == Stuffed(lines[0]) + CRLF + Body(lines[1..])
  {
    assert StuffedAll(lines)[1..] == StuffedAll(lines[1..]);
  }

  lemma BodyOne(line: string)
    ensures Body([line]) == Stuffed(line)
  {
    assert StuffedAll([line]) == [Stuffed(line)];
  }

  /** No end of data begins in a line, or in the line break after it, unless what follows is a dot and a line break. */
  lemma NoEndInHead(head: string, rest: string, p: nat)
    requires '\r' !in head && p < |head| + 2 && |rest| >= 2 && (rest[0] == '.' ==> rest[1] == '.')
    ensures !MatchAt(head + CRLF + rest, END_OF_DATA, p)
  {
    var s := head + CRLF + rest;
    if p < |head| {
      assert s[p] == head[p];
    } else if p == |head| {
      assert s[p + 2] == rest[0] && s[p + 3] == rest[1];
      if p + 5 <= |s| { assert s[p..p + 5][2] == rest[0] && s[p..p + 5][3] == rest[1]; }
    } else {
      assert s[p] == '\n';
    }
  }

  lemma MatchLater(head: string, rest: string, t: string, p: nat)
    ensures MatchAt(head + rest, t, |head| + p) <==> MatchAt(rest, t, p)
  {
    if p + |t| <= |rest| { assert (head + rest)[|head| + p..|head| + p + |t|] == rest[p..p + |t|]; }
  }

  /** A transmitted body never continues with a line that is a single dot. */
  lemma {:induction false} NoEndInside(lines: seq<string>, tail: string, p: nat)
    requires lines != [] && Lines(lines) && p < |Body(lines)|
    ensures !MatchAt(Body(lines) + END_OF_DATA + tail, END_OF_DATA, p)
    decreases |lines|
  {
    hide Body, MatchAt;
    var head := Stuffed(lines[0]);
    assert '\r' !in head;
    if |lines| == 1 {
      assert lines == [lines[0]];
      BodyOne(lines[0]);
      NoEndInLine(head, tail, p);
    } else {
      var rest := Body(lines[1..]) + END_OF_DATA + tail;
      BodyStep(lines);
      assert Body(lines) + END_OF_DATA + tail == (head + CRLF) + rest;
      BodyStart(lines[1..], tail);
      if p < |head| + 2 {
        NoEndInHead(head, rest, p);
      } else {
        NoEndInside(lines[1..], tail, p - |head| - 2);
        MatchLater(head + CRLF, rest, END_OF_DATA, p - |head| - 2);
      }
    }
  }

  lemma NoEndInLine(head: string, tail: string, p: nat)
    requires '\r' !in head && p < |head|
    ensures !MatchAt(head + END_OF_DATA + tail, END_OF_DATA, p)
  {
    assert (head + END_OF_DATA + tail)[p] == head[p];
  }

  lemma BodyStart(lines: seq<string>, tail: string)
    requires lines != [] && Lines(lines)
    ensures var s := Body(lines) + END_OF_DATA + tail; s[0] == '.' ==> s[1] == '.'
  {
    if |lines| > 1 { BodyStep(lines); } else { assert lines == [lines[0]]; BodyOne(lines[0]); }
  }

  /** The first end of data in a transmitted message is the one that ends it. */
  lemma EndIsAtTheEnd(lines: seq<string>, tail: string)
    requires lines != [] && Lines(lines)
    ensures Find(Body(lines) + END_OF_DATA + tail, END_OF_DATA) == Some(|Body(lines)|)
  {
    var s := Body(lines) + END_OF_DATA + tail;
    forall p | 0 <= p < |Body(lines)| ensures !MatchAt(s, END_OF_DATA, p) {
      NoEndInside(lines, tail, p);
    }
    FindIs(s, END_OF_DATA, |Body(lines)|);
  }

  lemma DecodedBody(lines: seq<string>)
    requires lines != [] && Lines(lines)
    ensures Decoded(Body(lines)) == Join(lines, "\n")
  {
    var wire := StuffedAll(lines);
    assert wire == [wire[0]] + wire[1..];
    forall k | 0 <= k < |wire| ensures '\r' !in wire[k] {
      assert wire[k] == Stuffed(lines[k]);
    }
    SplitUndoesJoin(wire[0], wire[1..], CRLF);
    assert UnstuffedAll(wire) == lines;
  }

  /** Every message but one without lines gets through: the text holds exactly the lines sent. */
  lemma Transparency(lines: seq<string>)
    requires Lines(lines)
    ensures Split(Decoded(Body(lines)), "\n") == lines <==> lines != []
  {
    if lines != [] {
      DecodedBody(lines);
      assert lines == [lines[0]] + lines[1..];
      SplitUndoesJoin(lines[0], lines[1..], "\n");
    }
  }

  /** A message without lines cannot be ended: its dot follows the command's line break, which is gone. */
  lemma EmptyMessageIsNotEnded(c: Channel)
    requires c.data
    ensures Feed(c, "." + CRLF) == Fed(c, "." + CRLF)
  {
    FindIsNone("." + CRLF, END_OF_DATA);
  }

  // ----- feeding piece by piece -----

  lemma MatchEarlier(s: string, more: string, t: string, p: nat)
    requires p + |t| <= |s|
    ensures MatchAt(s + more, t, p) <==> MatchAt(s, t, p)
  {
    assert (s + more)[p..p + |t|] == s[p..p + |t|];
  }

  /** Once a terminator is found, more input does not move it. */
  lemma FindStays(s: string, more: string, t: string)
    requires Find(s, t).Some?
    ensures Find(s + more, t) == Find(s, t)
  {
    var i := Find(s, t).value;
    FindFromIsFirst(s, t, 0);
    MatchEarlier(s, more, t, i);
    forall p | 0 <= p < i ensures !MatchAt(s + more, t, p) {
      MatchEarlier(s, more, t, p);
    }
    FindIs(s + more, t, i);
  }

  /** A stream may come in any pieces. */
  lemma {:induction false} FeedInPieces(c: Channel, s: string, more: string)
    ensures Feed(c, s + more) == Feed(Feed(c, s).chan, Feed(c, s).rest + more)
    decreases |s|
  {
    hide Found, Find, Terminator;
    var t := Terminator(c);
    match Find(s, t)
    case None =>
    case Some(i) =>
      FindStays(s, more, t);
      assert (s + more)[..i] == s[..i] && (s + more)[i + |t|..] == s[i + |t|..] + more;
      FeedInPieces(Found(c, s[..i]), s[i + |t|..], more);
  }

  lemma {:induction false} RestHasNoTerminator(c: Channel, s: string)
    ensures Find(Feed(c, s).rest, Terminator(Feed(c, s).chan)) == None
    decreases |s|
  {
    hide Found, Find, Terminator;
    match Find(s, Terminator(c))
    case None =>
    case Some(i) => RestHasNoTerminator(Found(c, s[..i]), s[i + |Terminator(c)|..]);
  }

  // ----- only complete messages are delivered -----

  ghost predicate Complete(m: Message) {
    Truthy(m.sender) && m.recipients != [] && forall k :: 0 <= k < |m.recipients| ==> m.recipients[k] != ""
  }

  ghost predicate Valid(c: Channel) {
    && (c.data ==> c.rcpttos != [])
    && (c.rcpttos != [] ==> Truthy(c.mailfrom))
    && (forall k :: 0 <= k < |c.rcpttos| ==> c.rcpttos[k] != "")
    && (forall k :: 0 <= k < |c.delivered| ==> Complete(c.delivered[k]))
  }

  lemma MailKeeps(c: Channel, arg: Option<string>)
    requires Valid(c)
    ensures Valid(Mail(c, arg)) && Mail(c, arg).delivered == c.delivered
    ensures Truthy(c.mailfrom) ==> Mail(c, arg).mailfrom == c.mailfrom
    ensures Mail(c, arg).mailfrom != c.mailfrom ==> Truthy(Mail(c, arg).mailfrom)
  {
    hide AddressIn;
  }

  lemma RcptKeeps(c: Channel, arg: Option<string>)
    requires Valid(c)
    ensures Valid(Rcpt(c, arg)) && Rcpt(c, arg).delivered == c.delivered
    ensures var rs := Rcpt(c, arg).rcpttos;
            rs == c.rcpttos || (Truthy(c.mailfrom) && exists a :: a != "" && rs == c.rcpttos + [a])
  {
    hide AddressIn;
  }

  lemma OthersKeep(c: Channel, arg: Option<string>, code: nat)
    requires Valid(c)
    ensures Valid(Helo(c, arg)) && Helo(c, arg).delivered == c.delivered
    ensures Valid(Rset(c, arg)) && Rset(c, arg).delivered == c.delivered
    ensures Valid(Data(c, arg)) && Data(c, arg).delivered == c.delivered
    ensures Valid(Reply(c, code)) && Reply(c, code).delivered == c.delivered
    ensures Valid(Reply(c, code).(closing := true))
  {
  }

  lemma DispatchKeeps(c: Channel, command: string, arg: Option<string>)
    requires Valid(c)
    ensures Valid(Dispatch(c, command, arg)) && Dispatch(c, command, arg).delivered == c.delivered
  {
    MailKeeps(c, arg);
    RcptKeeps(c, arg);
    OthersKeep(c, arg, 221);
    OthersKeep(c, arg, 502);
    OthersKeep(c, arg, if Truthy(arg) then 501 else 250);
    hide Valid, Mail, Rcpt, Helo, Rset, Data;
  }

  lemma FoundKeeps(c: Channel, line: string)
    requires Valid(c)
    ensures Valid(Found(c, line)) && c.delivered <= Found(c, line).delivered
    ensures |Found(c, line).delivered| == |c.delivered| + if c.data then 1 else 0
  {
    hide Dispatch, CommandOf, ArgOf, Decoded;
    if c.data {
    } else if line == "" {
      OthersKeep(c, None, 500);
    } else {
      DispatchKeeps(c, CommandOf(line), ArgOf(line));
    }
  }

  /** Whatever a client sends, a message is delivered only with a sender and at least one recipient. */
  lemma {:induction false} FeedKeeps(c: Channel, s: string)
    requires Valid(c)
    ensures Valid(Feed(c, s).chan) && c.delivered <= Feed(c, s).chan.delivered
    decreases |s|
  {
    hide Found, Find, Terminator, Valid;
    match Find(s, Terminator(c))
    case None =>
    case Some(i) =>
      FoundKeeps(c, s[..i]);
      FeedKeeps(Found(c, s[..i]), s[i + |Terminator(c)|..]);
  }

  // ----- a channel remembers nothing but the transaction under way -----

  /** Two channels in the same place of the same transaction. */
  predicate Alike(c: Channel, d: Channel) {
    c.data == d.data && c.mailfrom == d.mailfrom && c.rcpttos == d.rcpttos
  }

  /** What came to be delivered since. */
  function Since(c: Channel, c': Channel): seq<Message> {
    if |c.delivered| <= |c'.delivered| then c'.delivered[|c.delivered|..] else []
  }

  lemma DispatchAlike(c: Channel, d: Channel, command: string, arg: Option<string>)
    requires Alike(c, d)
    ensures Alike(Dispatch(c, command, arg), Dispatch(d, command, arg))
    ensures Dispatch(c, command, arg).delivered == c.delivered && Dispatch(d, command, arg).delivered == d.delivered
  {
    hide AddressIn;
    HandlersAlike(c, d, arg);
    MailAlike(c, d, arg);
    RcptAlike(c, d, arg);
    hide Alike, Mail, Rcpt, Helo, Rset, Data;
    RepliesAlike(c, d);
  }

  lemma RepliesAlike(c: Channel, d: Channel)
    requires Alike(c, d)
    ensures forall code :: Alike(Reply(c, code), Reply(d, code))
    ensures Alike(Reply(c, 221).(closing := true), Reply(d, 221).(closing := true))
  {
  }

  lemma HandlersAlike(c: Channel, d: Channel, arg: Option<string>)
    requires Alike(c, d)
    ensures Alike(Helo(c, arg), Helo(d, arg)) && Helo(c, arg).delivered == c.delivered
            && Helo(d, arg).delivered == d.delivered
    ensures Alike(Rset(c, arg), Rset(d, arg)) && Rset(c, arg).delivered == c.delivered
            && Rset(d, arg).delivered == d.delivered
    ensures Alike(Data(c, arg), Data(d, arg)) && Data(c, arg).delivered == c.delivered
            && Data(d, arg).delivered == d.delivered
  {
  }

  lemma MailAlike(c: Channel, d: Channel, arg: Option<string>)
    requires Alike(c, d)
    ensures Alike(Mail(c, arg), Mail(d, arg)) && Mail(c, arg).delivered == c.delivered
            && Mail(d, arg).delivered == d.delivered
  {
    hide AddressIn;
  }

  lemma RcptAlike(c: Channel, d: Channel, arg: Option<string>)
    requires Alike(c, d)
    ensures Alike(Rcpt(c, arg), Rcpt(d, arg)) && Rcpt(c, arg).delivered == c.delivered
            && Rcpt(d, arg).delivered == d.delivered
  {
    hide AddressIn;
  }

  lemma FoundAlike(c: Channel, d: Channel, line: string)
    requires Alike(c, d)
    ensures Alike(Found(c, line), Found(d, line)) && Since(c, Found(c, line)) == Since(d, Found(d, line))
    ensures c.delivered <= Found(c, line).delivered && d.delivered <= Found(d, line).delivered
  {
    hide Dispatch, CommandOf, ArgOf, Decoded;
    if !c.data && line != "" {
      DispatchAlike(c, d, CommandOf(line), ArgOf(line));
    }
  }

  /** What feeding two channels alike comes to. */
  ghost predicate FedAlike(c: Channel, d: Channel, f: Fed, g: Fed) {
    && Alike(f.chan, g.chan) && f.rest == g.rest && Since(c, f.chan) == Since(d, g.chan)
    && c.delivered <= f.chan.delivered && d.delivered <= g.chan.delivered
  }

  lemma FedAlikeLater(c: Channel, d: Channel, c1: Channel, d1: Channel, f: Fed, g: Fed)
    requires FedAlike(c1, d1, f, g) && Since(c, c1) == Since(d, d1)
    requires c.delivered <= c1.delivered && d.delivered <= d1.delivered
    ensures FedAlike(c, d, f, g)
  {
    assert Since(c, f.chan) == Since(c, c1) + Since(c1, f.chan);
    assert Since(d, g.chan) == Since(d, d1) + Since(d1, g.chan);
  }

  /** Two channels alike make the same of whatever is sent: the same rest, the same messages, and they stay alike. */
  lemma {:induction false} FeedAlike(c: Channel, d: Channel, s: string)
    requires Alike(c, d)
    ensures FedAlike(c, d, Feed(c, s), Feed(d, s))
    decreases |s|
  {
    hide Feed, Found, Find, FedAlike;
    assert Terminator(c) == Terminator(d);
    if Find(s, Terminator(c)).None? {
      NothingFed(c, d, s);
    } else {
      var i := Find(s, Terminator(c)).value;
      FeedStep(c, s, i);
      FeedStep(d, s, i);
      hide Terminator, Alike;
      var c1, d1, rest := Found(c, s[..i]), Found(d, s[..i]), s[i + |Terminator(c)|..];
      FoundAlike(c, d, s[..i]);
      FeedAlike(c1, d1, rest);
      FedAlikeLater(c, d, c1, d1, Feed(c1, rest), Feed(d1, rest));
    }
  }

  lemma FeedStep(c: Channel, s: string, i: nat)
    requires Find(s, Terminator(c)) == Some(i)
    ensures i + |Terminator(c)| <= |s| && Feed(c, s) == Feed(Found(c, s[..i]), s[i + |Terminator(c)|..])
  {
    hide Found, Find, Terminator;
  }

  lemma NothingFed(c: Channel, d: Channel, s: string)
    requires Alike(c, d) && Find(s, Terminator(c)) == None
    ensures FedAlike(c, d, Feed(c, s), Feed(d, s))
  {
    hide Found, Find;
  }

  /** After RSET a channel delivers of what follows exactly what a new channel would. */
  lemma RsetStartsOver(c: Channel, arg: Option<string>, s: string)
    requires !Truthy(arg)
    ensures var r := Rset(c, arg);
            && Feed(r, s).chan.delivered == c.delivered + Feed(Opened(), s).chan.delivered
            && Feed(r, s).rest == Feed(Opened(), s).rest && r.greeting == c.greeting
  {
    var r, o := Rset(c, arg), Opened();
    FeedAlike(r, o, s);
    assert r.delivered == c.delivered;
    assert Since(o, Feed(o, s).chan) == Feed(o, s).chan.delivered;
  }

  /** DATA is accepted exactly with recipients and without an argument. */
  lemma DataNeedsRecipients(c: Channel, arg: Option<string>)
    requires Valid(c) && !c.data
    ensures Data(c, arg).data <==> c.rcpttos != [] && !Truthy(arg)
    ensures Data(c, arg).data ==> Truthy(Data(c, arg).mailfrom) && Data(c, arg).rcpttos != []
  {
  }
}
