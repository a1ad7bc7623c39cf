/** A whole mail transaction, from the client's side: what is sent is what is delivered, in whatever pieces it comes. */
module SmtpSession {
  import opened Wrappers
  import opened PyStrings
  import opened Sequences
  import opened SmtpState
  import opened SmtpLaws

  // ----- one command line -----

  lemma FeedLine(c: Channel, line: string, rest: string)
    requires !c.data && '\r' !in line
    ensures Feed(c, line + CRLF + rest) == Feed(Found(c, line), rest)
  {
    var s := line + CRLF + rest;
    forall p | 0 <= p < |line| ensures !MatchAt(s, CRLF, p) {
      assert s[p] == line[p];
      if p + 2 <= |s| { assert s[p..p + 2][0] == line[p]; }
    }
    assert s[|line|..|line| + 2] == CRLF;
    FindIs(s, CRLF, |line|);
    assert s[..|line|] == line && s[|line| + 2..] == rest;
  }

  lemma StripKeeps(s: string)
    requires s != "" && !IsSpace(s[0]) && !IsSpace(s[|s| - 1])
    ensures Strip(s) == s
  {
  }

  /** A line of a word without blanks, a blank and an argument. */
  lemma CommandLine(word: string, arg: string)
    requires ' ' !in word && Strip(arg) == arg
    ensures CommandOf(word + " " + arg) == Upper(word) && ArgOf(word + " " + arg) == Some(arg)
  {
    var line := word + " " + arg;
    forall p | 0 <= p < |word| ensures !MatchAt(line, " ", p) {
      assert line[p] == word[p];
      assert line[p..p + 1][0] == word[p];
    }
    assert line[|word|..|word| + 1] == " ";
    FindIs(line, " ", |word|);
    assert line[..|word|] == word && line[|word| + 1..] == arg;
  }

  lemma BracketedAddress(keyword: string, a: string)
    requires Upper(keyword) == keyword && a != ""
    ensures GetAddr(keyword, keyword + "<" + a + ">") == Some(a)
  {
    var arg, address := keyword + "<" + a + ">", "<" + a + ">";
    assert arg[..|keyword|] == keyword && arg[|keyword|..] == address;
    StripKeeps(address);
    assert Inner(address) == a;
  }

  lemma MailParts(a: string)
    requires a != ""
    ensures CommandOf("MAIL FROM:<" + a + ">") == "MAIL" && ArgOf("MAIL FROM:<" + a + ">") == Some("FROM:<" + a + ">")
    ensures AddressIn("FROM:", Some("FROM:<" + a + ">")) == Some(a)
  {
    var arg := "FROM:<" + a + ">";
    assert "MAIL FROM:<" + a + ">" == "MAIL" + " " + arg;
    StripKeeps(arg);
    assert Upper("MAIL") == "MAIL" && Upper("FROM:") == "FROM:";
    hide CommandOf, ArgOf, GetAddr, Strip, Upper;
    CommandLine("MAIL", arg);
    assert arg == "FROM:" + "<" + a + ">";
    BracketedAddress("FROM:", a);
  }

  lemma MailLine(c: Channel, a: string)
    requires !c.data && !Truthy(c.mailfrom) && a != ""
    ensures Found(c, "MAIL FROM:<" + a + ">") == Reply(c.(mailfrom := Some(a)), 250)
  {
    hide CommandOf, ArgOf, AddressIn;
    MailParts(a);
  }

  lemma RcptParts(a: string)
    requires a != ""
    ensures CommandOf("RCPT TO:<" + a + ">") == "RCPT" && ArgOf("RCPT TO:<" + a + ">") == Some("TO:<" + a + ">")
    ensures AddressIn("TO:", Some("TO:<" + a + ">")) == Some(a)
  {
    var arg := "TO:<" + a + ">";
    assert "RCPT TO:<" + a + ">" == "RCPT" + " " + arg;
    StripKeeps(arg);
    assert Upper("RCPT") == "RCPT" && Upper("TO:") == "TO:";
    hide CommandOf, ArgOf, GetAddr, Strip, Upper;
    CommandLine("RCPT", arg);
    assert arg == "TO:" + "<" + a + ">";
    BracketedAddress("TO:", a);
  }

  lemma RcptLine(c: Channel, a: string)
    requires !c.data && Truthy(c.mailfrom) && a != ""
    ensures Found(c, "RCPT TO:<" + a + ">") == Reply(c.(rcpttos := c.rcpttos + [a]), 250)
  {
    hide CommandOf, ArgOf, AddressIn;
    RcptParts(a);
  }

  lemma WordAlone(word: string)
    requires ' ' !in word
    ensures CommandOf(word) == Upper(word) && ArgOf(word) == None
  {
    forall p | 0 <= p <= |word| ensures !MatchAt(word, " ", p) {
      if p < |word| { assert word[p..p + 1][0] == word[p]; }
    }
    FindIsNone(word, " ");
  }

  lemma DataLine(c: Channel)
    requires !c.data && c.rcpttos != []
    ensures Found(c, "DATA") == Reply(c.(data := true), 354)
  {
    WordAlone("DATA");
    assert Upper("DATA") == "DATA";
    hide CommandOf, ArgOf;
  }

  // ----- one transaction -----

  ghost predicate Address(a: string) {
    a != "" && '\r' !in a
  }

  ghost predicate Addresses(rs: seq<string>) {
    forall k :: 0 <= k < |rs| ==> Address(rs[k])
  }

  function RcptLines(rs: seq<string>): string {
    if rs == [] then "" else "RCPT TO:<" + rs[0] + ">" + CRLF + RcptLines(rs[1..])
  }

  /** What a client sends to mail lines from sender to the recipients. */
  function Transaction(sender: string, rs: seq<string>, lines: seq<string>): string {
    "MAIL FROM:<" + sender + ">" + CRLF + (RcptLines(rs) + ("DATA" + CRLF + (Body(lines) + END_OF_DATA)))
  }

  lemma RcptStep(c: Channel, rs: seq<string>, rest: string)
    requires !c.data && Truthy(c.mailfrom) && Addresses(rs) && rs != []
    ensures Feed(c, RcptLines(rs) + rest)
            == Feed(Reply(c.(rcpttos := c.rcpttos + [rs[0]]), 250), RcptLines(rs[1..]) + rest)
  {
    hide Feed, Found, Reply;
    var line := "RCPT TO:<" + rs[0] + ">";
    assert Address(rs[0]);
    assert RcptLines(rs) + rest == line + CRLF + (RcptLines(rs[1..]) + rest);
    RcptLine(c, rs[0]);
    FeedLine(c, line, RcptLines(rs[1..]) + rest);
  }

  /** As many acceptances. */
  function Accepted(n: nat): seq<nat> {
    seq(n, _ => 250)
  }

  /** The channel after accepting the recipients. */
  function WithRcpts(c: Channel, rs: seq<string>): (d: Channel)
    ensures d == c.(rcpttos := c.rcpttos + rs, replies := c.replies + Accepted(|rs|))
    decreases |rs|
  {
    if rs == [] then c else
    assert c.rcpttos + rs == (c.rcpttos + [rs[0]]) + rs[1..];
    assert c.replies + Accepted(|rs|) == (c.replies + [250]) + Accepted(|rs[1..]|);
    WithRcpts(Reply(c.(rcpttos := c.rcpttos + [rs[0]]), 250), rs[1..])
  }

  lemma {:induction false} FeedRcpts(c: Channel, rs: seq<string>, rest: string)
    requires !c.data && Truthy(c.mailfrom) && Addresses(rs)
    ensures Feed(c, RcptLines(rs) + rest) == Feed(WithRcpts(c, rs), rest)
    decreases |rs|
  {
    if rs == [] {
      assert RcptLines(rs) + rest == rest;
    } else {
      hide Feed, RcptLines;
      RcptStep(c, rs, rest);
      FeedRcpts(Reply(c.(rcpttos := c.rcpttos + [rs[0]]), 250), rs[1..], rest);
    }
  }

  lemma FeedMessage(c: Channel, lines: seq<string>, rest: string)
    requires c.data && lines != [] && Lines(lines)
    ensures Feed(c, Body(lines) + END_OF_DATA + rest) == Feed(Found(c, Body(lines)), rest)
  {
    hide Body, Found;
    var s := Body(lines) + END_OF_DATA + rest;
    EndIsAtTheEnd(lines, rest);
    assert s[..|Body(lines)|] == Body(lines) && s[|Body(lines)| + 5..] == rest;
  }

  /**
   A transaction in an idle channel delivers one message: the sender, the recipients in order, and exactly the lines
   that were sent; each command and the message are accepted, and the channel is idle again.
   */
  lemma TransactionDelivers(c: Channel, sender: string, rs: seq<string>, lines: seq<string>,
      rest: string) returns (d: Channel)
    requires !c.data && !Truthy(c.mailfrom) && c.rcpttos == []
    requires Address(sender) && rs != [] && Addresses(rs) && lines != [] && Lines(lines)
    ensures Feed(c, Transaction(sender, rs, lines) + rest) == Feed(d, rest)
    ensures d.delivered == c.delivered + [Message(Some(sender), rs, Join(lines, "\n"))]
    ensures !d.data && d.mailfrom == None && d.rcpttos == [] && d.closing == c.closing && d.greeting == c.greeting
    ensures d.text == Join(lines, "\n") && d.replies == c.replies + ([250] + Accepted(|rs|) + [354, 250])
  {
    hide Feed, Found, RcptLines, Body, Decoded, Accepted, Join;
    var last := Body(lines) + END_OF_DATA + rest;
    var third := "DATA" + CRLF + last;
    var second := RcptLines(rs) + third;
    TransactionParts(sender, rs, lines, rest);
    MailLine(c, sender);
    FeedLine(c, "MAIL FROM:<" + sender + ">", second);
    var withSender := Reply(c.(mailfrom := Some(sender)), 250);
    var withRcpts := WithRcpts(withSender, rs);
    FeedRcpts(withSender, rs, third);
    assert withRcpts.rcpttos == rs;
    DataLine(withRcpts);
    FeedLine(withRcpts, "DATA", last);
    var inData := Reply(withRcpts.(data := true), 354);
    FeedMessage(inData, lines, rest);
    MessageEnds(inData, lines);
    d := Found(inData, Body(lines));
    RepliesJoin(c.replies, Accepted(|rs|));
  }

  lemma MessageEnds(c: Channel, lines: seq<string>)
    requires c.data && lines != [] && Lines(lines)
    ensures var text := Join(lines, "\n");
            Found(c, Body(lines))
            == c.(text := text, delivered := c.delivered + [Message(c.mailfrom, c.rcpttos, text)],
                  rcpttos := [], mailfrom := None, data := false, replies := c.replies + [250])
  {
    hide Body, Decoded, Join;
    DecodedBody(lines);
  }

  lemma RepliesJoin(r: seq<nat>, accepted: seq<nat>)
    ensures r + [250] + accepted + [354] + [250] == r + ([250] + accepted + [354, 250])
  {
  }

  lemma TransactionParts(sender: string, rs: seq<string>, lines: seq<string>, rest: string)
    ensures Transaction(sender, rs, lines) + rest
            == "MAIL FROM:<" + sender + ">" + CRLF
                + (RcptLines(rs) + ("DATA" + CRLF + (Body(lines) + END_OF_DATA + rest)))
  {
    hide RcptLines, Body;
    var a, b, d := "MAIL FROM:<" + sender + ">" + CRLF, RcptLines(rs), "DATA" + CRLF;
    Regroup(d, Body(lines) + END_OF_DATA, rest);
    Regroup(b, d + (Body(lines) + END_OF_DATA), rest);
    Regroup(a, b + (d + (Body(lines) + END_OF_DATA)), rest);
  }

  // ----- any pieces -----

  function Concat(pieces: seq<string>): string {
    if pieces == [] then "" else pieces[0] + Concat(pieces[1..])
  }

  /** One handle_read after the other. */
  function FeedAll(f: Fed, pieces: seq<string>): Fed
    decreases |pieces|
  {
    if pieces == [] then f else FeedAll(Feed(f.chan, f.rest + pieces[0]), pieces[1..])
  }

  lemma {:induction false} FeedAllIsFeed(f: Fed, pieces: seq<string>)
    requires Feed(f.chan, f.rest) == f
    ensures FeedAll(f, pieces) == Feed(f.chan, f.rest + Concat(pieces))
    decreases |pieces|
  {
    hide Feed;
    if pieces == [] {
      assert f.rest + "" == f.rest;
    } else {
      var g := Feed(f.chan, f.rest + pieces[0]);
      FedIsDone(f.chan, f.rest + pieces[0]);
      FeedAllIsFeed(g, pieces[1..]);
      FeedInPieces(f.chan, f.rest + pieces[0], Concat(pieces[1..]));
      Regroup(f.rest, pieces[0], Concat(pieces[1..]));
    }
  }

  lemma FedIsDone(c: Channel, s: string)
    ensures Feed(Feed(c, s).chan, Feed(c, s).rest) == Feed(c, s)
  {
    RestHasNoTerminator(c, s);
  }

  /** However the network cuts a transaction, the server gets the message that was sent. */
  lemma MailGetsThrough(sender: string, rs: seq<string>, lines: seq<string>, pieces: seq<string>)
    requires Address(sender) && rs != [] && Addresses(rs) && lines != [] && Lines(lines)
    requires Concat(pieces) == Transaction(sender, rs, lines)
    ensures var f := FeedAll(Fed(Opened(), ""), pieces);
            && f.chan.delivered == [Message(Some(sender), rs, Join(lines, "\n"))] && f.rest == "" && !f.chan.data
            && f.chan.replies == [220, 250] + Accepted(|rs|) + [354, 250]
  {
    EmptyFeeds(Opened());
    FeedAllIsFeed(Fed(Opened(), ""), pieces);
    assert "" + Concat(pieces) == Transaction(sender, rs, lines) + "";
    var d := TransactionDelivers(Opened(), sender, rs, lines, "");
    EmptyFeeds(d);
  }

  lemma EmptyFeeds(c: Channel)
    ensures Feed(c, "") == Fed(c, "")
  {
    FindIsNone("", Terminator(c));
  }
}
