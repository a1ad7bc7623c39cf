/** What each command line a client may send does to the channel, in whatever case it comes, and what it is answered. */
module SmtpCommands {
  import opened Wrappers
  import opened PyStrings
  import opened SmtpState
  import opened SmtpLaws
  import opened SmtpSession

  /** A command line: a word, or a word, a blank and what is said. */
  function Line(word: string, said: Option<string>): string {
    if said.None? then word else word + " " + said.value
  }

  /** The line can be sent: it has no line break, and its word no blank. */
  predicate Sendable(word: string, said: Option<string>) {
    ' ' !in word && '\r' !in word && (said.Some? ==> '\r' !in said.value)
  }

  /** Nothing but blanks is said. */
  predicate Blank(said: Option<string>) {
    said.None? || Strip(said.value) == ""
  }

  lemma WordFirst(word: string, said: string)
    requires ' ' !in word
    ensures CommandOf(word + " " + said) == Upper(word) && ArgOf(word + " " + said) == Some(Strip(said))
  {
    hide Strip, Upper;
    var line := word + " " + said;
    forall p | 0 <= p < |word| ensures !MatchAt(line, " ", p) {
      assert line[p] == word[p];
      assert line[p..p + 1][0] == word[p];
    }
    assert line[|word|..|word| + 1] == " ";
    FindIs(line, " ", |word|);
    assert line[..|word|] == word && line[|word| + 1..] == said;
  }

  /** A line is dispatched by its word, with what is said. */
  lemma LineFeeds(c: Channel, word: string, said: Option<string>, s: string)
    requires !c.data && Sendable(word, said) && word != ""
    ensures var arg := if said.None? then None else Some(Strip(said.value));
            Feed(c, Line(word, said) + CRLF + s) == Feed(Dispatch(c, Upper(word), arg), s)
  {
    hide Feed, Dispatch, Strip, Upper, CommandOf, ArgOf;
    FeedLine(c, Line(word, said), s);
    if said.None? { WordAlone(word); } else { WordFirst(word, said.value); }
  }

  /** The channel, with one reply more. */
  function Replied(c: Channel, code: nat): Channel {
    c.(replies := c.replies + [code])
  }

  /** The words of the commands tell them apart. */
  lemma Dispatches(c: Channel, arg: Option<string>)
    ensures Dispatch(c, "HELO", arg) == Helo(c, arg) && Dispatch(c, "MAIL", arg) == Mail(c, arg)
    ensures Dispatch(c, "RCPT", arg) == Rcpt(c, arg) && Dispatch(c, "DATA", arg) == Data(c, arg)
    ensures Dispatch(c, "RSET", arg) == Rset(c, arg)
    ensures Dispatch(c, "QUIT", arg) == Replied(c, 221).(closing := true)
    ensures Dispatch(c, "NOOP", arg) == Replied(c, if Truthy(arg) then 501 else 250)
  {
    hide Helo, Mail, Rcpt, Data, Rset;
    assert "HELO"[0] == 'H' && "NOOP"[0] == 'N' && "QUIT"[0] == 'Q' && "MAIL"[0] == 'M' && "DATA"[0] == 'D';
    assert "RCPT"[1] == 'C' && "RSET"[1] == 'S' && "RCPT"[0] == "RSET"[0] == 'R';
  }

  /** RSET without an argument forgets the transaction; with one it is refused. */
  lemma RsetLine(c: Channel, word: string, said: Option<string>, s: string)
    requires !c.data && Upper(word) == "RSET" && Sendable(word, said)
    ensures Feed(c, Line(word, said) + CRLF + s)
            == Feed(if Blank(said) then Replied(c.(mailfrom := None, rcpttos := [], text := ""), 250)
                    else Replied(c, 501), s)
  {
    LineFeeds(c, word, said, s);
    Dispatches(c, if said.None? then None else Some(Strip(said.value)));
    hide Feed, Strip, Upper, Dispatch;
  }

  /** After a line RSET a channel delivers of what follows exactly what a new channel would. */
  lemma RsetLineStartsOver(c: Channel, word: string, said: Option<string>, s: string)
    requires !c.data && Upper(word) == "RSET" && Sendable(word, said) && Blank(said)
    ensures var f, o := Feed(c, Line(word, said) + CRLF + s), Feed(Opened(), s);
            f.chan.delivered == c.delivered + o.chan.delivered && f.rest == o.rest
  {
    var arg := if said.None? then None else Some(Strip(said.value));
    LineFeeds(c, word, said, s);
    Dispatches(c, arg);
    hide Feed, Strip, Upper, Dispatch, Rset;
    RsetStartsOver(c, arg, s);
  }

  /** NOOP changes nothing. */
  lemma NoopLine(c: Channel, word: string, said: Option<string>, s: string)
    requires !c.data && Upper(word) == "NOOP" && Sendable(word, said)
    ensures Feed(c, Line(word, said) + CRLF + s) == Feed(Replied(c, if Blank(said) then 250 else 501), s)
  {
    LineFeeds(c, word, said, s);
    Dispatches(c, if said.None? then None else Some(Strip(said.value)));
    hide Feed, Strip, Upper, Dispatch;
  }

  /** QUIT closes, whatever is said with it. */
  lemma QuitLine(c: Channel, word: string, said: Option<string>, s: string)
    requires !c.data && Upper(word) == "QUIT" && Sendable(word, said)
    ensures Feed(c, Line(word, said) + CRLF + s) == Feed(Replied(c, 221).(closing := true), s)
  {
    LineFeeds(c, word, said, s);
    Dispatches(c, if said.None? then None else Some(Strip(said.value)));
    hide Feed, Strip, Upper, Dispatch;
  }

  /** HELO notes its argument, once; without one it is refused. */
  lemma HeloLine(c: Channel, word: string, said: Option<string>, s: string)
    requires !c.data && Upper(word) == "HELO" && Sendable(word, said)
    ensures Feed(c, Line(word, said) + CRLF + s)
            == Feed(if Blank(said) then Replied(c, 501)
                    else if Truthy(c.greeting) then Replied(c, 503)
                    else Replied(c.(greeting := Some(Strip(said.value))), 250), s)
  {
    LineFeeds(c, word, said, s);
    Dispatches(c, if said.None? then None else Some(Strip(said.value)));
    hide Feed, Strip, Upper, Dispatch;
  }

  /** DATA is refused without recipients, and then with an argument; otherwise the message may come. */
  lemma DataLine(c: Channel, word: string, said: Option<string>, s: string)
    requires !c.data && Upper(word) == "DATA" && Sendable(word, said)
    ensures Feed(c, Line(word, said) + CRLF + s)
            == Feed(if c.rcpttos == [] then Replied(c, 503) else if !Blank(said) then Replied(c, 501)
                    else Replied(c.(data := true), 354), s)
  {
    LineFeeds(c, word, said, s);
    Dispatches(c, if said.None? then None else Some(Strip(said.value)));
    hide Feed, Strip, Upper, Dispatch;
  }

  /** Any other word is not implemented. */
  lemma OtherLine(c: Channel, word: string, said: Option<string>, s: string)
    requires !c.data && word != "" && Sendable(word, said)
    requires Upper(word) !in ["HELO", "NOOP", "QUIT", "MAIL", "RCPT", "RSET", "DATA"]
    ensures Feed(c, Line(word, said) + CRLF + s) == Feed(Replied(c, 502), s)
  {
    LineFeeds(c, word, said, s);
    NotDispatched(c, Upper(word), if said.None? then None else Some(Strip(said.value)));
    hide Feed, Strip, Upper, Dispatch;
  }

  lemma NotDispatched(c: Channel, command: string, arg: Option<string>)
    requires command !in ["HELO", "NOOP", "QUIT", "MAIL", "RCPT", "RSET", "DATA"]
    ensures Dispatch(c, command, arg) == Replied(c, 502)
  {
  }

  /** An empty line is bad syntax. */
  lemma EmptyLine(c: Channel, s: string)
    requires !c.data
    ensures Feed(c, CRLF + s) == Feed(Replied(c, 500), s)
  {
    FeedLine(c, "", s);
    assert "" + CRLF + s == CRLF + s;
  }

  // ----- addresses -----

  /**
   What is said names address a: behind the keyword, in whatever case, blanks at the ends aside, a stands alone or in
   angle brackets; a pair of brackets with nothing between them stands for itself.
   */
  predicate Names(keyword: string, said: Option<string>, a: string) {
    && a != "" && said.Some?
    && var arg := Strip(said.value);
       && |keyword| <= |arg| && Upper(arg[..|keyword|]) == keyword
       && var x := Strip(arg[|keyword|..]);
          x == if |x| >= 3 && x[0] == '<' && x[|x| - 1] == '>' then "<" + a + ">" else a
  }

  lemma NamesAddress(keyword: string, said: Option<string>, a: string)
    requires keyword != "" && Names(keyword, said, a)
    ensures AddressIn(keyword, Some(Strip(said.value))) == Some(a)
  {
    var x := Strip(Strip(said.value)[|keyword|..]);
    if |x| >= 3 && x[0] == '<' && x[|x| - 1] == '>' { assert Inner("<" + a + ">") == a; }
  }

  lemma AddressNames(keyword: string, said: Option<string>)
    requires keyword != ""
    ensures var r := AddressIn(keyword, if said.None? then None else Some(Strip(said.value)));
            Truthy(r) ==> Names(keyword, said, r.value)
  {
    hide Strip, Upper, Names;
    if said.Some? {
      var arg := Strip(said.value);
      var r := AddressIn(keyword, Some(arg));
      if Truthy(r) {
        AddressInIs(keyword, arg);
        AddressIsNamed(keyword, said, arg, Strip(arg[|keyword|..]), r.value);
      }
    }
  }

  /** The address that is taken, when there is one. */
  lemma AddressInIs(keyword: string, arg: string)
    requires keyword != "" && Truthy(AddressIn(keyword, Some(arg)))
    ensures |keyword| <= |arg| && Upper(arg[..|keyword|]) == keyword
    ensures var x := Strip(arg[|keyword|..]);
            x != "" && AddressIn(keyword, Some(arg))
                       == Some(if x[0] == '<' && x[|x| - 1] == '>' && x != "<>" then Inner(x) else x)
  {
    hide Strip;
  }

  lemma AddressIsNamed(keyword: string, said: Option<string>, arg: string, x: string, a: string)
    requires said.Some? && arg == Strip(said.value) && |keyword| <= |arg| && Upper(arg[..|keyword|]) == keyword
    requires x == Strip(arg[|keyword|..]) && x != "" && a != ""
    requires a == if x[0] == '<' && x[|x| - 1] == '>' && x != "<>" then Inner(x) else x
    ensures Names(keyword, said, a)
  {
    hide Strip, Upper;
    if x[0] == '<' && x[|x| - 1] == '>' {
      if |x| == 2 { assert x == "<>"; } else { assert |x| >= 3 && x == "<" + Inner(x) + ">"; }
    }
  }

  /** MAIL takes the sender it names, once; without an address, or a second time, it is refused. */
  lemma MailLineNames(c: Channel, word: string, said: Option<string>, a: string, s: string)
    requires !c.data && Upper(word) == "MAIL" && Sendable(word, said) && Names("FROM:", said, a)
    ensures Feed(c, Line(word, said) + CRLF + s)
            == Feed(if Truthy(c.mailfrom) then Replied(c, 503) else Replied(c.(mailfrom := Some(a)), 250), s)
  {
    LineFeeds(c, word, said, s);
    Dispatches(c, Some(Strip(said.value)));
    NamesAddress("FROM:", said, a);
    hide Feed, Strip, Upper, Dispatch, AddressIn, Names;
  }

  lemma MailLineNamesNobody(c: Channel, word: string, said: Option<string>, s: string)
    requires !c.data && Upper(word) == "MAIL" && Sendable(word, said) && forall a :: !Names("FROM:", said, a)
    ensures Feed(c, Line(word, said) + CRLF + s) == Feed(Replied(c, 501), s)
  {
    LineFeeds(c, word, said, s);
    Dispatches(c, if said.None? then None else Some(Strip(said.value)));
    AddressNames("FROM:", said);
    hide Feed, Strip, Upper, Dispatch, AddressIn, Names;
  }

  /** RCPT adds the recipient it names; without a sender, and then without an address, it is refused. */
  lemma RcptLineNames(c: Channel, word: string, said: Option<string>, a: string, s: string)
    requires !c.data && Upper(word) == "RCPT" && Sendable(word, said) && Names("TO:", said, a)
    ensures Feed(c, Line(word, said) + CRLF + s)
            == Feed(if Truthy(c.mailfrom) then Replied(c.(rcpttos := c.rcpttos + [a]), 250) else Replied(c, 503), s)
  {
    LineFeeds(c, word, said, s);
    Dispatches(c, Some(Strip(said.value)));
    NamesAddress("TO:", said, a);
    hide Feed, Strip, Upper, Dispatch, AddressIn, Names;
  }

  lemma RcptLineNamesNobody(c: Channel, word: string, said: Option<string>, s: string)
    requires !c.data && Upper(word) == "RCPT" && Sendable(word, said) && forall a :: !Names("TO:", said, a)
    ensures Feed(c, Line(word, said) + CRLF + s) == Feed(Replied(c, if Truthy(c.mailfrom) then 501 else 503), s)
  {
    LineFeeds(c, word, said, s);
    Dispatches(c, if said.None? then None else Some(Strip(said.value)));
    AddressNames("TO:", said);
    hide Feed, Strip, Upper, Dispatch, AddressIn, Names;
  }

  /** Some lines as clients write them: an address alone or in brackets, a blank behind the colon, small letters. */
  lemma AddressForms(keyword: string, a: string)
    requires keyword != "" && Upper(keyword) == keyword && !IsSpace(keyword[0])
    requires a != "" && a[0] != '<' && !IsSpace(a[0]) && !IsSpace(a[|a| - 1])
    ensures Names(keyword, Some(keyword + a), a) && Names(keyword, Some(keyword + " " + a), a)
    ensures Names(keyword, Some(keyword + "<" + a + ">"), a) && Names(keyword, Some(keyword + " <" + a + ">"), a)
    ensures Names(keyword, Some(keyword + "<>"), "<>")
  {
    hide Names, Strip, Upper;
    AddressForm(keyword, "", a, a);
    AddressForm(keyword, " ", a, a);
    AddressForm(keyword, "", "<" + a + ">", a);
    AddressForm(keyword, " ", "<" + a + ">", a);
    AddressForm(keyword, "", "<>", "<>");
    assert keyword + "" == keyword;
    FormTexts(keyword, a);
  }

  lemma FormTexts(k: string, a: string)
    ensures k + ("<" + a + ">") == k + "<" + a + ">" && k + " " + ("<" + a + ">") == k + " <" + a + ">"
  {
  }

  lemma StripBlank(blank: string, x: string)
    requires (blank == "" || blank == " ") && x != "" && !IsSpace(x[0]) && !IsSpace(x[|x| - 1])
    ensures Strip(blank + x) == x
  {
    StripKeeps(x);
    if blank == " " { assert (blank + x)[0] == ' ' && (blank + x)[1..] == x; } else { assert blank + x == x; }
  }

  lemma AddressForm(keyword: string, blank: string, x: string, a: string)
    requires keyword != "" && Upper(keyword) == keyword && !IsSpace(keyword[0]) && (blank == "" || blank == " ")
    requires x != "" && !IsSpace(x[0]) && !IsSpace(x[|x| - 1]) && a != ""
    requires x == if |x| >= 3 && x[0] == '<' && x[|x| - 1] == '>' then "<" + a + ">" else a
    ensures Names(keyword, Some(keyword + blank + x), a)
  {
    hide Upper, Strip, IsSpace, Names;
    var arg := keyword + blank + x;
    assert arg[0] == keyword[0] && arg[|arg| - 1] == x[|x| - 1];
    StripKeeps(arg);
    StripBlank(blank, x);
    assert arg[..|keyword|] == keyword && arg[|keyword|..] == blank + x;
    FormNames(keyword, arg, x, a);
  }

  lemma FormNames(keyword: string, arg: string, x: string, a: string)
    requires Strip(arg) == arg && |keyword| <= |arg| && Upper(arg[..|keyword|]) == keyword && a != ""
    requires x == Strip(arg[|keyword|..])
    requires x == if |x| >= 3 && x[0] == '<' && x[|x| - 1] == '>' then "<" + a + ">" else a
    ensures Names(keyword, Some(arg), a)
  {
    hide Upper, Strip;
  }
}
