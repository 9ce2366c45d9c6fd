/** Whole dialogues with the engine: what a client sees for a few typical
    command sequences, at the level of trimmed lines and, for the first, at the
    level of the bytes on the connection. */
module SmtpScenarios {
  import opened Wrappers
  import opened Ascii
  import opened SmtpReply
  import opened SmtpConnection
  import opened SmtpCommands

  const QuitLineText := "QUIT"

  /** A host name a client can put after EHLO: non-empty, sendable on one line and
      not ending in white space. */
  predicate IsHostName(host: string) {
    host != [] && IsCommandLine(host) && !IsWhiteSpace(host[|host| - 1])
  }

  function EhloFrom(host: string): string {
    "EHLO " + host
  }

  lemma EhloFromFacts(host: string)
    requires IsHostName(host)
    ensures Classify(EhloFrom(host)) == Ehlo
    ensures Trim(EhloFrom(host)) == EhloFrom(host)
    ensures HasHostArgument(EhloFrom(host)) && EhloFrom(host)[5..] == host
    ensures IsCommandLine(EhloFrom(host))
  {
    EhloFromIsEhlo(host);
    EhloFromIsTrimmed(host);
    EhloFromIsCommandLine(host);
    assert EhloFrom(host)[5..] == host;
  }

  lemma EhloFromIsEhlo(host: string)
    ensures Classify(EhloFrom(host)) == Ehlo
  {
    assert Upper(EhloFrom(host))[..4] == "EHLO";
  }

  lemma EhloFromIsCommandLine(host: string)
    requires IsCommandLine(host)
    ensures IsCommandLine(EhloFrom(host))
  {
    assert IsCommandLine("EHLO ");
    CommandLineAppend("EHLO ", host);
  }

  /** Sendable lines stay sendable when put together. */
  lemma CommandLineAppend(a: string, b: string)
    requires IsCommandLine(a) && IsCommandLine(b)
    ensures IsCommandLine(a + b)
  {
    var c := a + b;
    forall i | 0 <= i < |c|
      ensures c[i] as int < 256 && c[i] != '\n'
    {
      if i < |a| {
        assert c[i] == a[i];
      } else {
        assert c[i] == b[i - |a|];
      }
    }
  }

  lemma EhloFromIsTrimmed(host: string)
    requires IsHostName(host)
    ensures Trim(EhloFrom(host)) == EhloFrom(host)
  {
    var c := EhloFrom(host);
    assert c[0] == 'E' && c[|c| - 1] == host[|host| - 1];
    TrimOfTrimmed(c);
  }

  lemma QuitLineFacts()
    ensures Classify(QuitLineText) == QuitCommand
    ensures Trim(QuitLineText) == QuitLineText
    ensures IsCommandLine(QuitLineText)
  {
    QuitIsQuit();
    QuitIsTrimmed();
  }

  lemma QuitIsQuit()
    ensures Classify(QuitLineText) == QuitCommand
  {
  }

  lemma QuitIsTrimmed()
    ensures Trim(QuitLineText) == QuitLineText
  {
  }

  /** A command that keeps the connection open followed by QUIT: the replies of
      both, the state the first left, and a close by the client. */
  lemma ConverseThenQuit(e: Engine, s: Session, first: string, last: string,
                         lines: seq<Option<string>>, newLine: string)
    requires Dispatch(e, s, first, lines, newLine).flow == Continue
    requires Classify(last) == QuitCommand
    ensures var st := Dispatch(e, s, first, lines, newLine);
            var q := Dispatch(st.engine, st.session, last, st.lines, newLine);
            Converse(e, s, [first, last], lines, newLine)
            == RunResult(st.engine, st.session, st.replies + q.replies, st.events, Closed(ByClient))
  {
    var st := Dispatch(e, s, first, lines, newLine);
    var q := Dispatch(st.engine, st.session, last, st.lines, newLine);
    var rest := Converse(st.engine, st.session, [last], st.lines, newLine);
    assert rest == RunResult(st.engine, st.session, q.replies, [], Closed(ByClient)) by {
      QuitStep(st.engine, st.session, last, st.lines, newLine);
      assert [last][0] == last && [last][1..] == [];
      assert rest == ConverseAfter(q, [], newLine);
    }
    assert Converse(e, s, [first, last], lines, newLine) == ConverseAfter(st, [last], newLine) by {
      assert [first, last][0] == first && [first, last][1..] == [last];
    }
    assert st.events + [] == st.events;
  }

  /** QUIT keeps the engine and the session and ends the loop, with nothing notified. */
  lemma QuitStep(e: Engine, s: Session, cmd: string, lines: seq<Option<string>>, newLine: string)
    requires Classify(cmd) == QuitCommand
    ensures var r := Dispatch(e, s, cmd, lines, newLine);
            r.engine == e && r.session == s && r.events == [] && r.flow == Quit
  {
  }

  /** One command that keeps the connection open, and nothing after it. */
  lemma ConverseOne(e: Engine, s: Session, c: string, lines: seq<Option<string>>, newLine: string)
    requires Dispatch(e, s, c, lines, newLine).flow == Continue
    ensures var st := Dispatch(e, s, c, lines, newLine);
            Converse(e, s, [c], lines, newLine) == RunResult(st.engine, st.session, st.replies, st.events, Open)
  {
    var st := Dispatch(e, s, c, lines, newLine);
    assert [c][1..] == [];
    assert st.replies + [] == st.replies;
    assert st.events + [] == st.events;
  }

  /** EHLO stores the client's host name and lists the capabilities. */
  lemma EhloStep(e: Engine, s: Session, host: string, lines: seq<Option<string>>, newLine: string)
    requires IsNotNullOrEmpty(e.serverName) && IsHostName(host)
    ensures var r := Dispatch(e, s, EhloFrom(host), lines, newLine);
            && r.engine == e && r.flow == Continue && r.events == [] && r.lines == lines
            && r.session == s.(clientName := host)
            && Wire(r.replies) == MultiLine("250", Capabilities(e))
  {
    EhloFromFacts(host);
    EhloReply(e, s, EhloFrom(host), lines, newLine);
  }

  /** EHLO, then QUIT: the capability list, the 221 and a close by the client,
      with the client name stored and nothing delivered. */
  lemma EhloThenQuit(e: Engine, host: string, lines: seq<Option<string>>, newLine: string)
    requires IsNotNullOrEmpty(e.serverName) && IsHostName(host)
    ensures var r := Converse(e, FreshSession, [EhloFrom(host), QuitLineText], lines, newLine);
            && r.outcome == Closed(ByClient)
            && r.engine == e
            && r.session == FreshSession.(clientName := host)
            && r.events == []
            && Wire(r.replies) == MultiLine("250", Capabilities(e)) + ["221 " + ClosingText]
  {
    var st1 := Dispatch(e, FreshSession, EhloFrom(host), lines, newLine);
    EhloStep(e, FreshSession, host, lines, newLine);
    QuitLineFacts();
    QuitCloses(e, st1.session, QuitLineText, lines, newLine, []);
    ConverseThenQuit(e, FreshSession, EhloFrom(host), QuitLineText, lines, newLine);
    WireAppend(st1.replies, Dispatch(e, st1.session, QuitLineText, lines, newLine).replies);
  }

  /** A whole connection on which the client sends CR LF terminated command lines
      without surrounding white space: the greeting, then what the line-level
      engine answers to those lines. */
  lemma RunAgreesWithConverse(e: Engine, cmds: seq<string>, lines: seq<Option<string>>, newLine: string)
    requires forall k :: 0 <= k < |cmds| ==> IsCommandLine(cmds[k]) && Trim(cmds[k]) == cmds[k]
    ensures var c := Converse(e, FreshSession, cmds, lines, newLine);
            Run(e, Bytes(Frame(cmds)), lines, newLine)
            == RunResult(c.engine, c.session, [Greeting(e)] + c.replies, c.events, c.outcome)
  {
    LoopAgreesWithConverse(e, FreshSession, cmds, lines, newLine);
    assert TrimAll(cmds) == cmds;
  }

  /** The same dialogue as bytes: the greeting, then the replies to the two CR LF
      terminated lines, and a close by the client. */
  lemma EhloThenQuitOnTheWire(e: Engine, host: string, lines: seq<Option<string>>, newLine: string)
    requires IsNotNullOrEmpty(e.serverName) && IsHostName(host)
    ensures var r := Run(e, Bytes(Frame([EhloFrom(host), QuitLineText])), lines, newLine);
            && r.outcome == Closed(ByClient)
            && r.session.clientName == host
            && r.events == []
            && Wire(r.replies) == Wire([Greeting(e)])
                                  + (MultiLine("250", Capabilities(e)) + ["221 " + ClosingText])
  {
    var cmds := [EhloFrom(host), QuitLineText];
    var r := Run(e, Bytes(Frame(cmds)), lines, newLine);
    var c := Converse(e, FreshSession, cmds, lines, newLine);
    var tail := MultiLine("250", Capabilities(e)) + ["221 " + ClosingText];
    assert r == RunResult(c.engine, c.session, [Greeting(e)] + c.replies, c.events, c.outcome) by {
      EhloFromFacts(host);
      QuitLineFacts();
      RunAgreesWithConverse(e, cmds, lines, newLine);
    }
    assert c.outcome == Closed(ByClient) && c.session.clientName == host && c.events == []
        && Wire(c.replies) == tail by {
      EhloThenQuit(e, host, lines, newLine);
    }
    assert Wire(r.replies) == Wire([Greeting(e)]) + tail by {
      WireAppend([Greeting(e)], c.replies);
    }
  }

  /** MAIL FROM without an address is answered 501 and records nothing. */
  lemma MailFromWithoutAddress(e: Engine, s: Session, lines: seq<Option<string>>, newLine: string)
    ensures var r := Dispatch(e, s, "MAIL FROM", lines, newLine);
            && r.flow == Continue && r.session == s && r.events == []
            && Wire(r.replies) == ["501 " + MailFromSyntaxText]
  {
    MailFromAlone();
    AddressReply(e, s, "MAIL FROM", lines, newLine);
  }

  lemma MailFromAlone()
    ensures Classify("MAIL FROM") == MailFrom
    ensures Tokens("MAIL FROM") == ["MAIL", "FROM"]
  {
    MailFromIsMailFrom();
    assert JoinWithSpaces(["MAIL", "FROM"]) == "MAIL FROM";
    TokensOfJoin(["MAIL", "FROM"]);
  }

  lemma MailFromIsMailFrom()
    ensures Classify("MAIL FROM") == MailFrom
  {
  }

  /** DATA followed by "Hello", "World" and "." delivers "Hello" and "World", each
      ended by a line break, answers 354 then 250, and keeps reading. */
  lemma DataHelloWorld(e: Engine, s: Session, rest: seq<Option<string>>, newLine: string)
    ensures var r := Converse(e, s, ["DATA"], [Some("Hello"), Some("World"), Some(".")] + rest, newLine);
            && r.outcome == Open
            && r.events == [NewMail("Hello" + newLine + "World" + newLine)]
            && r.session == s.(mailText := "Hello" + newLine + "World" + newLine)
            && Wire(r.replies) == ["354 " + StartMailInputText, "250 " + MessageReceivedText]
  {
    var lines := [Some("Hello"), Some("World"), Some(".")] + rest;
    var body := "Hello" + newLine + "World" + newLine;
    var r := Dispatch(e, s, "DATA", lines, newLine);
    assert && r.flow == Continue && r.events == [NewMail(body)] && r.session == s.(mailText := body)
           && Wire(r.replies) == ["354 " + StartMailInputText, "250 " + MessageReceivedText] by {
      HelloWorldLines(rest);
      DataIsData();
      ReadBodyOfMessage(["Hello", "World"], rest, newLine);
      HelloWorldBody(newLine);
      DataReply(e, s, "DATA", lines, newLine);
    }
    ConverseOne(e, s, "DATA", lines, newLine);
  }

  lemma DataIsData()
    ensures Classify("DATA") == Data
  {
  }

  lemma HelloWorldLines(rest: seq<Option<string>>)
    ensures [Some("Hello"), Some("World"), Some(".")] + rest
         == seq(2, k requires 0 <= k < 2 => Some(["Hello", "World"][k])) + [Some(".")] + rest
  {
  }

  lemma HelloWorldBody(newLine: string)
    ensures JoinLines(["Hello", "World"], newLine) == "Hello" + newLine + "World" + newLine
  {
    var ls := ["Hello", "World"];
    assert ls[0] == "Hello" && ls[1..] == ["World"];
    assert ["World"][0] == "World" && ["World"][1..] == [];
    assert JoinLines(["World"], newLine) == "World" + newLine + "";
  }
}
