/** What each branch of the command interpreter promises, stated on the lines it
    writes to the connection: the exact reply texts, the session state afterwards,
    the notifications and how the read loop goes on. */
module SmtpCommands {
  import opened Wrappers
  import opened Ascii
  import opened SmtpReply
  import opened SmtpConnection

  /** An empty trimmed line gets no reply and changes nothing. */
  lemma EmptyLineIgnored(e: Engine, s: Session, lines: seq<Option<string>>, newLine: string)
    ensures var r := Dispatch(e, s, "", lines, newLine);
            && r.engine == e && r.session == s && r.events == [] && r.flow == Continue && r.lines == lines
            && Wire(r.replies) == []
  {
  }

  /** HELO with a host argument stores the name after "HELO " and answers 250 with
      the server's name (no line at all when that name is null or empty); without
      one it answers 501 and keeps the session. */
  lemma HeloReply(e: Engine, s: Session, cmd: string, lines: seq<Option<string>>, newLine: string)
    requires Classify(cmd) == Helo
    ensures var r := Dispatch(e, s, cmd, lines, newLine);
            && r.engine == e && r.events == [] && r.flow == Continue && r.lines == lines
            && (HasHostArgument(Trim(cmd)) ==>
                  && r.session == s.(clientName := Trim(cmd)[5..])
                  && Wire(r.replies) == (if IsNotNullOrEmpty(e.serverName) then ["250 " + e.serverName.value] else []))
            && (!HasHostArgument(Trim(cmd)) ==>
                  r.session == s && Wire(r.replies) == ["501 " + HeloSyntaxText])
  {
    var r := Dispatch(e, s, cmd, lines, newLine);
    if !HasHostArgument(Trim(cmd)) {
      assert r.replies == [Reply(SyntaxError, [Some(HeloSyntaxText)])];
      CodePrefixes();
      SingleLine(SyntaxError, HeloSyntaxText);
    } else {
      assert r.replies == [Reply(Ok, [e.serverName])];
      if IsNotNullOrEmpty(e.serverName) {
        ServerNameLine(e.serverName.value);
      } else {
        WireSilent(Ok, e.serverName);
      }
    }
  }

  /** The capability lines EHLO advertises, in order: the server's name (left out
      when it is null or empty), VRFY, STARTTLS when TLS is offered, AUTH once it
      is on, and three fixed lines. */
  function Capabilities(e: Engine): seq<string>
  {
    Kept(e.serverName) + (["VRFY"]
    + ((if e.useTLS then ["STARTTLS"] else [])
    + ((if e.tlsEnabled then ["AUTH PLAIN LOGIN"] else [])
    + (["SIZE 204800000"] + (["ENHANCEDSTATUSCODES"] + ["8BITMIME"])))))
  }

  lemma NonEmptySeven(a: Option<string>, b: Option<string>, c: Option<string>, d: Option<string>,
                      f: Option<string>, g: Option<string>, h: Option<string>)
    ensures NonEmptyLines([a, b, c, d, f, g, h])
         == Kept(a) + (Kept(b) + (Kept(c) + (Kept(d) + (Kept(f) + (Kept(g) + Kept(h))))))
  {
    var l := [a, b, c, d, f, g, h];
    NonEmptyLinesAt(l, 6);
    NonEmptyLinesAt(l, 5);
    NonEmptyLinesAt(l, 4);
    NonEmptyLinesAt(l, 3);
    NonEmptyLinesAt(l, 2);
    NonEmptyLinesAt(l, 1);
    NonEmptyLinesAt(l, 0);
    assert l[7..] == [] && l[0..] == l;
    assert Kept(h) + [] == Kept(h);
  }

  /** The reply writer turns the EHLO entries into exactly the capability lines. */
  lemma CapabilitiesAreEhloLines(e: Engine)
    ensures NonEmptyLines(EhloLines(e)) == Capabilities(e)
  {
    var tls := if e.useTLS then Some("STARTTLS") else None;
    var auth := if e.tlsEnabled then Some("AUTH PLAIN LOGIN") else None;
    NonEmptySeven(e.serverName, Some("VRFY"), tls, auth, Some("SIZE 204800000"), Some("ENHANCEDSTATUSCODES"), Some("8BITMIME"));
  }

  /** EHLO with a host argument stores the client name and lists the capabilities
      as one multi-line 250 reply, without a name line when the server's name is
      null or empty; without a host argument it answers 501. */
  lemma EhloReply(e: Engine, s: Session, cmd: string, lines: seq<Option<string>>, newLine: string)
    requires Classify(cmd) == Ehlo
    ensures var r := Dispatch(e, s, cmd, lines, newLine);
            && r.engine == e && r.events == [] && r.flow == Continue && r.lines == lines
            && (HasHostArgument(Trim(cmd)) ==>
                  && r.session == s.(clientName := Trim(cmd)[5..])
                  && Wire(r.replies) == MultiLine("250", Capabilities(e)))
            && (!HasHostArgument(Trim(cmd)) ==>
                  r.session == s && Wire(r.replies) == ["501 " + EhloSyntaxText])
  {
    var r := Dispatch(e, s, cmd, lines, newLine);
    if !HasHostArgument(Trim(cmd)) {
      assert r.replies == [Reply(SyntaxError, [Some(EhloSyntaxText)])];
      CodePrefixes();
      SingleLine(SyntaxError, EhloSyntaxText);
    } else {
      assert r.replies == [Reply(Ok, EhloLines(e))];
      EhloLine(e);
    }
  }

  lemma EhloLine(e: Engine)
    ensures Wire([Reply(Ok, EhloLines(e))]) == MultiLine("250", Capabilities(e))
  {
    assert CodeString(Ok.Value()) == "250";
    WireOne(Ok, EhloLines(e));
    CapabilitiesAreEhloLines(e);
  }

  /** EHLO names the server first (when it has a name), offers STARTTLS exactly
      when the server uses TLS and AUTH exactly once STARTTLS has been accepted. */
  lemma EhloAdvertises(e: Engine)
    ensures IsNotNullOrEmpty(e.serverName) ==> Capabilities(e)[0] == e.serverName.value
    ensures var rest := Capabilities(e)[|Kept(e.serverName)|..];
            && rest[0] == "VRFY"
            && ("STARTTLS" in rest <==> e.useTLS)
            && ("AUTH PLAIN LOGIN" in rest <==> e.tlsEnabled)
    ensures |Capabilities(e)| == |Kept(e.serverName)| + 4 + (if e.useTLS then 1 else 0) + (if e.tlsEnabled then 1 else 0)
  {
    var c := Capabilities(e);
    var fixed := ["SIZE 204800000", "ENHANCEDSTATUSCODES", "8BITMIME"];
    var tls: seq<string> := if e.useTLS then ["STARTTLS"] else [];
    var auth: seq<string> := if e.tlsEnabled then ["AUTH PLAIN LOGIN"] else [];
    assert c[|Kept(e.serverName)|..] == ["VRFY"] + tls + auth + fixed;
    assert "STARTTLS" !in fixed && "AUTH PLAIN LOGIN" !in fixed;
  }

  /** STARTTLS is refused once TLS is on, then refused before HELO/EHLO, and
      otherwise accepted with 220, switching TLS on for the engine. */
  lemma StartTlsGate(e: Engine, s: Session, cmd: string, lines: seq<Option<string>>, newLine: string)
    requires Classify(cmd) == StartTls
    ensures var r := Dispatch(e, s, cmd, lines, newLine);
            && r.session == s && r.events == [] && r.flow == Continue && r.lines == lines
            && r.engine == e.(tlsEnabled := e.tlsEnabled || s.clientName != [])
            && Wire(r.replies) == (if e.tlsEnabled then ["503 " + TlsStartedText]
                                   else if s.clientName == [] then ["503 " + HeloFirstText]
                                   else ["220 " + TlsReadyText])
  {
    var r := Dispatch(e, s, cmd, lines, newLine);
    if e.tlsEnabled {
      assert r.replies == [Reply(BadCommandSequence, [Some(TlsStartedText)])];
      CodePrefixes();
      SingleLine(BadCommandSequence, TlsStartedText);
    } else if s.clientName == [] {
      assert r.replies == [Reply(BadCommandSequence, [Some(HeloFirstText)])];
      CodePrefixes();
      SingleLine(BadCommandSequence, HeloFirstText);
    } else {
      assert r.replies == [Reply(ServiceReady, [Some(TlsReadyText)])];
      CodePrefixes();
      SingleLine(ServiceReady, TlsReadyText);
    }
  }

  /** "AUTH " is answered 503 while TLS is off and accepted without any reply once
      it is on. */
  lemma AuthGate(e: Engine, s: Session, cmd: string, lines: seq<Option<string>>, newLine: string)
    requires Classify(cmd) == Auth
    ensures var r := Dispatch(e, s, cmd, lines, newLine);
            && r.engine == e && r.session == s && r.events == [] && r.flow == Continue && r.lines == lines
            && Wire(r.replies) == (if e.tlsEnabled then [] else ["503 " + StartTlsFirstText])
  {
    var r := Dispatch(e, s, cmd, lines, newLine);
    if !e.tlsEnabled {
      assert r.replies == [Reply(BadCommandSequence, [Some(StartTlsFirstText)])];
      CodePrefixes();
      SingleLine(BadCommandSequence, StartTlsFirstText);
    }
  }

  /** MAIL FROM and RCPT TO: with three or more tokens the third is echoed in a 250
      reply and its stored form appended to the one list (the "<>" token ends the
      connection instead); with fewer the reply is 501 and nothing changes. */
  lemma AddressReply(e: Engine, s: Session, cmd: string, lines: seq<Option<string>>, newLine: string)
    requires Classify(cmd) == MailFrom || Classify(cmd) == RcptTo
    ensures var r := Dispatch(e, s, cmd, lines, newLine);
            var sender := Classify(cmd) == MailFrom;
            var parts := Tokens(cmd);
            && r.engine == e && r.events == [] && r.lines == lines
            && (|parts| < 3 ==>
                  && r.session == s && r.flow == Continue
                  && Wire(r.replies) == [if sender then "501 " + MailFromSyntaxText
                                         else "501 " + RcptToSyntaxText])
            && (|parts| >= 3 ==>
                  && Wire(r.replies) == ["250 2.1.0 " + parts[2] + (if sender then " Sender ok" else " Recipient ok")]
                  && (parts[2] == "<>" ==> r.session == s && r.flow == Abort)
                  && (parts[2] != "<>" ==>
                        && r.flow == Continue
                        && r.session == (if sender then s.(mailFroms := s.mailFroms + [StoredAddress(parts[2]).value])
                                         else s.(rcptTos := s.rcptTos + [StoredAddress(parts[2]).value]))))
  {
    var r := Dispatch(e, s, cmd, lines, newLine);
    var sender := Classify(cmd) == MailFrom;
    var parts := Tokens(cmd);
    assert r == AddressCommand(e, s, cmd, sender, lines);
    if |parts| < 3 {
      if sender {
        assert r.replies == [Reply(SyntaxError, [Some(MailFromSyntaxText)])];
        CodePrefixes();
        SingleLine(SyntaxError, MailFromSyntaxText);
      } else {
        assert r.replies == [Reply(SyntaxError, [Some(RcptToSyntaxText)])];
        CodePrefixes();
        SingleLine(SyntaxError, RcptToSyntaxText);
      }
    } else {
      AddressLine(parts[2], sender);
    }
  }

  /** DATA answers 354, reads the body up to the "." line, raises one notification
      with it and answers 250 with the fixed message id; with no "." line to come
      only the 354 is written and the loop waits. */
  lemma DataReply(e: Engine, s: Session, cmd: string, lines: seq<Option<string>>, newLine: string)
    requires Classify(cmd) == Data
    ensures var r := Dispatch(e, s, cmd, lines, newLine);
            && r.engine == e
            && (ReadBody(lines, newLine).None? ==>
                  && r.session == s && r.events == [] && r.flow == Blocked
                  && Wire(r.replies) == ["354 " + StartMailInputText])
            && (ReadBody(lines, newLine).Some? ==>
                  var body := ReadBody(lines, newLine).value.0;
                  && r.session == s.(mailText := body) && r.events == [NewMail(body)] && r.flow == Continue
                  && r.lines == ReadBody(lines, newLine).value.1
                  && Wire(r.replies) == ["354 " + StartMailInputText, "250 " + MessageReceivedText])
  {
    var r := Dispatch(e, s, cmd, lines, newLine);
    var start := Reply(StartMailInput, [Some(StartMailInputText)]);
    var done := Reply(Ok, [Some(MessageReceivedText)]);
    CodePrefixes();
    SingleLine(StartMailInput, StartMailInputText);
    SingleLine(Ok, MessageReceivedText);
    if ReadBody(lines, newLine).None? {
      assert r.replies == [start];
    } else {
      assert r.replies == [start] + [done];
      WireAppend([start], [done]);
    }
  }

  /** The message a client sends between DATA and "." is the one notified. */
  lemma DataDeliversMessage(e: Engine, s: Session, cmd: string, ls: seq<string>, rest: seq<Option<string>>, newLine: string)
    requires Classify(cmd) == Data
    requires forall k :: 0 <= k < |ls| ==> ls[k] != "."
    ensures var lines := seq(|ls|, k requires 0 <= k < |ls| => Some(ls[k])) + [Some(".")] + rest;
            var r := Dispatch(e, s, cmd, lines, newLine);
            && r.events == [NewMail(JoinLines(ls, newLine))]
            && r.session.mailText == JoinLines(ls, newLine)
            && r.lines == rest
  {
    var lines := seq(|ls|, k requires 0 <= k < |ls| => Some(ls[k])) + [Some(".")] + rest;
    ReadBodyOfMessage(ls, rest, newLine);
    DataReply(e, s, cmd, lines, newLine);
  }

  /** RSET and VRFY forget the client name, senders, recipients and body, but leave
      the engine, TLS included, as it was. */
  lemma ResetClearsSession(e: Engine, s: Session, cmd: string, lines: seq<Option<string>>, newLine: string)
    requires Classify(cmd) == Rset || Classify(cmd) == Vrfy
    ensures var r := Dispatch(e, s, cmd, lines, newLine);
            && r.engine == e && r.events == [] && r.flow == Continue && r.lines == lines
            && r.session.clientName == [] && r.session.mailFroms == [] && r.session.rcptTos == []
            && r.session.mailText == []
            && Wire(r.replies) == (if Classify(cmd) == Rset then ["250 " + OkText]
                                   else ["252 " + VrfyText])
  {
    var r := Dispatch(e, s, cmd, lines, newLine);
    if Classify(cmd) == Rset {
      assert r.replies == [Reply(Ok, [Some(OkText)])];
      CodePrefixes();
      SingleLine(Ok, OkText);
    } else {
      assert r.replies == [Reply(CannotVerifyUserWillAttemptDelivery, [Some(VrfyText)])];
      CodePrefixes();
      SingleLine(CannotVerifyUserWillAttemptDelivery, VrfyText);
    }
  }

  /** NOOP answers 250 and changes nothing. */
  lemma NoopChangesNothing(e: Engine, s: Session, cmd: string, lines: seq<Option<string>>, newLine: string)
    requires Classify(cmd) == Noop
    ensures var r := Dispatch(e, s, cmd, lines, newLine);
            && r.engine == e && r.session == s && r.events == [] && r.flow == Continue && r.lines == lines
            && Wire(r.replies) == ["250 " + OkText]
  {
    var r := Dispatch(e, s, cmd, lines, newLine);
    assert r.replies == [Reply(Ok, [Some(OkText)])];
    CodePrefixes();
    SingleLine(Ok, OkText);
  }

  /** QUIT answers 221 and the loop ends with a client-tagged close, whatever input
      would have followed. */
  lemma QuitCloses(e: Engine, s: Session, cmd: string, lines: seq<Option<string>>, newLine: string,
                   more: seq<ReadResult>)
    requires Classify(cmd) == QuitCommand
    ensures var r := Dispatch(e, s, cmd, lines, newLine);
            && r.engine == e && r.session == s && r.events == [] && r.flow == Quit
            && Wire(r.replies) == ["221 " + ClosingText]
            && AfterLine(r, more, newLine) == RunResult(e, s, r.replies, [], Closed(ByClient))
  {
    var r := Dispatch(e, s, cmd, lines, newLine);
    assert r.replies == [Reply(ServiceClosingTransmissionChannel, [Some(ClosingText)])];
    CodePrefixes();
    SingleLine(ServiceClosingTransmissionChannel, ClosingText);
  }

  /** Any other non-empty line is answered 500, quoting the line, and reported as
      one invalid-command notification; nothing else changes. */
  lemma UnrecognizedReported(e: Engine, s: Session, cmd: string, lines: seq<Option<string>>, newLine: string)
    requires Classify(cmd) == Unrecognized
    ensures var r := Dispatch(e, s, cmd, lines, newLine);
            && r.engine == e && r.session == s && r.flow == Continue && r.lines == lines
            && r.events == [InvalidCommand(Trim(cmd))]
            && Wire(r.replies) == ["500 " + UnrecognizedText + cmd + "'!"]
  {
    var r := Dispatch(e, s, cmd, lines, newLine);
    assert r.replies == [Reply(CommandUnrecognized, [Some(UnrecognizedText + cmd + "'!")])];
    UnrecognizedLine(cmd);
  }

  /** How one command can end the loop and what it can notify: only DATA waits
      (when no "." line is left), only a "<>" address ends the connection through
      the exception handler, a notification comes only from an unrecognised line
      or a completed DATA, only the empty line and AUTH with TLS on write no
      reply, and DATA lines are only ever consumed from the front. */
  lemma DispatchOutcomes(e: Engine, s: Session, cmd: string, lines: seq<Option<string>>, newLine: string)
    ensures var r := Dispatch(e, s, cmd, lines, newLine);
            && (r.flow == Blocked <==> Classify(cmd) == Data && Some(".") !in lines)
            && (r.flow == Abort <==> (Classify(cmd) == MailFrom || Classify(cmd) == RcptTo)
                                     && |Tokens(cmd)| >= 3 && Tokens(cmd)[2] == "<>")
            && (r.events != [] <==> Classify(cmd) == Unrecognized || (Classify(cmd) == Data && Some(".") in lines))
            && (r.replies == [] <==> cmd == [] || (Classify(cmd) == Auth && e.tlsEnabled))
            && |r.lines| <= |lines| && r.lines == lines[|lines| - |r.lines|..]
  {
  }

  // ----- The reply lines, as written on the connection -----

  /** The 250 reply to HELO, naming the server. */
  lemma ServerNameLine(name: string)
    requires name != []
    ensures Wire([Reply(Ok, [Some(name)])]) == ["250 " + name]
  {
    assert CodeString(Ok.Value()) == "250";
    assert "250 " + name == "250" + " " + name;
    SingleLine(Ok, name);
  }

  /** The 500 reply quoting an unrecognised line. */
  lemma UnrecognizedLine(cmd: string)
    ensures Wire([Reply(CommandUnrecognized, [Some(UnrecognizedText + cmd + "'!")])]) == ["500 " + UnrecognizedText + cmd + "'!"]
  {
    var text := UnrecognizedText + cmd + "'!";
    assert text[0] == '2';
    assert CodeString(CommandUnrecognized.Value()) == "500";
    assert "500 " + UnrecognizedText + cmd + "'!" == "500" + " " + text;
    SingleLine(CommandUnrecognized, text);
  }

  /** The 250 reply to MAIL FROM or RCPT TO, echoing the address token. */
  lemma AddressLine(token: string, sender: bool)
    ensures Wire([Reply(Ok, [Some("2.1.0 " + token + (if sender then " Sender ok" else " Recipient ok"))])])
         == ["250 2.1.0 " + token + (if sender then " Sender ok" else " Recipient ok")]
  {
    var text := "2.1.0 " + token + (if sender then " Sender ok" else " Recipient ok");
    assert text[0] == '2';
    assert CodeString(Ok.Value()) == "250";
    assert "250 2.1.0 " + token + (if sender then " Sender ok" else " Recipient ok") == "250" + " " + text;
    SingleLine(Ok, text);
  }
}
