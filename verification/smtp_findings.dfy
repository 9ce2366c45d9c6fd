/** Where the command interpreter, as written, departs from what its authors
    evidently meant, each next to the definition that behaves as intended:
    the angle-bracket stripping of MAIL FROM / RCPT TO, the null reverse-path
    "<>", and the STARTTLS capability offered after TLS is already on. */
module SmtpFindings {
  import opened Wrappers
  import opened Ascii
  import opened SmtpReply
  import opened SmtpConnection
  import opened SmtpCommands

  // ----- Addresses given as MAIL FROM:<...> and RCPT TO:<...> -----

  /** "MAIL FROM:" followed by a separator-free argument splits into three tokens,
      the argument last. */
  lemma MailFromTokens(arg: string)
    requires arg != [] && NoSeparator(arg)
    ensures Tokens("MAIL FROM:" + arg) == ["MAIL", "FROM", arg]
  {
    assert "MAIL FROM:" == "MAIL" + [' '] + "FROM" + [':'];
    assert "MAIL FROM:" + arg == "MAIL" + ([' '] + ("FROM" + ([':'] + arg)));
    TokensOfThree("MAIL", ' ', "FROM", ':', arg);
  }

  lemma MailFromClassified(arg: string)
    ensures Classify("MAIL FROM:" + arg) == MailFrom
  {
    var u := Upper("MAIL FROM:" + arg);
    assert u[..9] == "MAIL FROM";
  }

  /** As written, a bracketed address loses its last character: the stored form of
      "<" + a + ">" is `a` without its final character, so "<a@b.c>" is stored as
      "a@b.", and no non-empty address is ever stored as given. */
  lemma StoredAddressDropsLastCharacter(a: string)
    requires a != []
    ensures StoredAddress("<" + a + ">") == Some(a[..|a| - 1])
    ensures StoredAddress("<" + a + ">") != Some(a)
    ensures StoredAddress("<a@b.c>") == Some("a@b.")
  {
    var t := "<" + a + ">";
    assert t[0] == '<' && t[|t| - 1] == '>';
    assert t[1..|t| - 2] == a[..|a| - 1];
    var c := "<a@b.c>";
    assert c[0] == '<' && c[|c| - 1] == '>';
    assert c[1..|c| - 2] == "a@b.";
  }

  /** As written, the null reverse-path "MAIL FROM:<>" is acknowledged with 250 and
      then ends the connection from the server side: the stripping throws for a
      two-character token and the loop's exception handler closes. */
  lemma NullSenderAborts(e: Engine, s: Session, lines: seq<Option<string>>, newLine: string, more: seq<ReadResult>)
    ensures var r := Dispatch(e, s, "MAIL FROM:<>", lines, newLine);
            && r.flow == Abort && r.session == s
            && AfterLine(r, more, newLine).outcome == Closed(ByServer)
  {
    MailFromClassified("<>");
    assert "MAIL FROM:" + "<>" == "MAIL FROM:<>";
    MailFromTokens("<>");
    AddressReply(e, s, "MAIL FROM:<>", lines, newLine);
  }

  /** The evidently intended stripping: a token enclosed in angle brackets loses
      exactly the two brackets; any other token is kept. */
  function StripAngleBrackets(token: string): (r: string)
    requires token != []
    ensures |token| >= 2 && token[0] == '<' && token[|token| - 1] == '>' ==> |r| == |token| - 2
    ensures !(|token| >= 2 && token[0] == '<' && token[|token| - 1] == '>') ==> r == token
  {
    if |token| >= 2 && token[0] == '<' && token[|token| - 1] == '>' then token[1..|token| - 1]
    else token
  }

  /** Stripping undoes bracketing, for every address including the empty null
      reverse-path. */
  lemma StripAngleBracketsRoundTrip(a: string)
    ensures StripAngleBrackets("<" + a + ">") == a
  {
    var t := "<" + a + ">";
    assert t[0] == '<' && t[|t| - 1] == '>';
    assert t[1..|t| - 1] == a;
  }

  /** MAIL FROM / RCPT TO with the intended stripping: the same replies, the
      address stored without its brackets, and "<>" stored as the empty address
      rather than ending the connection. */
  function IntendedAddressCommand(e: Engine, s: Session, cmd: string, isSender: bool,
                                  lines: seq<Option<string>>): (r: StepResult)
    ensures r.engine == e && r.events == [] && r.lines == lines && r.flow == Continue && |r.replies| == 1
  {
    var parts := Tokens(cmd);
    if |parts| >= 3 then
      var token := parts[2];
      var reply := Reply(Ok, [Some("2.1.0 " + token + (if isSender then " Sender ok" else " Recipient ok"))]);
      var a := StripAngleBrackets(token);
      var s' := if isSender then s.(mailFroms := s.mailFroms + [a]) else s.(rcptTos := s.rcptTos + [a]);
      Step(e, s', [reply], [], Continue, lines)
    else
      var text := if isSender then MailFromSyntaxText else RcptToSyntaxText;
      Step(e, s, [Reply(SyntaxError, [Some(text)])], [], Continue, lines)
  }

  /** The interpreter with the intended stripping in place: every other command is
      handled as before, and no MAIL FROM or RCPT TO ends the connection. */
  function IntendedDispatch(e: Engine, s: Session, cmd: string, lines: seq<Option<string>>, newLine: string): (r: StepResult)
    ensures r.flow != Abort
    ensures r.flow == Quit <==> Classify(cmd) == QuitCommand
    ensures Classify(cmd) != MailFrom && Classify(cmd) != RcptTo ==> r == Dispatch(e, s, cmd, lines, newLine)
  {
    match Classify(cmd)
    case MailFrom => IntendedAddressCommand(e, s, cmd, true, lines)
    case RcptTo => IntendedAddressCommand(e, s, cmd, false, lines)
    case _ =>
      DispatchOutcomes(e, s, cmd, lines, newLine);
      Dispatch(e, s, cmd, lines, newLine)
  }

  /** With the intended stripping, "MAIL FROM:<a>" stores exactly `a`, the null
      reverse-path included, and the connection stays open. */
  lemma IntendedMailFromStoresAddress(e: Engine, s: Session, a: string, lines: seq<Option<string>>)
    requires NoSeparator(a)
    ensures var r := IntendedAddressCommand(e, s, "MAIL FROM:<" + a + ">", true, lines);
            && r.flow == Continue
            && r.session == s.(mailFroms := s.mailFroms + [a])
            && Wire(r.replies) == ["250 2.1.0 <" + a + "> Sender ok"]
  {
    var arg := "<" + a + ">";
    assert NoSeparator(arg) by {
      assert forall i :: 0 < i < |arg| - 1 ==> arg[i] == a[i - 1];
    }
    assert "MAIL FROM:<" + a + ">" == "MAIL FROM:" + arg;
    MailFromTokens(arg);
    StripAngleBracketsRoundTrip(a);
    AddressLine(arg, true);
    assert "250 2.1.0 " + arg + " Sender ok" == "250 2.1.0 <" + a + "> Sender ok";
  }

  // ----- STARTTLS offered after TLS is on -----

  /** As written, EHLO keeps offering STARTTLS after STARTTLS was accepted, although
      section 4.2 of RFC 3207 says a server must not offer it once TLS is
      negotiated. */
  lemma EhloReoffersStartTls(e: Engine)
    requires IsNotNullOrEmpty(e.serverName) && e.useTLS && e.tlsEnabled
    ensures Some("STARTTLS") in EhloLines(e)
    ensures "STARTTLS" in Capabilities(e)[1..]
  {
    assert EhloLines(e)[2] == Some("STARTTLS");
    EhloAdvertises(e);
  }

  /** The intended EHLO entries: STARTTLS only while TLS is offered and not yet on. */
  function IntendedEhloLines(e: Engine): (r: seq<Option<string>>)
    ensures |r| == |EhloLines(e)|
    ensures forall k :: 0 <= k < |r| && k != 2 ==> r[k] == EhloLines(e)[k]
  {
    [ e.serverName,
      Some("VRFY"),
      if e.useTLS && !e.tlsEnabled then Some("STARTTLS") else None,
      if e.tlsEnabled then Some("AUTH PLAIN LOGIN") else None,
      Some("SIZE 204800000"),
      Some("ENHANCEDSTATUSCODES"),
      Some("8BITMIME") ]
  }

  /** With the intended entries, STARTTLS is on offer exactly while it can still be
      accepted, and AUTH exactly once it has been. */
  lemma IntendedEhloOffers(e: Engine)
    ensures Some("STARTTLS") in IntendedEhloLines(e)[1..] <==> e.useTLS && !e.tlsEnabled
    ensures Some("AUTH PLAIN LOGIN") in IntendedEhloLines(e)[1..] <==> e.tlsEnabled
  {
    var r := IntendedEhloLines(e);
    assert r[1..] == [r[1], r[2], r[3], r[4], r[5], r[6]];
  }
}
