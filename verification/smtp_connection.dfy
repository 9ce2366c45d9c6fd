/** The SMTP protocol engine of `SMTPConnection.ProcessArrow`: the command
    interpreter that maps one trimmed command line to the new session state, the
    replies written, the notifications raised and whether the read loop ends; and
    the read loop itself, which feeds the bytes of the connection through the
    end-of-line scanner and hands every completed line to the interpreter.

    The transport is given as data: the outcomes of successive `TryRead` calls
    for command mode, and the lines `ReadLine` returns for the DATA phases. */
module SmtpConnection {
  import opened Wrappers
  import opened Ascii
  import opened SmtpReply
  import opened LineScanner

  /** The state of the one `SMTPConnection` object: its server name (`null` is
      `None`), whether STARTTLS is offered, and whether STARTTLS has been
      accepted. The object outlives every connection it serves. */
  datatype Engine = Engine(serverName: Option<string>, useTLS: bool, tlsEnabled: bool)

  /** `new SMTPConnection(DefaultServername, UseTLS)` */
  function NewEngine(serverName: Option<string>, useTLS: bool): (e: Engine)
    ensures e.serverName == serverName && e.useTLS == useTLS
    ensures !e.tlsEnabled
  {
    Engine(serverName, useTLS, false)
  }

  /** The locals of one run of `ProcessArrow`: the client's HELO/EHLO name, the
      MAIL FROM senders, the RCPT TO recipients and the last message body. */
  datatype Session = Session(clientName: string, mailFroms: seq<string>, rcptTos: seq<string>, mailText: string)

  const FreshSession := Session("", [], [], "")

  /** Notifications: `OnNotification` with a received body, and `NotifyErrors`
      for a command the interpreter does not know. */
  datatype Event = NewMail(text: string) | InvalidCommand(command: string)

  /** How the read loop goes on after a command: it keeps reading, the client
      said QUIT, an exception left the loop, or a DATA phase is still waiting for
      its terminating "." line. */
  datatype Flow = Continue | Quit | Abort | Blocked

  /** The result of interpreting one command line; `lines` are the DATA lines
      not yet read. */
  datatype StepResult = StepResult(
    engine: Engine, session: Session, replies: seq<Reply>, events: seq<Event>,
    flow: Flow, lines: seq<Option<string>>)

  /** The branches of the command interpreter, in the order they are tried. */
  datatype Command =
    | EmptyLine | Helo | Ehlo | StartTls | Auth | MailFrom | RcptTo | Data
    | Rset | Noop | Vrfy | QuitCommand | Unrecognized

  /** The keyword tests of `ProcessArrow`, on the upper-cased command: prefix tests
      for HELO, EHLO, "AUTH ", "MAIL FROM", "RCPT TO", DATA and VRFY, whole-line
      tests for STARTTLS, RSET, NOOP and QUIT. No two branches overlap, so each
      command is recognised exactly when its own test holds. */
  function Classify(cmd: string): (c: Command)
    ensures c == EmptyLine <==> cmd == []
    ensures c == Helo <==> "HELO" <= Upper(cmd)
    ensures c == Ehlo <==> "EHLO" <= Upper(cmd)
    ensures c == StartTls <==> Upper(cmd) == "STARTTLS"
    ensures c == Auth <==> "AUTH " <= Upper(cmd)
    ensures c == MailFrom <==> "MAIL FROM" <= Upper(cmd)
    ensures c == RcptTo <==> "RCPT TO" <= Upper(cmd)
    ensures c == Data <==> "DATA" <= Upper(cmd)
    ensures c == Rset <==> Upper(cmd) == "RSET"
    ensures c == Noop <==> Upper(cmd) == "NOOP"
    ensures c == Vrfy <==> "VRFY" <= Upper(cmd)
    ensures c == QuitCommand <==> Upper(cmd) == "QUIT"
  {
    var u := Upper(cmd);
    assert "HELO" <= u ==> u[0] == 'H';
    assert "EHLO" <= u ==> u[0] == 'E';
    assert "AUTH " <= u ==> u[0] == 'A';
    assert "MAIL FROM" <= u ==> u[0] == 'M';
    assert "RCPT TO" <= u ==> u[..2] == "RC";
    assert "DATA" <= u ==> u[0] == 'D';
    assert "VRFY" <= u ==> u[0] == 'V';
    if cmd == [] then EmptyLine
    else if "HELO" <= u then Helo
    else if "EHLO" <= u then Ehlo
    else if u == "STARTTLS" then StartTls
    else if "AUTH " <= u then Auth
    else if "MAIL FROM" <= u then MailFrom
    else if "RCPT TO" <= u then RcptTo
    else if "DATA" <= u then Data
    else if u == "RSET" then Rset
    else if u == "NOOP" then Noop
    else if "VRFY" <= u then Vrfy
    else if u == "QUIT" then QuitCommand
    else Unrecognized
  }

  /** Keyword matching ignores case: commands that upper-case alike are handled
      by the same branch. */
  lemma ClassifyIgnoresCase(a: string, b: string)
    requires Upper(a) == Upper(b)
    ensures Classify(a) == Classify(b)
  {
    assert |a| == |Upper(a)| == |b|;
  }

  const GreetingSuffix := " ESMTP Vanaheimr Hermod Mail Transport Service"
  const OkText := "2.0.0 Ok"
  const MessageReceivedText := "Message received: 20040120203404.CCCC18555.mx1.example.com@opendata.social"
  const StartMailInputText := "Ok Send data ending with <CRLF>.<CRLF>"
  const VrfyText := "2.0.0 Send some mail. I'll try my best!"
  const MailFromSyntaxText := "Syntax: MAIL FROM: <mail@domain.tld>"
  const RcptToSyntaxText := "Syntax: RCPT TO: <mail@domain.tld>"
  const HeloSyntaxText := "Syntax: HELO hostname"
  const EhloSyntaxText := "Syntax: EHLO hostname"
  const TlsStartedText := "5.5.1 TLS already started"
  const HeloFirstText := "5.5.1 EHLO/HELO first"
  const TlsReadyText := "2.0.0 Ready to start TLS"
  const StartTlsFirstText := "5.5.1 STARTTLS first"
  const ClosingText := "2.0.0 closing connection"
  /** The 500 reply quotes the command after this text and closes with "'!". */
  const UnrecognizedText := "2.0.0 I don't understand how to handle '"

  /** The 220 banner written when a connection starts; a `null` server name
      concatenates as the empty string. */
  function Greeting(e: Engine): (r: Reply)
    ensures r.code == ServiceReady
    ensures r.texts == [Some(e.serverName.GetOr("") + GreetingSuffix)]
  {
    Reply(ServiceReady, [Some(e.serverName.GetOr("") + GreetingSuffix)])
  }

  /** The HELO/EHLO argument test: more than five characters and a space after
      the four-letter keyword. */
  predicate HasHostArgument(t: string) {
    |t| > 5 && t[4] == ' '
  }

  /** The capability lines of the EHLO reply, `null` entries included; the reply
      writer drops those. */
  function EhloLines(e: Engine): seq<Option<string>> {
    [ e.serverName,
      Some("VRFY"),
      if e.useTLS then Some("STARTTLS") else None,
      if e.tlsEnabled then Some("AUTH PLAIN LOGIN") else None,
      Some("SIZE 204800000"),
      Some("ENHANCEDSTATUSCODES"),
      Some("8BITMIME") ]
  }

  /** The address stored for a MAIL FROM or RCPT TO argument, as the code is
      written: `Substring(1, Length - 3)` for a `<...>` argument, which throws for
      "<>" (`None`: the loop is left through its exception handler). */
  function StoredAddress(token: string): (r: Option<string>)
    requires token != []
    ensures r.None? <==> token == "<>"
  {
    if token[0] == '<' && token[|token| - 1] == '>' then
      if |token| >= 3 then Some(token[1..|token| - 2]) else None
    else Some(token)
  }

  /** Reads the DATA lines up to the first "." line: the body is every non-null
      line before it, each followed by `newLine`; the rest are the lines after the
      ".". `None` when no "." line comes, so the DATA loop never ends. */
  function ReadBody(lines: seq<Option<string>>, newLine: string): (r: Option<(string, seq<Option<string>>)>)
    ensures r.None? <==> Some(".") !in lines
    ensures r.Some? ==> |r.value.1| < |lines| && r.value.1 == lines[|lines| - |r.value.1|..]
    ensures r.Some? ==> lines[|lines| - |r.value.1| - 1] == Some(".")
    ensures r.Some? ==> Some(".") !in lines[..|lines| - |r.value.1| - 1]
  {
    if lines == [] then None
    else if lines[0] == Some(".") then Some(("", lines[1..]))
    else
      match ReadBody(lines[1..], newLine)
      case None => None
      case Some(res) =>
        assert lines[1..][..|lines| - |res.1| - 2] == lines[1..|lines| - |res.1| - 1];
        assert lines[..|lines| - |res.1| - 1] == [lines[0]] + lines[1..|lines| - |res.1| - 1];
        Some(((if lines[0].Some? then lines[0].value + newLine else "") + res.0, res.1))
  }

  /** The text `StringBuilder.AppendLine` produces for the given lines. */
  function JoinLines(ls: seq<string>, newLine: string): string {
    if ls == [] then "" else ls[0] + newLine + JoinLines(ls[1..], newLine)
  }

  /** DATA reads back the message a client sends: the lines of a message (none of
      them ".") followed by "." give exactly those lines, each ended by a line
      break, and the reading stops right after the ".". */
  lemma {:induction false} ReadBodyOfMessage(ls: seq<string>, rest: seq<Option<string>>, newLine: string)
    requires forall k :: 0 <= k < |ls| ==> ls[k] != "."
    ensures ReadBody(seq(|ls|, k requires 0 <= k < |ls| => Some(ls[k])) + [Some(".")] + rest, newLine)
            == Some((JoinLines(ls, newLine), rest))
  {
    var sent := seq(|ls|, k requires 0 <= k < |ls| => Some(ls[k]));
    var input := sent + [Some(".")] + rest;
    if ls == [] {
      assert input == [Some(".")] + rest;
      assert input[1..] == rest;
    } else {
      var sent' := seq(|ls| - 1, k requires 0 <= k < |ls| - 1 => Some(ls[1..][k]));
      assert input[0] == Some(ls[0]);
      assert input[1..] == sent' + [Some(".")] + rest;
      ReadBodyOfMessage(ls[1..], rest, newLine);
    }
  }

  /** Absent lines (`ReadLine` returning `null`) are skipped, not ended. */
  lemma ReadBodySkipsNull(lines: seq<Option<string>>, newLine: string)
    ensures ReadBody([None] + lines, newLine) == ReadBody(lines, newLine)
  {
    var input := [None] + lines;
    assert input[0] != Some(".");
    assert input[1..] == lines;
    match ReadBody(lines, newLine)
    case None =>
    case Some(res) => assert "" + res.0 == res.0;
  }

  function Step(e: Engine, s: Session, replies: seq<Reply>, events: seq<Event>,
                flow: Flow, lines: seq<Option<string>>): StepResult
  {
    StepResult(e, s, replies, events, flow, lines)
  }

  function HeloCommand(e: Engine, s: Session, cmd: string, lines: seq<Option<string>>): (r: StepResult)
    ensures r.engine == e && r.flow == Continue && r.events == [] && r.lines == lines
    ensures |r.replies| == 1
  {
    var t := Trim(cmd);
    if HasHostArgument(t) then Step(e, s.(clientName := t[5..]), [Reply(Ok, [e.serverName])], [], Continue, lines)
    else Step(e, s, [Reply(SyntaxError, [Some(HeloSyntaxText)])], [], Continue, lines)
  }

  function EhloCommand(e: Engine, s: Session, cmd: string, lines: seq<Option<string>>): (r: StepResult)
    ensures r.engine == e && r.flow == Continue && r.events == [] && r.lines == lines
    ensures |r.replies| == 1
  {
    var t := Trim(cmd);
    if HasHostArgument(t) then Step(e, s.(clientName := t[5..]), [Reply(Ok, EhloLines(e))], [], Continue, lines)
    else Step(e, s, [Reply(SyntaxError, [Some(EhloSyntaxText)])], [], Continue, lines)
  }

  function StartTlsCommand(e: Engine, s: Session, lines: seq<Option<string>>): (r: StepResult)
    ensures r.engine.serverName == e.serverName && r.engine.useTLS == e.useTLS
    ensures e.tlsEnabled ==> r.engine.tlsEnabled
    ensures r.flow == Continue && r.events == [] && r.lines == lines && |r.replies| == 1
  {
    if e.tlsEnabled then
      Step(e, s, [Reply(BadCommandSequence, [Some(TlsStartedText)])], [], Continue, lines)
    else if s.clientName == [] then
      Step(e, s, [Reply(BadCommandSequence, [Some(HeloFirstText)])], [], Continue, lines)
    else
      Step(e.(tlsEnabled := true), s, [Reply(ServiceReady, [Some(TlsReadyText)])], [], Continue, lines)
  }

  function AuthCommand(e: Engine, s: Session, lines: seq<Option<string>>): (r: StepResult)
    ensures r.engine == e && r.flow == Continue && r.events == [] && r.lines == lines
    ensures r.replies == [] <==> e.tlsEnabled
  {
    if !e.tlsEnabled then
      Step(e, s, [Reply(BadCommandSequence, [Some(StartTlsFirstText)])], [], Continue, lines)
    else Step(e, s, [], [], Continue, lines)
  }

  /** MAIL FROM and RCPT TO: the third token is echoed in a 250 reply and then
      stored; `isSender` selects the list and the texts. */
  function AddressCommand(e: Engine, s: Session, cmd: string, isSender: bool, lines: seq<Option<string>>): (r: StepResult)
    ensures r.engine == e && r.events == [] && r.lines == lines && |r.replies| == 1
    ensures r.flow == Abort <==> |Tokens(cmd)| >= 3 && Tokens(cmd)[2] == "<>"
    ensures r.flow != Abort ==> r.flow == Continue
  {
    var parts := Tokens(cmd);
    if |parts| >= 3 then
      var token := parts[2];
      var reply := Reply(Ok, [Some("2.1.0 " + token + (if isSender then " Sender ok" else " Recipient ok"))]);
      match StoredAddress(token)
      case None => Step(e, s, [reply], [], Abort, lines)
      case Some(a) =>
        var s' := if isSender then s.(mailFroms := s.mailFroms + [a]) else s.(rcptTos := s.rcptTos + [a]);
        Step(e, s', [reply], [], Continue, lines)
    else
      var text := if isSender then MailFromSyntaxText else RcptToSyntaxText;
      Step(e, s, [Reply(SyntaxError, [Some(text)])], [], Continue, lines)
  }

  function DataCommand(e: Engine, s: Session, lines: seq<Option<string>>, newLine: string): (r: StepResult)
    ensures r.engine == e && r.replies != [] && |r.events| <= 1
    ensures r.flow == Blocked <==> Some(".") !in lines
    ensures r.flow != Blocked ==> r.flow == Continue
    ensures r.events != [] <==> Some(".") in lines
    ensures |r.lines| <= |lines| && r.lines == lines[|lines| - |r.lines|..]
  {
    var start := Reply(StartMailInput, [Some(StartMailInputText)]);
    match ReadBody(lines, newLine)
    case None => Step(e, s, [start], [], Blocked, [])
    case Some(res) =>
      Step(e, s.(mailText := res.0), [start, Reply(Ok, [Some(MessageReceivedText)])], [NewMail(res.0)], Continue, res.1)
  }

  /** One pass through the command interpreter for the trimmed line `cmd`. */
  function Dispatch(e: Engine, s: Session, cmd: string, lines: seq<Option<string>>, newLine: string): (r: StepResult)
    ensures r.engine.serverName == e.serverName && r.engine.useTLS == e.useTLS
    ensures e.tlsEnabled ==> r.engine.tlsEnabled
    ensures r.engine.tlsEnabled != e.tlsEnabled ==> Classify(cmd) == StartTls
    ensures r.flow == Quit <==> Classify(cmd) == QuitCommand
    ensures |r.events| <= 1
  {
    match Classify(cmd)
    case EmptyLine => Step(e, s, [], [], Continue, lines)
    case Helo => HeloCommand(e, s, cmd, lines)
    case Ehlo => EhloCommand(e, s, cmd, lines)
    case StartTls => StartTlsCommand(e, s, lines)
    case Auth => AuthCommand(e, s, lines)
    case MailFrom => AddressCommand(e, s, cmd, true, lines)
    case RcptTo => AddressCommand(e, s, cmd, false, lines)
    case Data => DataCommand(e, s, lines, newLine)
    case Rset => Step(e, FreshSession, [Reply(Ok, [Some(OkText)])], [], Continue, lines)
    case Noop => Step(e, s, [Reply(Ok, [Some(OkText)])], [], Continue, lines)
    case Vrfy =>
      Step(e, FreshSession, [Reply(CannotVerifyUserWillAttemptDelivery, [Some(VrfyText)])], [], Continue, lines)
    case QuitCommand => Step(e, s, [Reply(ServiceClosingTransmissionChannel, [Some(ClosingText)])], [], Quit, lines)
    case Unrecognized =>
      Step(e, s, [Reply(CommandUnrecognized, [Some(UnrecognizedText + cmd + "'!")])],
           [InvalidCommand(Trim(cmd))], Continue, lines)
  }

  // ----- The read loop -----

  /** The outcomes of `TCPConnection.TryRead`; `OtherRead` stands for any value
      the loop's `switch` has no case for, which it ignores. */
  datatype ReadResult = DataAvailable(b: byte) | CanNotRead | ClientClose | Timeout | OtherRead

  /** `ConnectionClosedBy.Client` or `ConnectionClosedBy.Server` */
  datatype Initiator = ByClient | ByServer

  /** Whether the connection was closed, and by whom it is tagged; `Open` when the
      given input ends while the loop is still reading. */
  datatype Outcome = Open | Closed(initiator: Initiator)

  datatype RunResult = RunResult(engine: Engine, session: Session, replies: seq<Reply>, events: seq<Event>, outcome: Outcome)

  /** The `do ... while (!ClientClose && !ServerClose)` loop from scanner state `sc`. */
  function Loop(e: Engine, s: Session, sc: Scanner, input: seq<ReadResult>,
                lines: seq<Option<string>>, newLine: string): (r: RunResult)
    requires Valid(sc)
    ensures r.engine.serverName == e.serverName && r.engine.useTLS == e.useTLS
    ensures e.tlsEnabled ==> r.engine.tlsEnabled
    ensures input == [] ==> r.outcome == Open && r.replies == []
    ensures input != [] && (input[0] == CanNotRead || input[0] == Timeout)
            ==> r == RunResult(e, s, [], [], Closed(ByServer))
    ensures input != [] && input[0] == ClientClose ==> r == RunResult(e, s, [], [], Closed(ByClient))
    decreases |input|, 0
  {
    if input == [] then RunResult(e, s, [], [], Open)
    else
      match input[0]
      case CanNotRead => RunResult(e, s, [], [], Closed(ByServer))
      case Timeout => RunResult(e, s, [], [], Closed(ByServer))
      case ClientClose => RunResult(e, s, [], [], Closed(ByClient))
      case OtherRead => Loop(e, s, sc, input[1..], lines, newLine)
      case DataAvailable(b) =>
        var next := Feed(sc, b);
        if next.1.None? then Loop(e, s, next.0, input[1..], lines, newLine)
        else AfterLine(Dispatch(e, s, Trim(Decode(next.1.value)), lines, newLine), input[1..], newLine)
  }

  /** What the loop does once a command has been interpreted: the close flags are
      tested and, if neither is set, reading resumes with a reset scanner. */
  function AfterLine(st: StepResult, input: seq<ReadResult>, newLine: string): (r: RunResult)
    ensures r.engine.serverName == st.engine.serverName && r.engine.useTLS == st.engine.useTLS
    ensures st.engine.tlsEnabled ==> r.engine.tlsEnabled
    ensures st.flow == Quit ==> r.outcome == Closed(ByClient)
    ensures st.flow == Abort ==> r.outcome == Closed(ByServer)
    ensures st.flow == Blocked ==> r.outcome == Open
    ensures |r.replies| >= |st.replies| && r.replies[..|st.replies|] == st.replies
    ensures |r.events| >= |st.events| && r.events[..|st.events|] == st.events
    decreases |input|, 1
  {
    match st.flow
    case Quit => RunResult(st.engine, st.session, st.replies, st.events, Closed(ByClient))
    case Abort => RunResult(st.engine, st.session, st.replies, st.events, Closed(ByServer))
    case Blocked => RunResult(st.engine, st.session, st.replies, st.events, Open)
    case Continue =>
      var rest := Loop(st.engine, st.session, Initial, input, st.lines, newLine);
      assert (st.replies + rest.replies)[..|st.replies|] == st.replies;
      assert (st.events + rest.events)[..|st.events|] == st.events;
      RunResult(rest.engine, rest.session, st.replies + rest.replies, st.events + rest.events, rest.outcome)
  }

  /** A whole `ProcessArrow` run: the greeting, then the read loop from a fresh
      session and an empty buffer. */
  function Run(e: Engine, input: seq<ReadResult>, lines: seq<Option<string>>, newLine: string): (r: RunResult)
    ensures r.engine.serverName == e.serverName && r.engine.useTLS == e.useTLS
    ensures e.tlsEnabled ==> r.engine.tlsEnabled
    ensures r.replies != [] && r.replies[0] == Greeting(e)
  {
    var rest := Loop(e, FreshSession, Initial, input, lines, newLine);
    RunResult(rest.engine, rest.session, [Greeting(e)] + rest.replies, rest.events, rest.outcome)
  }

  /** The read results of bytes arriving one after the other. */
  function Bytes(bs: seq<byte>): (r: seq<ReadResult>)
    ensures |r| == |bs|
    ensures forall k :: 0 <= k < |bs| ==> r[k] == DataAvailable(bs[k])
  {
    seq(|bs|, k requires 0 <= k < |bs| => DataAvailable(bs[k]))
  }

  /** The loop consumes its input a line at a time: the bytes of a line up to and
      including its LF leave the session untouched until the LF, and the LF hands
      the whole buffer, decoded and trimmed, to the interpreter. */
  lemma {:induction false} LoopReadsLine(e: Engine, s: Session, sc: Scanner, chunk: seq<byte>,
                                         more: seq<ReadResult>, lines: seq<Option<string>>, newLine: string)
    requires Valid(sc)
    requires LF !in chunk
    ensures Loop(e, s, sc, Bytes(chunk + [LF]) + more, lines, newLine)
            == AfterLine(Dispatch(e, s, Trim(Decode(sc.buffer + chunk + [LF])), lines, newLine), more, newLine)
    decreases |chunk|
  {
    if chunk == [] {
      assert Bytes(chunk + [LF]) + more == [DataAvailable(LF)] + more by {
        BytesCons(chunk, more);
      }
      assert sc.buffer + chunk + [LF] == sc.buffer + [LF];
      LoopReadsLF(e, s, sc, more, lines, newLine);
    } else {
      var next := Feed(sc, chunk[0]);
      var tail := Bytes(chunk[1..] + [LF]) + more;
      var line := sc.buffer + chunk + [LF];
      assert Loop(e, s, sc, Bytes(chunk + [LF]) + more, lines, newLine) == Loop(e, s, next.0, tail, lines, newLine) by {
        BytesCons(chunk, more);
        LoopReadsByte(e, s, sc, chunk[0], tail, lines, newLine);
      }
      assert next.0.buffer + chunk[1..] + [LF] == line;
      assert Loop(e, s, next.0, tail, lines, newLine)
          == AfterLine(Dispatch(e, s, Trim(Decode(line)), lines, newLine), more, newLine) by {
        assert LF !in chunk[1..];
        LoopReadsLine(e, s, next.0, chunk[1..], more, lines, newLine);
      }
    }
  }

  lemma BytesCons(chunk: seq<byte>, more: seq<ReadResult>)
    ensures chunk == [] ==> Bytes(chunk + [LF]) + more == [DataAvailable(LF)] + more
    ensures chunk != [] ==> Bytes(chunk + [LF]) + more == [DataAvailable(chunk[0])] + (Bytes(chunk[1..] + [LF]) + more)
  {
    if chunk != [] {
      assert chunk + [LF] == [chunk[0]] + (chunk[1..] + [LF]);
      BytesAppend([chunk[0]], chunk[1..] + [LF]);
    }
  }

  /** An LF completes the line: the buffer and the LF go to the interpreter. */
  lemma LoopReadsLF(e: Engine, s: Session, sc: Scanner, more: seq<ReadResult>,
                    lines: seq<Option<string>>, newLine: string)
    requires Valid(sc)
    ensures Loop(e, s, sc, [DataAvailable(LF)] + more, lines, newLine)
            == AfterLine(Dispatch(e, s, Trim(Decode(sc.buffer + [LF])), lines, newLine), more, newLine)
  {
    var input := [DataAvailable(LF)] + more;
    assert input[0] == DataAvailable(LF);
    assert input[1..] == more;
  }

  /** Read results the loop's `switch` has no case for are ignored, however many
      of them arrive. */
  lemma {:induction false} LoopSkipsOtherReads(e: Engine, s: Session, sc: Scanner, skipped: seq<ReadResult>,
                                               more: seq<ReadResult>, lines: seq<Option<string>>, newLine: string)
    requires Valid(sc)
    requires forall k :: 0 <= k < |skipped| ==> skipped[k] == OtherRead
    ensures Loop(e, s, sc, skipped + more, lines, newLine) == Loop(e, s, sc, more, lines, newLine)
    decreases |skipped|
  {
    if skipped != [] {
      assert skipped + more == [OtherRead] + (skipped[1..] + more) by {
        assert skipped == [skipped[0]] + skipped[1..];
      }
      LoopSkipsOne(e, s, sc, skipped[1..] + more, lines, newLine);
      LoopSkipsOtherReads(e, s, sc, skipped[1..], more, lines, newLine);
    } else {
      assert skipped + more == more;
    }
  }

  /** A read result the loop's `switch` has no case for is ignored: the loop goes
      on with the same scanner. */
  lemma LoopSkipsOne(e: Engine, s: Session, sc: Scanner, more: seq<ReadResult>,
                     lines: seq<Option<string>>, newLine: string)
    requires Valid(sc)
    ensures Loop(e, s, sc, [OtherRead] + more, lines, newLine) == Loop(e, s, sc, more, lines, newLine)
  {
    assert ([OtherRead] + more)[1..] == more;
  }

  /** A failed read, a timeout or a close by the client ends the connection with
      nothing written and the state as it was. The close is tagged as the client's
      only when the client closed; whatever follows is never read. */
  lemma LoopClosesOnReadFailure(e: Engine, s: Session, sc: Scanner, skipped: seq<ReadResult>, x: ReadResult,
                                more: seq<ReadResult>, lines: seq<Option<string>>, newLine: string)
    requires Valid(sc)
    requires forall k :: 0 <= k < |skipped| ==> skipped[k] == OtherRead
    requires x == CanNotRead || x == Timeout || x == ClientClose
    ensures var r := Loop(e, s, sc, skipped + [x] + more, lines, newLine);
            && r.engine == e && r.session == s && r.replies == [] && r.events == []
            && (r.outcome == Closed(ByClient) <==> x == ClientClose)
            && (r.outcome == Closed(ByServer) <==> x != ClientClose)
  {
    assert skipped + [x] + more == skipped + ([x] + more);
    LoopSkipsOtherReads(e, s, sc, skipped, [x] + more, lines, newLine);
    assert ([x] + more)[0] == x;
  }

  /** Any other byte only goes into the buffer. */
  lemma LoopReadsByte(e: Engine, s: Session, sc: Scanner, b: byte, more: seq<ReadResult>,
                      lines: seq<Option<string>>, newLine: string)
    requires Valid(sc)
    requires b != LF
    ensures Loop(e, s, sc, [DataAvailable(b)] + more, lines, newLine)
            == Loop(e, s, Feed(sc, b).0, more, lines, newLine)
  {
    var input := [DataAvailable(b)] + more;
    assert input[0] == DataAvailable(b);
    assert input[1..] == more;
  }

  // ----- The line-level reading of the engine -----

  /** The engine one level up: already-trimmed command lines in, the same results
      out. This is the reference the byte-level loop is proved against. */
  function Converse(e: Engine, s: Session, cmds: seq<string>, lines: seq<Option<string>>, newLine: string): (r: RunResult)
    ensures r.engine.serverName == e.serverName && r.engine.useTLS == e.useTLS
    ensures e.tlsEnabled ==> r.engine.tlsEnabled
    ensures cmds == [] ==> r.outcome == Open && r.replies == []
    decreases |cmds|, 0
  {
    if cmds == [] then RunResult(e, s, [], [], Open)
    else ConverseAfter(Dispatch(e, s, cmds[0], lines, newLine), cmds[1..], newLine)
  }

  /** The line-level counterpart of `AfterLine`. */
  function ConverseAfter(st: StepResult, cmds: seq<string>, newLine: string): (r: RunResult)
    ensures r.engine.serverName == st.engine.serverName && r.engine.useTLS == st.engine.useTLS
    ensures st.engine.tlsEnabled ==> r.engine.tlsEnabled
    decreases |cmds|, 1
  {
    match st.flow
    case Quit => RunResult(st.engine, st.session, st.replies, st.events, Closed(ByClient))
    case Abort => RunResult(st.engine, st.session, st.replies, st.events, Closed(ByServer))
    case Blocked => RunResult(st.engine, st.session, st.replies, st.events, Open)
    case Continue =>
      var rest := Converse(st.engine, st.session, cmds, st.lines, newLine);
      RunResult(rest.engine, rest.session, st.replies + rest.replies, st.events + rest.events, rest.outcome)
  }

  /** A command line a client can send: byte-sized characters and no LF. */
  predicate IsCommandLine(c: string) {
    IsByteString(c) && '\n' !in c
  }

  /** The bytes of command lines sent with CR LF terminators. */
  function Frame(cmds: seq<string>): (bs: seq<byte>)
    requires forall k :: 0 <= k < |cmds| ==> IsCommandLine(cmds[k])
  {
    if cmds == [] then []
    else
      assert IsCommandLine(cmds[0]);
      Encode(cmds[0]) + [CR, LF] + Frame(cmds[1..])
  }

  function TrimAll(cmds: seq<string>): (r: seq<string>)
    ensures |r| == |cmds|
    ensures forall k :: 0 <= k < |cmds| ==> r[k] == Trim(cmds[k])
  {
    seq(|cmds|, k requires 0 <= k < |cmds| => Trim(cmds[k]))
  }

  lemma DecodeFramedLine(c: string)
    requires IsCommandLine(c)
    ensures LF !in Encode(c) + [CR]
    ensures Trim(Decode([] + (Encode(c) + [CR]) + [LF])) == Trim(c)
  {
    var bs := Encode(c) + [CR];
    forall k | 0 <= k < |bs|
      ensures bs[k] != LF
    {
      if k < |c| {
        assert bs[k] as int == c[k] as int;
        assert c[k] != '\n';
      }
    }
    assert Decode([] + bs + [LF]) == c + "\r\n";
    TrimAppendWhiteSpace(c, "\r\n");
  }

  /** The byte-level loop agrees with the line-level engine: sending command lines
      with CR LF gives the same state, replies, notifications and outcome as
      interpreting the trimmed lines one after the other. */
  lemma {:induction false} LoopAgreesWithConverse(e: Engine, s: Session, cmds: seq<string>,
                                                  lines: seq<Option<string>>, newLine: string)
    requires forall k :: 0 <= k < |cmds| ==> IsCommandLine(cmds[k])
    ensures Loop(e, s, Initial, Bytes(Frame(cmds)), lines, newLine) == Converse(e, s, TrimAll(cmds), lines, newLine)
    decreases |cmds|, 0
  {
    if cmds != [] {
      var st := Dispatch(e, s, Trim(cmds[0]), lines, newLine);
      FrameCons(cmds);
      LoopReadsCommand(e, s, cmds[0], Bytes(Frame(cmds[1..])), lines, newLine);
      AfterLineAgreesWithConverse(st, cmds[1..], newLine);
      ConverseCons(e, s, cmds, lines, newLine);
    }
  }

  lemma FrameCons(cmds: seq<string>)
    requires cmds != [] && forall k :: 0 <= k < |cmds| ==> IsCommandLine(cmds[k])
    ensures IsCommandLine(cmds[0])
    ensures Bytes(Frame(cmds)) == Bytes(Encode(cmds[0]) + [CR, LF]) + Bytes(Frame(cmds[1..]))
  {
    assert IsCommandLine(cmds[0]);
    BytesAppend(Encode(cmds[0]) + [CR, LF], Frame(cmds[1..]));
  }

  lemma LoopReadsCommand(e: Engine, s: Session, c: string, more: seq<ReadResult>,
                         lines: seq<Option<string>>, newLine: string)
    requires IsCommandLine(c)
    ensures Loop(e, s, Initial, Bytes(Encode(c) + [CR, LF]) + more, lines, newLine)
         == AfterLine(Dispatch(e, s, Trim(c), lines, newLine), more, newLine)
  {
    var chunk := Encode(c) + [CR];
    assert Encode(c) + [CR, LF] == chunk + [LF];
    DecodeFramedLine(c);
    LoopReadsLine(e, s, Initial, chunk, more, lines, newLine);
  }

  lemma ConverseCons(e: Engine, s: Session, cmds: seq<string>, lines: seq<Option<string>>, newLine: string)
    requires cmds != []
    ensures Converse(e, s, TrimAll(cmds), lines, newLine)
         == ConverseAfter(Dispatch(e, s, Trim(cmds[0]), lines, newLine), TrimAll(cmds[1..]), newLine)
  {
    assert TrimAll(cmds)[0] == Trim(cmds[0]);
    assert TrimAll(cmds)[1..] == TrimAll(cmds[1..]);
  }

  lemma {:induction false} AfterLineAgreesWithConverse(st: StepResult, cmds: seq<string>, newLine: string)
    requires forall k :: 0 <= k < |cmds| ==> IsCommandLine(cmds[k])
    ensures AfterLine(st, Bytes(Frame(cmds)), newLine) == ConverseAfter(st, TrimAll(cmds), newLine)
    decreases |cmds|, 1
  {
    if st.flow == Continue {
      LoopAgreesWithConverse(st.engine, st.session, cmds, st.lines, newLine);
    }
  }

  lemma BytesAppend(a: seq<byte>, b: seq<byte>)
    ensures Bytes(a + b) == Bytes(a) + Bytes(b)
  {
  }
}
