/** The `SMTPServer` object: how its constructor resolves TLS and builds the one
    protocol engine, the guarded `DefaultServerName` setter, and the TCP
    listeners that all hand their connections to that same engine. */
module SmtpServer {
  import opened Wrappers
  import opened Ascii
  import opened SmtpReply
  import opened SmtpConnection
  import opened SmtpCommands
  import opened SmtpScenarios

  const DefaultServerNameText := "Vanaheimr Hermod SMTP Service v0.1"

  /** Where a TCP server listens: a port on every address, or one IP socket. */
  datatype Listener = OnPort(port: nat) | OnSocket(address: string, port: nat)

  /** The server's state: the `DefaultServerName` property, the resolved `UseTLS`,
      the single `SMTPConnection` engine and the attached listeners. */
  datatype Server = Server(defaultServerName: Option<string>, useTLS: bool, engine: Engine, listeners: seq<Listener>)

  /** The constructor's TLS decision: an explicit value wins; without one, TLS is
      used exactly when a certificate was supplied. */
  function ResolveUseTLS(useTLS: Option<bool>, hasCertificate: bool): (r: bool)
    ensures useTLS.Some? ==> r == useTLS.value
    ensures useTLS.None? ==> (r <==> hasCertificate)
  {
    match useTLS
    case Some(b) => b
    case None => hasCertificate
  }

  /** `new SMTPServer(IPPort, DefaultServerName, X509Certificate, UseTLS, ...)`:
      the name is stored without the setter's check, the engine is built once from
      that name and the resolved TLS flag, and the optional port is attached. */
  function NewServer(port: Option<nat>, name: Option<string>, hasCertificate: bool, useTLS: Option<bool>): (r: Server)
    ensures r.defaultServerName == name
    ensures r.useTLS == ResolveUseTLS(useTLS, hasCertificate)
    ensures r.engine == NewEngine(name, r.useTLS)
    ensures r.listeners == (if port.Some? then [OnPort(port.value)] else [])
  {
    var tls := ResolveUseTLS(useTLS, hasCertificate);
    var s := Server(name, tls, NewEngine(name, tls), []);
    if port.Some? then AttachTCPPorts(s, [OnPort(port.value)]) else s
  }

  /** The constructor with every optional argument left out. */
  function DefaultServer(): (r: Server)
    ensures r.defaultServerName == Some(DefaultServerNameText)
    ensures r.useTLS && r.engine.useTLS && !r.engine.tlsEnabled
    ensures r.engine.serverName == Some(DefaultServerNameText)
    ensures r.listeners == []
  {
    NewServer(None, Some(DefaultServerNameText), false, Some(true))
  }

  /** The `DefaultServerName` setter: a null or empty value is ignored. Only the
      property changes; the engine keeps the name it was built with. */
  function SetDefaultServerName(srv: Server, value: Option<string>): (r: Server)
    ensures IsNotNullOrEmpty(value) ==> r == srv.(defaultServerName := value)
    ensures !IsNotNullOrEmpty(value) ==> r == srv
    ensures r.engine == srv.engine && r.listeners == srv.listeners && r.useTLS == srv.useTLS
  {
    if IsNotNullOrEmpty(value) then srv.(defaultServerName := value) else srv
  }

  /** The setter never stores an empty name; only the constructor can. */
  lemma SetterKeepsNameNonEmpty(srv: Server, value: Option<string>)
    requires IsNotNullOrEmpty(srv.defaultServerName)
    ensures IsNotNullOrEmpty(SetDefaultServerName(srv, value).defaultServerName)
  {
  }

  /** The constructor, by contrast, takes an empty name as given, and the engine
      then greets with an empty name and leaves it out of HELO/EHLO replies. */
  lemma ConstructorKeepsEmptyName(port: Option<nat>, hasCertificate: bool, useTLS: Option<bool>)
    ensures var srv := NewServer(port, Some(""), hasCertificate, useTLS);
            && srv.defaultServerName == Some("")
            && !IsNotNullOrEmpty(srv.engine.serverName)
            && Greeting(srv.engine).texts == [Some(GreetingSuffix)]
  {
    var srv := NewServer(port, Some(""), hasCertificate, useTLS);
    assert "" + GreetingSuffix == GreetingSuffix;
  }

  /** `AttachTCPPorts` and `AttachTCPSockets`: every new TCP server sends to the
      same engine. */
  function AttachTCPPorts(srv: Server, ports: seq<Listener>): (r: Server)
    requires forall k :: 0 <= k < |ports| ==> ports[k].OnPort?
    ensures r.engine == srv.engine && r.defaultServerName == srv.defaultServerName && r.useTLS == srv.useTLS
    ensures r.listeners == srv.listeners + ports
  {
    srv.(listeners := srv.listeners + ports)
  }

  function AttachTCPSockets(srv: Server, sockets: seq<Listener>): (r: Server)
    requires forall k :: 0 <= k < |sockets| ==> sockets[k].OnSocket?
    ensures r.engine == srv.engine && r.defaultServerName == srv.defaultServerName && r.useTLS == srv.useTLS
    ensures r.listeners == srv.listeners + sockets
  {
    srv.(listeners := srv.listeners + sockets)
  }

  /** One client connection accepted on listener `l`: a whole run of the shared
      engine, whose TLS flag is the one left for the next connection. */
  function Serve(srv: Server, l: Listener, input: seq<ReadResult>, lines: seq<Option<string>>, newLine: string): (r: (Server, RunResult))
    requires l in srv.listeners
    ensures r.0.listeners == srv.listeners && r.0.defaultServerName == srv.defaultServerName
    ensures r.0.engine == r.1.engine
    ensures r.0.engine.serverName == srv.engine.serverName && r.0.engine.useTLS == srv.engine.useTLS
    ensures srv.engine.tlsEnabled ==> r.0.engine.tlsEnabled
    ensures r.1.replies != [] && r.1.replies[0] == Greeting(srv.engine)
  {
    var run := Run(srv.engine, input, lines, newLine);
    (srv.(engine := run.engine), run)
  }

  /** A sequence of connections, each on some attached listener, served one after
      the other. */
  datatype Connection = Connection(listener: Listener, input: seq<ReadResult>, lines: seq<Option<string>>)

  function ServeAll(srv: Server, cs: seq<Connection>, newLine: string): (r: Server)
    requires forall k :: 0 <= k < |cs| ==> cs[k].listener in srv.listeners
    ensures r.listeners == srv.listeners && r.defaultServerName == srv.defaultServerName
    decreases |cs|
  {
    if cs == [] then srv
    else ServeAll(Serve(srv, cs[0].listener, cs[0].input, cs[0].lines, newLine).0, cs[1..], newLine)
  }

  /** Once one connection has had STARTTLS accepted, the engine stays in TLS mode
      for every later connection, on whichever listener it arrives, and keeps its
      name and TLS offer. */
  lemma {:induction false} TlsOutlivesConnections(srv: Server, cs: seq<Connection>, newLine: string)
    requires forall k :: 0 <= k < |cs| ==> cs[k].listener in srv.listeners
    ensures var r := ServeAll(srv, cs, newLine);
            && r.engine.serverName == srv.engine.serverName && r.engine.useTLS == srv.engine.useTLS
            && (srv.engine.tlsEnabled ==> r.engine.tlsEnabled)
    decreases |cs|
  {
    if cs != [] {
      var next := Serve(srv, cs[0].listener, cs[0].input, cs[0].lines, newLine).0;
      TlsOutlivesConnections(next, cs[1..], newLine);
    }
  }

  /** Which listener accepted a connection makes no difference: they all share
      the engine. This states the shape of the model rather than a proof: `Serve`
      does not read its listener, mirroring the source, where every listener is
      handed the same `SMTPProcessor` and so the same engine. */
  lemma ListenersAreInterchangeable(srv: Server, l1: Listener, l2: Listener, input: seq<ReadResult>,
                                    lines: seq<Option<string>>, newLine: string)
    requires l1 in srv.listeners && l2 in srv.listeners
    ensures Serve(srv, l1, input, lines, newLine) == Serve(srv, l2, input, lines, newLine)
  {
  }

  const StartTlsText := "STARTTLS"

  lemma StartTlsLineFacts()
    ensures Classify(StartTlsText) == StartTls
    ensures Trim(StartTlsText) == StartTlsText
    ensures IsCommandLine(StartTlsText)
  {
    StartTlsIsStartTls();
    StartTlsIsTrimmed();
    StartTlsIsCommandLine();
  }

  lemma StartTlsIsStartTls()
    ensures Classify(StartTlsText) == StartTls
  {
  }

  lemma StartTlsIsTrimmed()
    ensures Trim(StartTlsText) == StartTlsText
  {
  }

  lemma StartTlsIsCommandLine()
    ensures IsCommandLine(StartTlsText)
  {
  }

  /** A client that says EHLO and then STARTTLS switches the shared engine into TLS
      mode, whether or not the server offers it. */
  lemma EhloThenStartTls(e: Engine, host: string, lines: seq<Option<string>>, newLine: string)
    requires IsNotNullOrEmpty(e.serverName) && IsHostName(host) && !e.tlsEnabled
    ensures var r := Converse(e, FreshSession, [EhloFrom(host), StartTlsText], lines, newLine);
            && r.outcome == Open
            && r.engine == e.(tlsEnabled := true)
            && Wire(r.replies) == MultiLine("250", Capabilities(e)) + ["220 " + TlsReadyText]
  {
    var st1 := Dispatch(e, FreshSession, EhloFrom(host), lines, newLine);
    EhloStep(e, FreshSession, host, lines, newLine);
    StartTlsLineFacts();
    StartTlsGate(e, st1.session, StartTlsText, lines, newLine);
    var st2 := Dispatch(e, st1.session, StartTlsText, lines, newLine);
    assert Converse(e, FreshSession, [EhloFrom(host), StartTlsText], lines, newLine)
        == RunResult(st2.engine, st2.session, st1.replies + st2.replies, [], Open) by {
      assert [EhloFrom(host), StartTlsText][0] == EhloFrom(host);
      assert [EhloFrom(host), StartTlsText][1..] == [StartTlsText];
      ConverseOne(e, st1.session, StartTlsText, lines, newLine);
    }
    WireAppend(st1.replies, st2.replies);
  }

  /** On a later connection the same dialogue finds TLS already on: EHLO now
      offers AUTH, and STARTTLS is refused as already started. */
  lemma LaterConnectionSeesTls(e: Engine, host: string, lines: seq<Option<string>>, newLine: string)
    requires IsNotNullOrEmpty(e.serverName) && IsHostName(host) && e.tlsEnabled
    ensures var r := Converse(e, FreshSession, [EhloFrom(host), StartTlsText], lines, newLine);
            && r.outcome == Open
            && r.engine == e
            && "AUTH PLAIN LOGIN" in Capabilities(e)[1..]
            && Wire(r.replies) == MultiLine("250", Capabilities(e)) + ["503 " + TlsStartedText]
  {
    var st1 := Dispatch(e, FreshSession, EhloFrom(host), lines, newLine);
    EhloStep(e, FreshSession, host, lines, newLine);
    EhloAdvertises(e);
    StartTlsLineFacts();
    StartTlsGate(e, st1.session, StartTlsText, lines, newLine);
    var st2 := Dispatch(e, st1.session, StartTlsText, lines, newLine);
    assert Converse(e, FreshSession, [EhloFrom(host), StartTlsText], lines, newLine)
        == RunResult(st2.engine, st2.session, st1.replies + st2.replies, [], Open) by {
      assert [EhloFrom(host), StartTlsText][0] == EhloFrom(host);
      assert [EhloFrom(host), StartTlsText][1..] == [StartTlsText];
      ConverseOne(e, st1.session, StartTlsText, lines, newLine);
    }
    WireAppend(st1.replies, st2.replies);
  }

  /** Two listeners of one server: a client on the first says EHLO and STARTTLS; a
      client on the second saying the same is told TLS is already started. */
  lemma TlsLeaksAcrossListeners(srv: Server, l1: Listener, l2: Listener, host: string,
                                lines: seq<Option<string>>, newLine: string)
    requires l1 in srv.listeners && l2 in srv.listeners
    requires IsNotNullOrEmpty(srv.engine.serverName) && !srv.engine.tlsEnabled && IsHostName(host)
    ensures var bytes := Bytes(Frame([EhloFrom(host), StartTlsText]));
            var first := Serve(srv, l1, bytes, lines, newLine);
            var second := Serve(first.0, l2, bytes, lines, newLine);
            && first.0.engine == srv.engine.(tlsEnabled := true)
            && Wire(second.1.replies)
               == Wire([Greeting(first.0.engine)])
                  + (MultiLine("250", Capabilities(first.0.engine)) + ["503 " + TlsStartedText])
  {
    ServedStartTlsSwitches(srv, l1, host, lines, newLine);
    var first := Serve(srv, l1, Bytes(Frame([EhloFrom(host), StartTlsText])), lines, newLine);
    ServedStartTlsRefused(first.0, l2, host, lines, newLine);
  }

  /** The first connection: EHLO then STARTTLS switches the shared engine to TLS. */
  lemma ServedStartTlsSwitches(srv: Server, l: Listener, host: string, lines: seq<Option<string>>, newLine: string)
    requires l in srv.listeners
    requires IsNotNullOrEmpty(srv.engine.serverName) && !srv.engine.tlsEnabled && IsHostName(host)
    ensures Serve(srv, l, Bytes(Frame([EhloFrom(host), StartTlsText])), lines, newLine).0.engine
            == srv.engine.(tlsEnabled := true)
  {
    RunEhloStartTls(srv.engine, host, lines, newLine);
    EhloThenStartTls(srv.engine, host, lines, newLine);
  }

  /** A later connection on a server whose engine is in TLS mode: the same
      dialogue is greeted, listed AUTH and refused STARTTLS. */
  lemma ServedStartTlsRefused(srv: Server, l: Listener, host: string, lines: seq<Option<string>>, newLine: string)
    requires l in srv.listeners
    requires IsNotNullOrEmpty(srv.engine.serverName) && srv.engine.tlsEnabled && IsHostName(host)
    ensures Wire(Serve(srv, l, Bytes(Frame([EhloFrom(host), StartTlsText])), lines, newLine).1.replies)
            == Wire([Greeting(srv.engine)])
               + (MultiLine("250", Capabilities(srv.engine)) + ["503 " + TlsStartedText])
  {
    var c := Converse(srv.engine, FreshSession, [EhloFrom(host), StartTlsText], lines, newLine);
    RunEhloStartTls(srv.engine, host, lines, newLine);
    LaterConnectionSeesTls(srv.engine, host, lines, newLine);
    WireAppend([Greeting(srv.engine)], c.replies);
  }

  /** EHLO then STARTTLS sent as bytes is the greeting followed by the line-level
      dialogue. */
  lemma RunEhloStartTls(e: Engine, host: string, lines: seq<Option<string>>, newLine: string)
    requires IsHostName(host)
    ensures IsCommandLine(EhloFrom(host)) && IsCommandLine(StartTlsText)
    ensures var c := Converse(e, FreshSession, [EhloFrom(host), StartTlsText], lines, newLine);
            Run(e, Bytes(Frame([EhloFrom(host), StartTlsText])), lines, newLine)
            == RunResult(c.engine, c.session, [Greeting(e)] + c.replies, c.events, c.outcome)
  {
    EhloFromFacts(host);
    StartTlsLineFacts();
    RunTwoCommands(e, EhloFrom(host), StartTlsText, lines, newLine);
  }

  /** Two trimmed command lines sent as bytes are the greeting followed by the
      line-level dialogue. */
  lemma RunTwoCommands(e: Engine, a: string, b: string, lines: seq<Option<string>>, newLine: string)
    requires IsCommandLine(a) && Trim(a) == a && IsCommandLine(b) && Trim(b) == b
    ensures var c := Converse(e, FreshSession, [a, b], lines, newLine);
            Run(e, Bytes(Frame([a, b])), lines, newLine)
            == RunResult(c.engine, c.session, [Greeting(e)] + c.replies, c.events, c.outcome)
  {
    RunAgreesWithConverse(e, [a, b], lines, newLine);
  }
}
