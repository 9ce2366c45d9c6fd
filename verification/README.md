# Hermod core in Dafny

A model of the protocol core of Vanaheimr Hermod, a .NET toolkit of network servers. It covers five parts:

- **The SMTP engine of `SMTPConnection`.**
  - The reply writer `Ext3.WriteLineSMTP`: multi-line replies `250-…` / `250 …`, with null and empty lines filtered out.
  - The byte-level end-of-line scanner (`EOLSearch`: `NotYet`, `R_Read`, `EoL_Found`).
  - The command interpreter of `ProcessArrow`: HELO, EHLO, STARTTLS, AUTH, MAIL FROM, RCPT TO, DATA, RSET, NOOP, VRFY, QUIT and the 500 fallback.
  - The read loop, with its client and server close flags.
- **`SMTPServer`.**
  - The constructor's `UseTLS` resolution and the guarded `DefaultServerName` setter.
  - The single `SMTPConnection` engine that every attached port and socket feeds. Its `TLSEnabled` flag is therefore shared by all connections.
- **`DNSCache`.** A map from domain names to `(refresh time, end of life, DNSInfo)`. It covers the two built-in loopback entries, both `Add` overloads, `GetDNSInfo` and the expiry sweep `RemoveExpiredCacheEntries`.
- **`HTTPServer` dispatch.**
  - The `AddMethodCallback` overloads.
  - `GetHandler`, which forwards to the URI mapping.
  - `ProcessBoomerang`, which falls back from the matched route to the `OnNotification` default handler to a fixed 500 response.
  - The constructor's handling of `DefaultServerName`.
- **`MailinglistEMailBuilder`.**
  - The guarded `ListId`, `Text` and `ContentLanguage` setters.
  - The constructor.
  - `_EncodeBodyparts`: one `text/plain`, quoted-printable, UTF-8 body part.

The modules, one per component:

| module | what it holds |
|---|---|
| `Wrappers` | `Option` and `Result` |
| `Ascii` | Bytes as characters, .NET-style `Trim` on ASCII white space, `ToUpper` on ASCII letters, `Split(' ', ':')` with empty entries removed |
| `SmtpReply` | The reply writer |
| `LineScanner` | The end-of-line scanner |
| `SmtpConnection` | The engine, the read loop and a line-level view of it, `Converse` |
| `SmtpCommands` | What each command does |
| `SmtpScenarios` | Whole dialogues |
| `SmtpFindings` | The defects below, each with a corrected definition |
| `SmtpServer` | `SMTPServer` |
| `DnsCache` | `DNSCache` |
| `HttpServer` | `HTTPServer` dispatch |
| `MailinglistBuilder` | `MailinglistEMailBuilder` |

How the state is split and stepped:

- The SMTP engine state (server name, `UseTLS`, `TLSEnabled`) belongs to the one `SMTPConnection` object. The session state (client name, senders, recipients, message text) consists of locals of one `ProcessArrow` run. The model keeps the two apart: `Engine` and `Session`.
- One command is a pure step `Dispatch(engine, session, line, dataLines, newLine)`. It returns the new engine and session, the replies, the notifications and how the loop continues: `Continue`, `Quit`, `Abort` (an exception reaching the outer handler) or `Blocked` (DATA waiting for a "." line that never comes).

## Where the code departs from the protocol or from its own comments

The model follows the code in each case:

- EHLO lists `STARTTLS` whenever the server uses TLS, also after TLS is on (`SMTPConnection.cs:394`). Section 4.2 of RFC 3207 says a server must not offer STARTTLS once TLS is negotiated. This is a finding below.
- `TLSEnabled` is documented as "TLS was enabled for this SMTP connection" (`SMTPConnection.cs:160`). It is a field of the single engine object, though, and every listener of an `SMTPServer` feeds that one object. So one client's STARTTLS holds for every later connection on every listener. See `SmtpServer.TlsLeaksAcrossListeners`.
- EHLO offers STARTTLS only when the server uses TLS (`SMTPConnection.cs:394`), but the STARTTLS branch (`SMTPConnection.cs:413-433`) never tests `UseTLS`: STARTTLS is accepted after HELO/EHLO on a server that did not offer it. See `SmtpServer.EhloThenStartTls`.
- The comment at `SMTPConnection.cs:362` gives the syntax as "HELO hostname". The test at lines 351 and 375 accepts any trimmed line longer than five characters with a space at index 4, so "HELO a b" stores the client name "a b".
- In `DNSCache.Add`, refresh is `now + ttl/2` computed in floating-point seconds (`DNSCache.cs:121`). Times here are integer milliseconds and TTLs whole seconds, so `ttl/2` is exact.

## Model

| member | source | states |
|---|---|---|
| SmtpReply.CodeString | Hermod/SMTP/SMTPServer/SMTPConnection.cs:91 | A status code is written as three decimal digits that read back as the code's value |
| SmtpReply.NonEmptyLinesMembers | Hermod/SMTP/SMTPServer/SMTPConnection.cs:86-89 | The filter keeps a text exactly when it is present (non-null) and non-empty |
| SmtpReply.Counted | Hermod/SMTP/SMTPServer/SMTPConnection.cs:88-93 | The counted lambda puts '-' after the code on every line but the last and ' ' on the last |
| SmtpReply.WriteLineSMTP | Hermod/SMTP/SMTPServer/SMTPConnection.cs:83-97 | One written line per kept text, each the code, the marker and that text, in order |
| SmtpReply.WriteResponses | Hermod/SMTP/SMTPServer/SMTPConnection.cs:67-81 | The `SMTPResponse[]` overload: the same, each line with its own code |
| SmtpReply.ParseWriteLineSMTP | Hermod/SMTP/SMTPServer/SMTPConnection.cs:83-97 | A client reading the written reply gets the code on every line, the kept texts in order, and the final-line marker on exactly the last line |
| SmtpReply.SingleLine | Hermod/SMTP/SMTPServer/SMTPConnection.cs:83-97 | A reply of one present, non-empty text is written as the single final line: the code, a space and the text |
| SmtpReply.WireSilent | Hermod/SMTP/SMTPServer/SMTPConnection.cs:83-97 | A reply whose only text is null or empty writes no line at all |
| LineScanner.NextState | Hermod/SMTP/SMTPServer/SMTPConnection.cs:279-296 | LF completes a line from either scanning state; CR moves `NotYet` to `R_Read`; any non-LF byte after CR returns to `NotYet` |
| LineScanner.Feed | Hermod/SMTP/SMTPServer/SMTPConnection.cs:279-300 | Every byte goes into the buffer; a line completes exactly on LF, is the buffer plus the LF, and leaves an empty buffer in `NotYet`; `EoL_Found` is never the state before a byte |
| LineScanner.FeedAllLines | Hermod/SMTP/SMTPServer/SMTPConnection.cs:304-642 | Every line the loop hands to the interpreter contains exactly one LF, at its end |
| LineScanner.FeedAllConcat | Hermod/SMTP/SMTPServer/SMTPConnection.cs:300-642 | The completed lines followed by the left-over buffer are exactly the old buffer followed by the bytes read: nothing lost, duplicated or reordered |
| LineScanner.FeedAllFrames | Hermod/SMTP/SMTPServer/SMTPConnection.cs:279-300 | The framing as a whole: lines and remainder reassemble the input, every line ends at its first LF, and no LF is left waiting in the buffer |
| LineScanner.FeedAllWithoutLF | Hermod/SMTP/SMTPServer/SMTPConnection.cs:279-300 | Bytes without an LF never complete a line; they all wait in the buffer |
| SmtpConnection.NewEngine | Hermod/SMTP/SMTPServer/SMTPConnection.cs:199-207 | A new engine keeps the given server name and `UseTLS` and starts with TLS off |
| SmtpConnection.Classify | Hermod/SMTP/SMTPServer/SMTPConnection.cs:341-632 | Which branch a trimmed line takes: the empty line, prefix tests for HELO, EHLO, "AUTH ", MAIL FROM, RCPT TO, DATA and VRFY, and equality tests for STARTTLS, RSET, NOOP and QUIT, each on the upper-cased line and in the source's order |
| SmtpConnection.ClassifyIgnoresCase | Hermod/SMTP/SMTPServer/SMTPConnection.cs:348-611 | Lines that upper-case alike take the same branch |
| SmtpConnection.Greeting | Hermod/SMTP/SMTPServer/SMTPConnection.cs:262-263 | The 220 banner is the server name, empty when null, followed by the fixed service text |
| SmtpConnection.StoredAddress | Hermod/SMTP/SMTPServer/SMTPConnection.cs:463-464 | The stored address of a MAIL FROM / RCPT TO token as written: it is undefined, because the substring throws, exactly for "<>" |
| SmtpConnection.ReadBody | Hermod/SMTP/SMTPServer/SMTPConnection.cs:547-557 | DATA reading finishes exactly when a "." line is to come; it consumes the lines up to and including the first one |
| SmtpConnection.ReadBodyOfMessage | Hermod/SMTP/SMTPServer/SMTPConnection.cs:547-559 | For message lines that are not ".", followed by ".", the body is each line followed by the newline, and reading stops just after the "." |
| SmtpConnection.ReadBodySkipsNull | Hermod/SMTP/SMTPServer/SMTPConnection.cs:554 | A null line read during DATA is skipped and does not end the body |
| SmtpConnection.HeloCommand | Hermod/SMTP/SMTPServer/SMTPConnection.cs:348-366 | HELO keeps the engine, notifies nothing, goes on reading and writes one reply |
| SmtpConnection.EhloCommand | Hermod/SMTP/SMTPServer/SMTPConnection.cs:372-407 | EHLO keeps the engine, notifies nothing, goes on reading and writes one reply |
| SmtpConnection.StartTlsCommand | Hermod/SMTP/SMTPServer/SMTPConnection.cs:413-433 | STARTTLS never turns TLS off and changes nothing else of the engine |
| SmtpConnection.AuthCommand | Hermod/SMTP/SMTPServer/SMTPConnection.cs:439-445 | AUTH writes a reply exactly when TLS is off |
| SmtpConnection.AddressCommand | Hermod/SMTP/SMTPServer/SMTPConnection.cs:451-534 | MAIL FROM / RCPT TO writes one reply and ends the connection exactly when the third token is "<>" |
| SmtpConnection.DataCommand | Hermod/SMTP/SMTPServer/SMTPConnection.cs:540-570 | DATA blocks exactly when no "." line is to come; it notifies exactly when one is; it consumes data lines only from the front |
| SmtpConnection.Dispatch | Hermod/SMTP/SMTPServer/SMTPConnection.cs:341-632 | One command keeps the server name and `UseTLS` and never turns TLS off. Only STARTTLS can turn it on. The loop is told to quit exactly on QUIT. At most one notification is raised |
| SmtpConnection.Loop | Hermod/SMTP/SMTPServer/SMTPConnection.cs:268-678 | The read loop keeps the server name and `UseTLS`, never turns TLS off, and with no input leaves the connection open with no reply; a failed read or a timeout closes at once tagged by the server, a client close tagged by the client, both with nothing written |
| SmtpConnection.LoopSkipsOne | Hermod/SMTP/SMTPServer/SMTPConnection.cs:268-678 | A read result the `switch` has no case for is skipped: the loop goes on with the same state and scanner |
| SmtpConnection.LoopSkipsOtherReads | Hermod/SMTP/SMTPServer/SMTPConnection.cs:268-678 | Any number of read results the `switch` has no case for change nothing |
| SmtpConnection.LoopClosesOnReadFailure | Hermod/SMTP/SMTPServer/SMTPConnection.cs:654-678 | After any ignored read results, a failed read, a timeout or a client close ends the connection with the state unchanged and nothing written; the close is tagged by the client exactly when the client closed, and by the server otherwise, as at line 714 |
| SmtpConnection.AfterLine | Hermod/SMTP/SMTPServer/SMTPConnection.cs:640-678 | After a command, QUIT closes tagged by the client, an exception closes tagged by the server, a DATA without end leaves the connection open, and earlier replies and notifications are kept as a prefix |
| SmtpConnection.Run | Hermod/SMTP/SMTPServer/SMTPConnection.cs:240-716 | A whole connection starts with the 220 greeting and keeps the engine's name and `UseTLS` |
| SmtpConnection.Bytes | Hermod/SMTP/SMTPServer/SMTPConnection.cs:273-277 | Each byte arriving is one `DataAvailable` read result, in order |
| SmtpConnection.LoopReadsLine | Hermod/SMTP/SMTPServer/SMTPConnection.cs:275-642 | The loop consumes one line at a time: the bytes up to and including the LF are decoded, trimmed and interpreted, then the loop continues from a fresh scanner |
| SmtpConnection.DecodeFramedLine | Hermod/SMTP/SMTPServer/SMTPConnection.cs:319 | Decoding and trimming a line sent with CR LF gives back the trimmed line |
| SmtpConnection.LoopAgreesWithConverse | Hermod/SMTP/SMTPServer/SMTPConnection.cs:268-678 | Byte level against line level: the loop over CR LF framed command lines behaves exactly as the line-level engine on the trimmed lines |
| SmtpConnection.AfterLineAgreesWithConverse | Hermod/SMTP/SMTPServer/SMTPConnection.cs:640-678 | The same agreement for the remainder of a connection after any command |
| SmtpCommands.EmptyLineIgnored | Hermod/SMTP/SMTPServer/SMTPConnection.cs:341-342 | An empty trimmed line gets no reply and changes nothing |
| SmtpCommands.HeloReply | Hermod/SMTP/SMTPServer/SMTPConnection.cs:348-366 | HELO with an argument stores the text after "HELO " and answers 250 with the server name, or writes nothing when the name is null or empty; without one it answers 501 and keeps the session |
| SmtpCommands.CapabilitiesAreEhloLines | Hermod/SMTP/SMTPServer/SMTPConnection.cs:391-398 | The reply writer turns the seven EHLO entries into exactly the capability list, dropping a null or empty server name like the absent options |
| SmtpCommands.EhloReply | Hermod/SMTP/SMTPServer/SMTPConnection.cs:372-407 | EHLO with an argument stores the client name and answers with the capability list as one multi-line 250, which has no name line when the server name is null or empty; without an argument it answers 501 |
| SmtpCommands.EhloAdvertises | Hermod/SMTP/SMTPServer/SMTPConnection.cs:391-398 | The list starts with the server name when it has one, then VRFY; after the name it has STARTTLS exactly when `UseTLS` and AUTH exactly when TLS is on; it has four lines, plus the name and those two options |
| SmtpCommands.StartTlsGate | Hermod/SMTP/SMTPServer/SMTPConnection.cs:413-433 | STARTTLS answers 503 "already started" when TLS is on, else 503 "EHLO/HELO first" before a client name, else 220 and TLS on |
| SmtpCommands.AuthGate | Hermod/SMTP/SMTPServer/SMTPConnection.cs:439-445 | "AUTH " answers 503 "STARTTLS first" while TLS is off, and nothing once it is on |
| SmtpCommands.AddressReply | Hermod/SMTP/SMTPServer/SMTPConnection.cs:451-534 | With three or more tokens the third is echoed in 250 "Sender ok" / "Recipient ok" and its stored form appended to the senders or the recipients ("<>" ends the connection instead); with fewer, 501 and no change |
| SmtpCommands.DataReply | Hermod/SMTP/SMTPServer/SMTPConnection.cs:540-570 | DATA answers 354, reads the body to the "." line, notifies it once and answers 250; with no "." to come only the 354 is written and the loop waits |
| SmtpCommands.DataDeliversMessage | Hermod/SMTP/SMTPServer/SMTPConnection.cs:547-568 | The message sent between DATA and "." is exactly the one notified and stored, and the lines after the "." remain unread |
| SmtpCommands.ResetClearsSession | Hermod/SMTP/SMTPServer/SMTPConnection.cs:576-605 | RSET (250) and VRFY (252) forget the client name, senders, recipients and text, and leave the engine, TLS included |
| SmtpCommands.NoopChangesNothing | Hermod/SMTP/SMTPServer/SMTPConnection.cs:589-592 | NOOP answers 250 and changes nothing |
| SmtpCommands.QuitCloses | Hermod/SMTP/SMTPServer/SMTPConnection.cs:611-615 | QUIT answers 221 and the loop ends closed by the client, whatever input would follow |
| SmtpCommands.UnrecognizedReported | Hermod/SMTP/SMTPServer/SMTPConnection.cs:621-632 | Any other line is answered 500 quoting it and raises one invalid-command notification; nothing else changes |
| SmtpCommands.DispatchOutcomes | Hermod/SMTP/SMTPServer/SMTPConnection.cs:341-632 | Only DATA can block, only MAIL FROM / RCPT TO can abort, notifications come only from DATA and unrecognised lines, and only the empty line and AUTH under TLS produce no reply record (HELO with a null or empty server name produces a record that writes no line, see `SmtpReply.WireSilent`) |
| SmtpScenarios.ConverseThenQuit | Hermod/SMTP/SMTPServer/SMTPConnection.cs:611-678 | A command that keeps reading followed by QUIT yields both replies, the first command's state and a close by the client |
| SmtpScenarios.EhloThenQuit | Hermod/SMTP/SMTPServer/SMTPConnection.cs:372-615 | EHLO host then QUIT: the capability list, the 221 and a close by the client, with the client name stored and nothing delivered |
| SmtpScenarios.RunAgreesWithConverse | Hermod/SMTP/SMTPServer/SMTPConnection.cs:240-678 | A whole connection is the greeting followed by what the line-level engine answers to the trimmed command lines |
| SmtpScenarios.EhloThenQuitOnTheWire | Hermod/SMTP/SMTPServer/SMTPConnection.cs:240-678 | The same dialogue as bytes: greeting, capability list and 221 on the wire, closed by the client |
| SmtpScenarios.MailFromWithoutAddress | Hermod/SMTP/SMTPServer/SMTPConnection.cs:451-473 | "MAIL FROM" with no address is answered 501 and records nothing |
| SmtpScenarios.DataHelloWorld | Hermod/SMTP/SMTPServer/SMTPConnection.cs:540-570 | DATA, "Hello", "World", "." delivers "Hello" and "World" each followed by the newline, answering 354 then 250 |
| SmtpFindings.StoredAddressDropsLastCharacter | Hermod/SMTP/SMTPServer/SMTPConnection.cs:463-464 | As written, a bracketed address is stored without its last character ("<a@b.c>" becomes "a@b."), so no non-empty address is stored as given |
| SmtpFindings.NullSenderAborts | Hermod/SMTP/SMTPServer/SMTPConnection.cs:459-466 | As written, "MAIL FROM:<>" is acknowledged and then ends the connection from the server side |
| SmtpFindings.StripAngleBracketsRoundTrip | Hermod/SMTP/SMTPServer/SMTPConnection.cs:463-464 | The corrected stripping undoes bracketing for every address, the empty one included |
| SmtpFindings.IntendedDispatch | Hermod/SMTP/SMTPServer/SMTPConnection.cs:451-534 | With the corrected stripping no command aborts, QUIT still quits, and every command other than MAIL FROM / RCPT TO behaves as before |
| SmtpFindings.IntendedMailFromStoresAddress | Hermod/SMTP/SMTPServer/SMTPConnection.cs:459-466 | With the corrected stripping "MAIL FROM:<a>" stores exactly `a`, keeps the connection open and echoes the bracketed form |
| SmtpFindings.EhloReoffersStartTls | Hermod/SMTP/SMTPServer/SMTPConnection.cs:394 | As written, EHLO after an accepted STARTTLS still lists STARTTLS |
| SmtpFindings.IntendedEhloOffers | Hermod/SMTP/SMTPServer/SMTPConnection.cs:391-398 | With the corrected entries STARTTLS is listed exactly while TLS is used and not yet on, and AUTH exactly once it is on |
| SmtpServer.ResolveUseTLS | Hermod/SMTP/SMTPServer/SMTPServer.cs:163-167 | An explicit `UseTLS` wins; without one, TLS is used exactly when a certificate is given |
| SmtpServer.NewServer | Hermod/SMTP/SMTPServer/SMTPServer.cs:131-180 | The constructor stores the name as given, empty included, builds one engine from that name and the resolved `UseTLS` with TLS off, and listens on the port when one is given |
| SmtpServer.DefaultServer | Hermod/SMTP/SMTPServer/SMTPServer.cs:131-169 | With every argument left out: the default name "Vanaheimr Hermod SMTP Service v0.1", TLS used but not on, no listener |
| SmtpServer.SetDefaultServerName | Hermod/SMTP/SMTPServer/SMTPServer.cs:72-76 | The setter takes a non-null, non-empty name and otherwise keeps the old one; the engine keeps the name it was built with |
| SmtpServer.SetterKeepsNameNonEmpty | Hermod/SMTP/SMTPServer/SMTPServer.cs:74-75 | Through the setter a non-empty name can never become null or empty |
| SmtpServer.ConstructorKeepsEmptyName | Hermod/SMTP/SMTPServer/SMTPServer.cs:162-169 | The constructor stores an empty name, and the engine gets it too |
| SmtpServer.AttachTCPPorts | Hermod/SMTP/SMTPServer/SMTPServer.cs:202-212 | Attaching ports adds listeners and leaves the one engine as it is |
| SmtpServer.AttachTCPSockets | Hermod/SMTP/SMTPServer/SMTPServer.cs:231-241 | The same for sockets |
| SmtpServer.Serve | Hermod/SMTP/SMTPServer/SMTPServer.cs:205-208 | A connection on any listener is a run of the shared engine: it starts with the greeting, and the engine it leaves is the server's from then on |
| SmtpServer.TlsOutlivesConnections | Hermod/SMTP/SMTPServer/SMTPServer.cs:205-237 | Once TLS is on, every later connection on every listener finds it on |
| SmtpServer.ListenersAreInterchangeable | Hermod/SMTP/SMTPServer/SMTPServer.cs:205-237 | Which listener accepts a connection makes no difference; this records the shape of the model, since every listener is handed the same processor and `Serve` does not read the listener |
| SmtpServer.EhloThenStartTls | Hermod/SMTP/SMTPServer/SMTPConnection.cs:413-433 | EHLO then STARTTLS switches the engine to TLS, whether or not the server uses TLS, answering the capability list and 220 |
| SmtpServer.LaterConnectionSeesTls | Hermod/SMTP/SMTPServer/SMTPConnection.cs:413-417 | With TLS already on, the same dialogue lists AUTH and is refused with 503 "TLS already started" |
| SmtpServer.ServedStartTlsSwitches | Hermod/SMTP/SMTPServer/SMTPServer.cs:205-237 | A connection on any listener that sends EHLO then STARTTLS switches the shared engine to TLS |
| SmtpServer.ServedStartTlsRefused | Hermod/SMTP/SMTPServer/SMTPServer.cs:205-237 | A connection on any listener of a server whose engine is in TLS mode is greeted, listed AUTH and refused STARTTLS with 503 |
| SmtpServer.TlsLeaksAcrossListeners | Hermod/SMTP/SMTPServer/SMTPServer.cs:205-237 | After a client on one listener has sent EHLO and STARTTLS, a new client on another listener is told "503 5.5.1 TLS already started" |
| DnsCache.EntryFor | Hermod/DNS/DNSCache.cs:120-123 | The entry expires one TTL after `now` and is due for refresh after half of it, holding the answer |
| DnsCache.EntryForOrdered | Hermod/DNS/DNSCache.cs:121-122 | For a non-negative TTL, now ≤ refresh ≤ end of life |
| DnsCache.CleanUpPeriod | Hermod/DNS/DNSCache.cs:57-60 | The sweep period is the given one, or one minute |
| DnsCache.SeedInfo | Hermod/DNS/DNSCache.cs:65-77 | A built-in answer from 127.0.0.1 port 53: authoritative, not truncated, no recursion, `NoError`, query id 0, A 127.0.0.1 and AAAA ::1 with a 3650-day TTL |
| DnsCache.NewCache | Hermod/DNS/DNSCache.cs:62-96 | A new cache holds exactly "localhost" and "loopback", due for refresh now, ending 3650 days later |
| DnsCache.Add | Hermod/DNS/DNSCache.cs:110-138 | Upsert: the domain maps to an entry for the answer, refreshed after half and expiring after all of the first answer's TTL, and every other domain is untouched |
| DnsCache.SingleRecordInfo | Hermod/DNS/DNSCache.cs:166-175 | The record overload caches one answer: non-authoritative, not truncated, no recursion, `NoError`, nothing else |
| DnsCache.AddRecord | Hermod/DNS/DNSCache.cs:150-189 | Insert only: a cached domain is left as it is; otherwise it gets the single-record answer, refreshed after half and expiring after all of the record's TTL; other domains are untouched |
| DnsCache.GetDNSInfo | Hermod/DNS/DNSCache.cs:199-214 | The cached answer exactly when the domain is present, whatever its end of life |
| DnsCache.Sweep | Hermod/DNS/DNSCache.cs:221-236 | With the lock, exactly the entries whose end of life is before now are removed and the rest kept as they are; without it, nothing changes |
| DnsCache.AddThenGet | Hermod/DNS/DNSCache.cs:119-132 | What `Add` stores is what `GetDNSInfo` returns, and other domains answer as before |
| DnsCache.AddReplaces | Hermod/DNS/DNSCache.cs:125-131 | Adding twice for a domain is adding the second answer alone: no merge |
| DnsCache.AddRecordKeepsFirst | Hermod/DNS/DNSCache.cs:177-183 | Once a domain is cached, the record overload changes nothing |
| DnsCache.AddedEntriesOrdered | Hermod/DNS/DNSCache.cs:121-122 | Entries made by either overload from a non-negative TTL are refreshed no later than they expire |
| DnsCache.SweepComposes | Hermod/DNS/DNSCache.cs:232-236 | A sweep followed by a later sweep is the later sweep alone |
| DnsCache.SweepLeavesOnlyLive | Hermod/DNS/DNSCache.cs:232-236 | After a sweep every entry is alive at the sweep's time |
| DnsCache.ExpiredServedUntilSwept | Hermod/DNS/DNSCache.cs:207-208 | An expired entry is still served until a sweep with the lock removes it |
| DnsCache.SixtySecondAnswer | Hermod/DNS/DNSCache.cs:121-122 | A 60-second answer added at t survives a sweep at t + 60 s and is gone after a sweep one millisecond later |
| DnsCache.SeedsSurviveSweeps | Hermod/DNS/DNSCache.cs:62-96 | The built-in entries survive every sweep for 3650 days |
| HttpServer.NewServer | Hermod/HTTP/Server/HTTPServer.cs:238-266 | As written the constructor leaves `DefaultServerName` null, whatever name it is given |
| HttpServer.IntendedNewServer | Hermod/HTTP/Server/HTTPServer.cs:240 | The corrected constructor keeps the given name, "Hermod HTTP Server v0.9" by default |
| HttpServer.ConstructorLosesName | Hermod/HTTP/Server/HTTPServer.cs:266 | For every name, as written it is lost and corrected it is kept; with no argument the two differ |
| HttpServer.AddMethodCallback | Hermod/HTTP/Server/HTTPServer.cs:355-377 | The delegate overload appends one registration with host "*" and template "/" by default and GET for a null method, forwarding everything else |
| HttpServer.AddReflectedCallback | Hermod/HTTP/Server/HTTPServer.cs:395-417 | The method-info overload appends one registration with its host, template, method (a null method included), content type and the four authentication arguments forwarded unchanged |
| HttpServer.AddReflectedCallbackHosts | Hermod/HTTP/Server/HTTPServer.cs:435-457 | The several-hosts overload forwards every argument unchanged |
| HttpServer.OverloadsAgree | Hermod/HTTP/Server/HTTPServer.cs:355-417 | For the same host, template, given method, content type and authentication arguments, the delegate and the method-info overloads append the same registration except for the handler |
| HttpServer.MethodDefaults | Hermod/HTTP/Server/HTTPServer.cs:355-457 | For the same null method the delegate overload registers GET and the method-info overload registers null |
| HttpServer.Fallback | Hermod/HTTP/Server/HTTPServer.cs:761-767 | The last-resort response: status 500, `TEXT_UTF8`, "Error 500 - Internal Server Error!", Server "Hermod", Connection "close" |
| HttpServer.GetHandler | Hermod/HTTP/Server/HTTPServer.cs:466-480 | The URI mapping's answer for the host, URL, method and content type, passed through unchanged |
| HttpServer.SourceOf | Hermod/HTTP/Server/HTTPServer.cs:739-767 | The response comes from the matched route exactly when the lookup finds one, else from the default handler exactly when one is registered, else from the 500 |
| HttpServer.ProcessBoomerang | Hermod/HTTP/Server/HTTPServer.cs:732-767 | A matched delegate is called with the request and no template values; else the default handler with connection id, timestamp and request; else the 500 |
| HttpServer.ExactlyOneOutcome | Hermod/HTTP/Server/HTTPServer.cs:739-767 | Every request gets exactly the response of the branch `SourceOf` names; this re-expresses `ProcessBoomerang`'s contract by that case split |
| HttpServer.TemplateValuesDiscarded | Hermod/HTTP/Server/HTTPServer.cs:745 | Two mappings that find the same delegate with different template values give the same response |
| HttpServer.RouteShadowsDefault | Hermod/HTTP/Server/HTTPServer.cs:744-755 | For a request a route matches, having a default handler makes no difference |
| HttpServer.KeyDecidesSource | Hermod/HTTP/Server/HTTPServer.cs:739-742 | Requests that agree on host, URL path, method and best accept type take the same branch |
| HttpServer.FreshServerFails | Hermod/HTTP/Server/HTTPServer.cs:744-767 | A new server with no routes and no default handler answers 500 |
| MailinglistBuilder.AcceptedIffNotWhiteSpace | Hermod/SMTP/EMail/MailinglistEMailBuilder.cs:78 | The setters' guard holds exactly for a present value that is not all white space |
| MailinglistBuilder.SetListId | Hermod/SMTP/EMail/MailinglistEMailBuilder.cs:50-54 | A null list id is ignored, any other is stored |
| MailinglistBuilder.SetText | Hermod/SMTP/EMail/MailinglistEMailBuilder.cs:76-80 | A null, empty or white-space text is ignored, any other is stored; nothing else changes |
| MailinglistBuilder.SetContentLanguage | Hermod/SMTP/EMail/MailinglistEMailBuilder.cs:100-104 | The same for the content language |
| MailinglistBuilder.NewBuilder | Hermod/SMTP/EMail/MailinglistEMailBuilder.cs:117-120 | The constructor's "" is refused, so a new builder has no text |
| MailinglistBuilder.EncodeBodyparts | Hermod/SMTP/EMail/MailinglistEMailBuilder.cs:127-136 | One `text/plain`, quoted-printable, UTF-8 body part carrying the current language and text |
| MailinglistBuilder.AssignKeepsValid | Hermod/SMTP/EMail/MailinglistEMailBuilder.cs:50-104 | Each setter keeps text and language either unset or non-blank |
| MailinglistBuilder.AlwaysValid | Hermod/SMTP/EMail/MailinglistEMailBuilder.cs:76-134 | After any sequence of assignments the text and language are unset or non-blank, and so is what is encoded |
| MailinglistBuilder.LastAcceptedTextWins | Hermod/SMTP/EMail/MailinglistEMailBuilder.cs:76-134 | The encoded text is the last non-blank text assigned, or the starting one when there is none |

## Left out

- Socket I/O: `TryRead`, `ReadLine`, writing and flushing. Read results, DATA lines and replies are sequences.
- Threads, locks and timers: the sweep's `Monitor.TryEnter` is the `lockAcquired` parameter, and the timer only fixes `CleanUpPeriod`.
- Clocks: every `DateTime.Now` is one `now` parameter. The source reads the clock separately for refresh and end of life, microseconds apart.
- The random `QueryId` of `Add(Domainname, Origin, ResourceRecord)`: a parameter.
- UTF-8 decoding: each byte is read as one character. The invalid-UTF-8 notification cannot arise, so it is not modelled.
- .NET white space: `Trim` removes ASCII white space only, and `ToUpper` maps ASCII letters only.
- The platform newline that `AppendLine` adds is a parameter.
- The TLS handshake is commented out in the source. STARTTLS only sets the flag.
- The `NotifyErrors` payloads, `Debug.WriteLine` and the swallowed exceptions. Notifications are `NewMail(text)` and `InvalidCommand(line)`, and an exception is the `Abort` flow that closes tagged by the server.
- `SMTPStatusCode` is not part of this model. Its numeric values are the reply codes of section 4.2 of RFC 5321.
- The TTL halving in floating-point seconds: times are integer milliseconds.
- The route matching of `URIMapping`, `GetErrorHandler` and the event sources are not part of this model. The matcher is a function parameter, so which of several routes a request reaches (host, then path, then method, then content type) is not modelled.
- `GetEventSources` calls itself unconditionally and never returns, so it is not modelled.
- Reflection over calling assemblies and embedded resources in `HTTPServer`. A reflected handler is named, not called.
- `AbstractEMailBuilder` and `EMailBodypart` are not part of this model. The builder holds only the three properties.
- HttpServer.GetHandler: states only that the mapping's answer is passed through, since the mapping is a parameter.
- SmtpServer.Serve: states the greeting and what happens to the shared engine, not the replies, which `SmtpConnection.Run` and the scenarios describe.
- SmtpServer.NewServer: models only the port, the name, the certificate's presence and `UseTLS`. The thread, connection-id and time-out arguments only configure the TCP layer.
- HttpServer.NewServer: models only the name. The address, port and thread arguments only configure the TCP layer.
- SmtpReply.Counted: assumes `ForEachCounted` numbers its items 1, 2, ..., n. Its definition is not part of this model, and only that start makes `i < n` mean "not the last line".
- SmtpServer.ServeAll: serves connections one after the other. The source serves each connection on its own thread against the one engine, so a STARTTLS on one connection can switch `TLSEnabled` in the middle of another connection's run; interleavings are not modelled.
- DnsCache.EntryFor: TTLs are whole seconds, so the source's sub-second rounding of `ttl/2` does not arise.

## Findings

| source | as written | input that shows it | evidently intended | confidence | as-written member | corrected member |
|---|---|---|---|---|---|---|
| Hermod/SMTP/SMTPServer/SMTPConnection.cs:463-464 | `Substring(1, Length - 3)` drops the last character of a bracketed address; the RCPT TO branch at lines 522-523 does the same | `MAIL FROM:<a@b.c>` stores `a@b.` | Remove the two brackets only, `Substring(1, Length - 2)` | high, not executed | SmtpFindings.StoredAddressDropsLastCharacter | SmtpFindings.StripAngleBracketsRoundTrip |
| Hermod/SMTP/SMTPServer/SMTPConnection.cs:463-464 | For the null reverse-path the substring length is -1, so it throws after the 250 is written, and the outer handler closes the connection | `MAIL FROM:<>` | Accept the null reverse-path (section 4.5.5 of RFC 5321) and store the empty address | high, not executed | SmtpFindings.NullSenderAborts | SmtpFindings.IntendedDispatch |
| Hermod/SMTP/SMTPServer/SMTPConnection.cs:394 | STARTTLS is listed whenever the server uses TLS | EHLO, STARTTLS, EHLO on one connection: the second capability list still offers STARTTLS, which is then refused with 503 | List STARTTLS only while TLS is not on (section 4.2 of RFC 3207) | medium, not executed | SmtpFindings.EhloReoffersStartTls | SmtpFindings.IntendedEhloOffers |
| Hermod/HTTP/Server/HTTPServer.cs:266 | The constructor assigns the property `DefaultServerName` (its own unset field) instead of the parameter `DefaultServername` | `new HTTPServer(port, "www.example.org")` has a null `DefaultServerName` | Store the parameter | high, not executed | HttpServer.ConstructorLosesName | HttpServer.IntendedNewServer |

The engine model keeps the code as written, so the dialogues in `SmtpScenarios` and `SmtpServer` describe what the server does today. Each corrected definition sits beside the as-written one and carries the intended property.
