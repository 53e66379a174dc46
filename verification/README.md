# Telnet terminal front end: a verified model

This project models the protocol and policy core of a C front end that lets players of a
text game connect over Telnet, Telnet over TLS and SSH, together with the development client
that speaks the other end of the Telnet protocol. It proves what that core promises over
whole runs: option negotiation on the wire between two hosts, the byte-wise Telnet session with its
login dialogue, the shared abuse policy, UTF-8 handling, atomic publication of account
records, the SSH line editor, worker slots and the audit log.

`dafny verify dfyconfig.toml` checks everything. Time is a parameter of every operation. The
account store, the abuse policy, the password hash and the application are seen by a Telnet
session as an arbitrary tape of answers, so each statement about a session holds for every
behaviour of theirs. Each call is kept, with its answer, in the session's trace.

## How it is organised

- `QMethod`, `QProtocol`, `QWire`: the RFC 1143 option state machine; one option as two endpoints
  joined by two FIFO channels; and the real wire, two whole option tables that exchange command
  codes, which runs that protocol once for each of the 512 options.
- `Framing`, `NewEnviron`: the byte grammar of Telnet and the NEW-ENVIRON report (RFC 1572).
- `Dialog`, `DialogSafety`, `Telnet`: what a session does with each event, the invariant every
  event keeps, and the feed loop.
- Theorems over all byte streams of a session: `Credentials` and `LoginScript` (logging in),
  `SessionWire` (its option commands), `TypedLines` and `SpokenLines` (lines from the keyboard to
  the application), `EarlyMail` (GMCP), `Discovery` and `PeerReports` (what is asked of the
  terminal and what is learned), `Transcript` (how sessions end, prompts and texts), `Rations`
  (budgets).
- `RateWindow`, `SlidingWindow`, `LruTable`, `AbusePolicy`, `PeerLimits`, `PeerBackoff`, `Lockout`,
  `WorkerSlots`: limiters, the shared policy object, and interleavings of up to 64 workers.
- `TerminalText`: UTF-8 decoding, validation and sanitising (section 4 of RFC 3629).
- `PlayerRecord`, `Publication`, `Logins`: the record codec, the file-system steps of concurrent
  creations and logins, any of which may fail, and what they answer.
- `SshEditor`, `AuditLog`: the SSH line editor and the rotating log.

State that the source updates in place is a class or an array here (`Negotiator`,
`TelnetSession`, `EventWindow`, `SecurityPolicy`, `Runtime`, `Connection`, `Log`); each method
is proved against a function of the old state, and the theorems are about those functions.

## Where the code and a promise differ

- A comment says that CR NUL puts a carriage return into the line
  (src/telnet_protocol.c:1954-2004). `append_line_byte` drops every byte below 32, so it never
  does. The model follows the code; `EchoAndSecretsFollowLogin` states that lines hold no
  control byte.
- The retry hint of a refused connection is the exact wait of the window that refused, not of
  the call: `ReportedWaitSuffices` says exactly when a repeated call succeeds after any run, and
  `ReportedWaitCanFail` gives a run after which it does not.
- An account name that is empty is stored under "unknown" but never found there:
  `VisitKeepsUnique` says exactly when keys stay unique.
- A creation password can be lost: if an account's verifier already needs an upgrade, its
  creation fails to synchronise the directory, and a login has meanwhile begun the upgrade,
  then the upgrade can replace the record of a later creation. `CreatedAccountIsPermanent`
  proves permanence when creations under that path bring current verifiers, and
  `StaleVerifierCanReplaceAccount` gives the run for every stale one.
- The loader accepts a record torn inside its last line (`TornRecordLoads`); what protects
  accounts is that no path ever names an incomplete file (`PathsNameCompleteRecords`).
- At time zero a rate window counts as not started, so splitting a chunk then changes the byte
  counter (`ConsumeSplits`); the session itself is not affected (`ChunksAreInvisible`).
- Once requests stop, a negotiation ends within five deliveries, and five do occur.

## Model

| member | source | states |
|---|---|---|
| `QMethod.DisableWins` | src/telnet_negotiation.c:88-275 | After a disable request from any reachable side, against every command stream that the side refuses, the option is never on again: the side stays NO, WANTNO with nothing queued, or WANTYES with the opposite queued. |
| `QMethod.DeclinedForever` | src/telnet_negotiation.c:166-275 | That set of states is closed under every later command that is refused. |
| `QMethod.Negotiator.constructor` | src/telnet_negotiation.c:60-65 | All 512 sides start NO with nothing queued. |
| `QMethod.Negotiator.Enabled` | src/telnet_negotiation.c:67-86 | True exactly when the side is YES. |
| `QMethod.Negotiator.AskFor` | src/telnet_negotiation.c:88-164 | The in-place table and the commands sent are those of the one-sided request step on the addressed side; all others are unchanged. |
| `QMethod.Negotiator.TakePositive` | src/telnet_negotiation.c:166-226 | WILL or DO moves exactly one side, as the received-positive step says, and sends its reply. |
| `QMethod.Negotiator.TakeNegative` | src/telnet_negotiation.c:228-275 | The same for WONT or DONT. |
| `QMethod.Negotiator.Take` | src/telnet_negotiation.c:277-346 | Routes the four commands to the right side and direction; other codes change nothing. |
| `QProtocol.EveryRunIsSafe` | src/telnet_negotiation.c:88-275 | In every interleaving of requests and FIFO deliveries with arbitrary accept answers: no error branch is ever taken, each channel holds at most two commands, and when both are empty the ends are both YES or both NO. |
| `QProtocol.DeliveryDecreasesWeight` | src/telnet_negotiation.c:166-275 | Every delivery strictly decreases a measure. |
| `QProtocol.NegotiationTerminates` | src/telnet_negotiation.c:166-275 | Once requests stop, at most five commands are delivered, whatever the answers: no WILL/DO loop. |
| `QProtocol.FiveDeliveriesHappen` | src/telnet_negotiation.c:166-275 | Five is attained, so the bound is the least one. |
| `QProtocol.QuietOptionIsOnIffBothWishIt` | src/telnet_negotiation.c:88-275 | When ends answer by their current wish, then however often they change it, a quiet option is on or off at both ends, and it is on exactly when both wish it, if and only if somebody ever asked or the ends did not both wish it from the start. |
| `QWire.FirstCommands` | src/telnet_negotiation.c:42-59 | The literal codes: WILL 251, WONT 252, DO 253, DONT 254, said by the performer or the requester of an option and heard by the opposite side. |
| `QWire.FirstRequest` | src/telnet_negotiation.c:88-164 | A new negotiator asked to enable an option sends WILL of its own side and DO of the peer's. |
| `QWire.RunIsProtocol` | src/telnet_negotiation.c:88-346 | Every run of two option tables that exchange command codes over FIFO channels is, for each option and either way round, a run of the two-endpoint protocol: codes, direction routing and accept answers are those of the protocol. |
| `QWire.WireIsSafe` | src/telnet_negotiation.c:88-346 | So on the wire, from the start and in every interleaving: the next command is never an error for its receiver, at most two commands per option are in flight each way, and with both channels empty the two tables agree on every option. |
| `QWire.OptionSettles` | src/telnet_negotiation.c:277-346 | Once requests stop, at most five commands about an option are delivered. |
| `QWire.WireFallsSilent` | src/telnet_negotiation.c:277-346 | Once requests stop, the whole wire is silent after at most five deliveries for each of the 512 options. |
| `Framing.WriteData` | src/telnet_protocol.c:246-278 | The run-splitting writer produces exactly the IAC-doubled text. |
| `Framing.WriteReport` | src/telnet_protocol.c:418-451 | A subnegotiation is framed by IAC SB and IAC SE with its payload IAC-doubled. |
| `Framing.FramingRoundTrip` | src/telnet_protocol.c:3022-3117 | Any list of data, option, GA/EOR and subnegotiation frames that fit the reader's room is recovered exactly and in order, and the scanner is back in the data state after each. |
| `Framing.LongReportOverflows` | src/telnet_protocol.c:3073-3117 | A payload longer than the reader's room is never delivered; reading stops there. |
| `Framing.RoomsDiffer` | tools/secure_client.c:792-927 | A payload of 257 to 4096 bytes is read whole by the server's scanner and overflows the client's. |
| `Framing.ReadConcat` | src/telnet_protocol.c:3022-3117 | Scanning is compositional: the events of a concatenation are those of its parts. |
| `NewEnviron.ReadField` | src/telnet_protocol.c:2628-2744 | The inner loops decode one ESC-quoted name or value, stop at the right token and fault exactly on a dangling ESC, a misplaced VAL or an overlong field. |
| `NewEnviron.ReadReport` | src/telnet_protocol.c:2628-2744 | The whole loop yields the recursive decoder's pairs and completeness. |
| `NewEnviron.ReportRoundTrip` | src/telnet_protocol.c:2628-2744 | Quoted pairs followed by any rest: exactly the pairs with a name are applied, in order, and after them what the rest completes; a faulty rest loses none of them. |
| `NewEnviron.WholeReportRoundTrip` | src/telnet_protocol.c:2628-2744 | Decoding the encoding of any list of pairs within the limits gives exactly those with a name. |
| `DialogSafety.LineKeepsSafe` | src/telnet_protocol.c:1409-1890 | A complete line, in any login state and with any answers from store, policy and application, keeps the session invariant. |
| `DialogSafety.ByteKeepsSafe` | src/telnet_protocol.c:1909-2004 | So does every data byte, including the CR LF and CR NUL rules. |
| `DialogSafety.ControlKeepsSafe` | src/telnet_protocol.c:2006-2101 | So does every control command; an interrupted confirmation drops the prepared password. |
| `DialogSafety.MetadataIsRight` | src/telnet_protocol.c:978-1164 | Whatever the cached capabilities were, they are right after a refresh. |
| `DialogSafety.NegotiationKeepsSafe` | src/telnet_protocol.c:2777-2880 | So does every option command: the cache is refreshed, and ECHO moves only as the wish allows. |
| `DialogSafety.NegotiationKeepsEcho` | src/telnet_protocol.c:375-416 | A received command cannot bring ECHO on while it is not wished. |
| `DialogSafety.SubKeepsSafe` | src/telnet_protocol.c:2746-2775 | So does every subnegotiation. |
| `DialogSafety.EventKeepsSafe` | src/telnet_protocol.c:3022-3117 | Every scanner event keeps the invariant: echo and its option, token and name, line bounds, capability cache, request counter and mail queue. |
| `DialogSafety.StartIsSafe` | src/telnet_protocol.c:2969-2988 | A started session satisfies the invariant. |
| `Telnet.TelnetSession.constructor` | src/telnet_protocol.c:2887-2988 | A new session is between frames, with the opening requests, banner and prompt written. |
| `Telnet.TelnetSession.Collect` | src/telnet_protocol.c:3068-3117 | The payload buffer takes at most 4096 bytes and keeps them in order. |
| `Telnet.TelnetSession.Step` | src/telnet_protocol.c:3022-3117 | One turn of the feed loop is one scanner step followed by its handler. |
| `Telnet.TelnetSession.Receive` | src/telnet_protocol.c:2990-3120 | A chunk over the byte budget closes the session unread; otherwise bytes are handled one by one until the session closes. |
| `Telnet.RunIsSafe` | src/telnet_protocol.c:2990-3120 | Every byte stream, in any chunks at any times, leads to a session that satisfies the invariant. |
| `Telnet.EchoAndSecretsFollowLogin` | src/telnet_protocol.c:1308-1743 | After any byte stream: echo is wished exactly in the three password states and LOCAL ECHO is on only then; a prepared password exists exactly in the confirmation state; the line holds at most 512 bytes, 128 in password states, none of them a control byte. |
| `SessionWire.SessionIsAnEnd` | src/telnet_protocol.c:347-373 | After any events the option commands a session has written are exactly those its table sent: a table that started with all options off, made the opening requests, took every command heard once and in order, accepted only supported options, and was asked of nothing more but server echo. |
| `SessionWire.CommandsAreSaid` | src/telnet_protocol.c:347-373 | While the session is open every command of a table step is written, in order. |
| `SessionWire.OpeningIsFixed` | src/telnet_protocol.c:1166-1285 | Every session opens with the same eleven or twelve WILL and DO commands, listed by code, in that order. |
| `SessionWire.AcceptsSupported` | src/telnet_protocol.c:375-416 | An offer is accepted exactly when the option is one of seven (local) or six (remote) supported ones and, for ECHO, wished. |
| `SessionWire.UnsupportedStaysOff` | src/telnet_protocol.c:2777-2880 | Whatever the peer sends, no other option is ever on or asked for. |
| `Credentials.EntryIsEarned` | src/telnet_protocol.c:1409-1743 | After any byte stream and against any answers: in the game only if, for exactly the reported name, the policy allowed an attempt and a typed line verified, or a typed line matched the token that the store prepared from the line before it, the policy allowed a creation and the store created the account from that token. No password is checked unasked or uncounted, no account made without confirmation and permission, and the application is opened once, for that name. |
| `Credentials.PasswordKeepsTrace` | src/telnet_protocol.c:1501-1585 | A password line keeps that invariant of the trace of calls and answers, whatever the policy and the store answer. |
| `Credentials.ConfirmKeepsTrace` | src/telnet_protocol.c:1651-1743 | So does a confirmation line. |
| `Credentials.EnterAsks` | src/telnet_protocol.c:1409-1441 | Entering asks the application to open for the player and counts it as there exactly if it accepts. |
| `LoginScript.AnswersDriveTheLogin` | src/telnet_protocol.c:1443-1743 | After any byte stream and against any answers: login state, name and prepared password are those that a script over the answers reaches (an existing account leads to its password, an unknown one to creation, a failed creation back to the name), except for a confirmation given up; and every question asked was about the player and token reached by then. |
| `LoginScript.NameLeads` | src/telnet_protocol.c:1443-1499 | A valid name is looked up once and leads to the password, to creation or back, as the answer says. |
| `LoginScript.NewLeads` | src/telnet_protocol.c:1587-1649 | A new password of at least eight bytes is judged, then prepared, and leads to its confirmation only if both succeed. |
| `EarlyMail.MailIsDeliveredInOrder` | src/telnet_protocol.c:649-760 | Over every sequence of events: the calls made to the application hand over exactly the first four handshake messages heard before it was there, followed by every message heard since, once and in order; heard means that GMCP was on and the payload well formed. |
| `EarlyMail.MailOfEveryRun` | src/telnet_protocol.c:2990-3120 | The same for every byte stream in any chunks, with the application there exactly if it accepted its opening. |
| `EarlyMail.GmcpIsTaken` | src/telnet_protocol.c:698-760 | One report: handed on, queued if it is a handshake and there is room, or dropped. |
| `Telnet.CapabilitiesAreCoherent` | src/telnet_protocol.c:978-1164 | After any byte stream each of the BINARY, SGA, EOR, NEW-ENVIRON, MSSP and GMCP flags equals its option's state, and the UTF-8 flag its formula. |
| `Telnet.ChunksAreInvisible` | src/telnet_protocol.c:2990-3120 | If the budget admits the whole input, feeding it in two pieces leaves the same scanner, output, line and login state; the byte counter agrees too unless the first piece closed the session or the clock reads zero. |
| `Transcript.EndsForAReason` | src/telnet_protocol.c:1287-1306 | After any byte stream a session is closed if and only if the application left or asked for it, its opening was refused, the policy refused right after a failed login, one of six parting notices was written, or an application's line was too long; an open one has seen fewer than eight violations. |
| `Transcript.ProtocolErrorsAreEight` | src/telnet_protocol.c:1892-1907 | The protocol-error notice is written only for the eighth violation or an overrun report. |
| `Transcript.ApplicationTextIsWritten` | src/telnet_protocol.c:784-845 | The peer has been written what the application wrote, call by call and in order, in full while the session is open. |
| `Transcript.WarnedOnce` | src/telnet_protocol.c:314-328 | An insecure transport is warned of exactly once, and exactly if a name was looked up without an error. |
| `Transcript.PromptFitsLogin` | src/telnet_protocol.c:2014-2037 | At every byte boundary of an open session the last prompt written is that of the login state; at the name it can be the game's, which an overlong line brings up. |
| `Transcript.PromptIsMarked` | src/telnet_protocol.c:295-312 | A prompt is followed by EOR exactly if END-OF-RECORD is on, else by GA exactly if SUPPRESS-GO-AHEAD is off. |
| `Transcript.FallbackWords` | src/telnet_protocol.c:1745-1800 | Without an application "ping" in any case is answered and "quit" ends the session, and no other line does. |
| `Transcript.ControlsAre` | src/telnet_protocol.c:2052-2101 | AYT is answered, a stray SE is a violation, and codes without a meaning change nothing. |
| `Rations.LinesAreRationed` | src/telnet_protocol.c:1802-1830 | Over a whole session no ten seconds see more than 60 lines handled and no five more than 50 commands; a line (command) is refused only if 30 (25) were handled in less than that time before it. |
| `Rations.RefusedLineEnds` | src/telnet_protocol.c:1802-1890 | A refused line ends the session with its notice and reaches nobody; any other line that fits is completed. |
| `Rations.BytesAreRationed` | src/telnet_protocol.c:2990-3020 | Over a whole session no five seconds see more than 128 KiB read; a chunk is read if with it at most 64 KiB arrived in less than five seconds, and one longer than that closes the session unread. |
| `Rations.SshBytesAreRationed` | src/ssh_transport.c:836-884 | The same for an SSH connection, where a zero clock also closes. |
| `Discovery.EventIsCharged` | src/telnet_protocol.c:2777-2880 | Whatever an event writes is charged to the option's counter, which is forgotten only when the option goes off. |
| `Discovery.DiscoveryIsBounded` | src/telnet_protocol.c:985-1103 | However long the run and whatever the peer does: while the option is not turned off, at most four TERMINAL-TYPE SENDs, one CHARSET request, one NEW-ENVIRON SEND and one MSSP snapshot are written. |
| `Discovery.DiscoveryHappens` | src/telnet_protocol.c:985-1103 | And they do go out: in every open session with TERMINAL-TYPE or NEW-ENVIRON on, or CHARSET with BINARY both ways, the request that goes with it has been written. |
| `Discovery.AskedOnlyWhenDue` | src/telnet_protocol.c:985-1103 | An event makes the session ask only for what is due after it: terminal type and environment with the option on, the character set only with BINARY both ways. |
| `Discovery.NegotiationIsFollowedUp` | src/telnet_protocol.c:497-553 | After every option command a listening application is told once; when MSSP comes on the provider is asked once, and a snapshot it has is written. |
| `PeerReports.WindowIsLearned` | src/telnet_protocol.c:2103-2165 | A window size as the client reports it is kept, clamped to 20 to 500 by 5 to 200, zero standing for 80 and 24. |
| `PeerReports.OddWindowIsAViolation` | src/telnet_protocol.c:2125-2165 | Any other length is a violation while the option is on and is ignored while it is off. |
| `PeerReports.DecimalInvertsDigits` | src/telnet_protocol.c:2192-2221 | The decimal parser reads back every number below 2^32 and refuses larger ones. |
| `PeerReports.FlagsAreLearned` | src/telnet_protocol.c:2258-2378 | A reported set of MTTS flags is kept, and its bit 2 turns UTF-8 on. |
| `PeerReports.NamesChangeNoFlags` | src/telnet_protocol.c:2277-2378 | Any other well-formed terminal type leaves the flags alone. |
| `PeerReports.TypesAreAskedOn` | src/telnet_protocol.c:2277-2378 | After a terminal type the next is asked for, up to four, unless it repeats the last or is "ANSI" in answer to the first request. |
| `PeerReports.OffersIffMentioned` | src/telnet_protocol.c:2380-2418 | A list of printable words is accepted exactly if one of them is UTF-8, in any case. |
| `PeerReports.CharsetRequestIsAnswered` | src/telnet_protocol.c:2420-2517 | A CHARSET request is accepted if and only if it lists UTF-8 and BINARY is on both ways; otherwise it is refused and nothing changes. |
| `PeerReports.CharsetAnswerIsHeard` | src/telnet_protocol.c:2420-2517 | The peer's answer to our own request turns UTF-8 on or off; anything else is a violation. |
| `PeerReports.CharsetIsAgreed` | tools/secure_client.c:567-622 | The request that a session sends makes the client accept, and hearing that turns UTF-8 on. |
| `PeerReports.CharsetIsForgotten` | src/telnet_protocol.c:2777-2880 | After a command that leaves CHARSET off both ways, the terminal counts as UTF-8 only if its flags say so. |
| `PeerReports.VariablesAreLearned` | src/telnet_protocol.c:2541-2626 | From any list of variables the latest flags are kept, and UTF-8 is on if any of them names it. |
| `PeerReports.EnvironIsLearned` | src/telnet_protocol.c:2628-2744 | The same for every encoded NEW-ENVIRON report within the limits. |
| `PeerReports.MessageRoundTrip` | src/telnet_protocol.c:581-625 | A GMCP message written as package, space and body is read back. |
| `PeerReports.MessagesAreProper` | src/telnet_protocol.c:698-760 | Whatever is read has a package name of 1 to 96 allowed bytes and a UTF-8 body of at most 3968. |
| `PeerReports.HandshakesAre` | src/telnet_protocol.c:641-647 | The handshake packages are four names, compared without case. |
| `PeerReports.PingIsAnswered` | src/telnet_protocol.c:698-760 | A Core.Ping is answered by a Core.Ping, and no other message is. |
| `Telnet.FeedIsReading` | src/telnet_protocol.c:2990-3120 | For bytes at any times: acting in the middle of scanning equals scanning everything first and handling the events afterwards. |
| `Telnet.ChunksAreTicks` | src/telnet_protocol.c:2990-3020 | Chunks are their bytes one after another, up to the first chunk that the byte budget refuses, which closes the session. |
| `Telnet.LongReportCloses` | src/telnet_protocol.c:3073-3117 | A subnegotiation beyond 4096 bytes closes the session with nothing of it handled and nothing after it read. |
| `TypedLines.SendTerminalInput` | tools/secure_client.c:929-956 | The converted input is LF as CR LF with IAC doubled; it never overruns the 8192-byte buffer, and input over 4096 bytes is refused. |
| `TypedLines.TypedLinesArrive` | src/telnet_protocol.c:1909-2004 | Lines typed at the client with backspaces, cut into any chunks at any times and under any budgets: the completed lines are the first of those, as edited, that fit the limit of the login state reached by then, and all of them while the session is open; then the session is exactly that of handling those lines, ready for the next. |
| `TypedLines.CompletedAreFitting` | src/telnet_protocol.c:1802-1890 | Handling lines one by one completes the first of those that fit and, while open, all: none lost, doubled, merged or silently cut. |
| `TypedLines.ShortLinesFit` | src/telnet_protocol.c:1909-1952 | Lines that never grow beyond 128 bytes while being edited fit in every state, so an open session has completed all of them as edited. |
| `TypedLines.LineEndingsAgree` | src/telnet_protocol.c:1954-2004 | From any session: data that agree in their bytes from 32 up, backspaces and line feeds lead to the same session, up to a CR just seen, so LF, CR LF and CR NUL LF end a line alike and other controls are invisible. |
| `TypedLines.EveryLfCompletes` | src/telnet_protocol.c:1959-2004 | Every LF completes the line, after a CR or not. |
| `TypedLines.ControlsEditTheLine` | src/telnet_protocol.c:2006-2101 | The command EC is a backspace, and EL leaves nothing of the line and changes nothing else. |
| `SpokenLines.LinesAreSpokenInOrder` | src/telnet_protocol.c:1745-1800 | Over every sequence of events the application has been given the first of the lines completed while it was listening, once, in order and as completed, and all of them while the session is open. |
| `SpokenLines.CommandSpeaks` | src/telnet_protocol.c:1765-1773 | A line in the game goes to a listening application unchanged, unless the session closes instead; without one it goes to nobody. |
| `SpokenLines.TypedLinesAreSpoken` | src/telnet_protocol.c:2990-3120 | From the keyboard to the application: of lines typed at the client in any chunks, a listening application is given the first, in order and as edited, and every one while the session stays open. |
| `RateWindow.ConsumeTakesFromLeft` | src/telnet_protocol.c:191-212 | A use is granted exactly when it fits in what the window has left, and leaves that much less. |
| `RateWindow.ConsumeSplits` | src/ssh_transport.c:101-121 | What can be taken at once can be taken in two parts; the windows agree if and only if the clock is not zero or the first part is empty. |
| `RateWindow.RefusedOnlyWhenSpent` | src/telnet_protocol.c:191-212 | After any run of calls: a call that, with everything granted less than a span ago, stays within the limit is granted; so a spent window ends. |
| `RateWindow.AtMostTwiceTheLimit` | src/ssh_transport.c:101-121 | After any run of calls no span holds grants of more than twice the limit. |
| `RateWindow.TwiceTheLimitHappens` | src/telnet_protocol.c:191-212 | Twice the limit is attained, so that bound is the least one. |
| `SlidingWindow.EventWindow.Prune` | src/security_policy.c:128-149 | In-place compaction keeps exactly the live events, in order. |
| `SlidingWindow.EventWindow.Allow` | src/security_policy.c:151-180 | The array version decides, stores and reports as the sequence version. |
| `SlidingWindow.AdmitRefinesHistory` | src/security_policy.c:128-180 | Under non-decreasing time a call is admitted if and only if fewer than the limit of all earlier admissions lie in the window, and the stored times go on representing that history. |
| `SlidingWindow.RetryAfterIsLeastWait` | src/security_policy.c:151-180 | A refusal's retry hint is the exact least wait after which the window admits. |
| `SlidingWindow.RunIsSpaced` | src/security_policy.c:128-180 | Over every run the admissions are spaced so that no interval of the window's length holds more than the limit. |
| `SlidingWindow.SpacedBoundsEveryWindow` | src/security_policy.c:128-180 | That spacing bounds the admissions seen from any moment. |
| `LruTable.Locate` | src/security_policy.c:182-230 | The single scan finds the key's slot, else the first empty one, else the first of the least recently seen. |
| `LruTable.VisitThenFind` | src/security_policy.c:182-289 | The next lookup of a key finds what the last one left. |
| `LruTable.VisitKeepsUnique` | src/security_policy.c:232-289 | Keys stay unique if and only if the probe is not empty or no other slot holds "unknown". |
| `LruTable.EvictionNeedsManyOthers` | src/security_policy.c:182-289 | Whoever is evicted has been overtaken by as many distinct other keys as the table has slots. |
| `LruTable.TableForgetsOnlyUnderPressure` | src/security_policy.c:182-289 | Over every run of lookups: keys are unique, records are those of their last lookup, and a key is missing only after that many distinct others. |
| `AbusePolicy.SecurityPolicy.FindPeer` | src/security_policy.c:182-230 | Finds or makes the peer's slot and touches no other. |
| `AbusePolicy.SecurityPolicy.FindAccount` | src/security_policy.c:232-289 | The same for accounts, whose names are folded to lower case and cut to the key size. |
| `AbusePolicy.SecurityPolicy.TryConnection` | src/security_policy.c:341-398 | The peer's window first; the global one is asked, and charged, only if that admits; the hint is the larger. |
| `AbusePolicy.SecurityPolicy.TryCreation` | src/security_policy.c:544-597 | The same for account creations. |
| `AbusePolicy.SecurityPolicy.TryAuth` | src/security_policy.c:400-461 | Allowed when neither peer nor account is blocked; expired account locks are reset first. |
| `AbusePolicy.SecurityPolicy.RecordFailure` | src/security_policy.c:463-511 | One more failure and its delay in both records. |
| `AbusePolicy.SecurityPolicy.RecordSuccess` | src/security_policy.c:513-542 | Both records are cleared. |
| `AbusePolicy.GlobalLimitsHold` | src/security_policy.c:341-398 | Every run under non-decreasing time, whatever the evictions, admits at most 30 connections in any 10 seconds and 50 creations in any 10 minutes. |
| `AbusePolicy.LimitsAreForgottenOnlyUnderPressure` | src/security_policy.c:182-289 | Over every run of policy calls a peer (account) keeps its record, as its last lookup left it, until 128 (256) distinct others have been looked up at or after that time. |
| `AbusePolicy.AuthWaitIsExact` | src/security_policy.c:400-461 | The wait reported for a login is exact: repeated later, the call is allowed if and only if that wait has passed. |
| `AbusePolicy.ConnectionWaitSuffices` | src/security_policy.c:341-398 | With windows in order, a refused connection repeated after the reported wait is admitted if and only if the window that did not refuse has room then. |
| `AbusePolicy.CreationWaitSuffices` | src/security_policy.c:544-597 | The same for a refused creation. |
| `AbusePolicy.KeysIgnoreCase` | src/security_policy.c:83-126 | Account names share a record if they differ in case only and, up to 31 bytes, only then. |
| `AbusePolicy.PeerKeysAre` | src/security_policy.c:83-126 | A peer has a record of its own up to 95 bytes of its address; a missing address is "unknown". |
| `PeerLimits.PeerLimitsHold` | src/security_policy.c:341-398 | Over every run under non-decreasing time a peer's own windows admit, since its record was last made, at most 5 connections in any 10 seconds and 10 creations in any 10 minutes. |
| `PeerLimits.AllowedIsCharged` | src/security_policy.c:544-597 | Whatever the policy allows has been charged to the peer's own window. |
| `PeerLimits.AllowedIffUnderLimits` | src/security_policy.c:341-398 | After every run under non-decreasing time a connection is allowed if and only if fewer than 5 of the peer's and 30 of all admissions lie in the last 10 seconds, and a creation if and only if fewer than 10 and 50 lie in the last 10 minutes. |
| `PeerLimits.ReachedWindowsAreOrderly` | src/security_policy.c:128-180 | Every run leaves the global and every peer's window sorted, not in the future and within its limit. |
| `PeerLimits.ReportedWaitSuffices` | src/security_policy.c:341-398 | So after any run the reported wait suffices if and only if the other window has room then. |
| `PeerLimits.ReportedCreationWaitSuffices` | src/security_policy.c:544-597 | The same after any run for creations. |
| `PeerBackoff.AllowedIffBothFree` | src/security_policy.c:400-461 | A login is allowed exactly when neither the peer's nor the account's record blocks it, and a blocked peer is told to wait at least that long. |
| `PeerBackoff.DelayIsSeconds` | src/security_policy.c:291-307 | The backoff after a peer's failures is 0 for the first two, then 1, 2, 4, 8, 16, 32 and 60 seconds. |
| `PeerBackoff.PeerWaitsItsTurn` | src/security_policy.c:463-511 | In every interleaving: after a peer's n-th failure since its record was reset no attempt from it is allowed before that many seconds have passed, and the peer is held back by nothing else. |
| `PeerBackoff.AtMostThreeGuessesPerSecond` | src/security_policy.c:400-511 | Guesses made one at a time among any other calls: any four consecutive failures of a peer span at least a second. |
| `PeerLimits.ReportedWaitCanFail` | src/security_policy.c:341-398 | A run of thirty admitted connections after which the reported wait does not suffice. |
| `Lockout.StepKeepsInvariant` | src/security_policy.c:400-542 | With allow, verify and note as separate steps, and successes noted after creations, failures noted plus attempts under way stay within 66 once the account is locked, and the record agrees with the count. |
| `Lockout.AtMostSixtySixFailures` | src/telnet_protocol.c:1501-1585 | In every interleaving of 64 workers at most 66 failures are noted for an account between two resets of its record. |
| `Lockout.NoneAllowedWhileLocked` | src/security_policy.c:400-461 | An attempt that is allowed finds the account unlocked. |
| `Lockout.AtMostThreeGuessesPerLock` | src/ssh_transport.c:407-452 | Guesses made one at a time among any other calls, under non-decreasing time: any four failures since the account's last success or eviction span at least 300 seconds. |
| `WorkerSlots.Runtime.Reserve` | src/secure_server.c:187-204 | A slot is granted exactly while the server is not stopping and fewer than 64 are taken. |
| `WorkerSlots.Runtime.Release` | src/secure_server.c:206-218 | Gives one slot back, never below zero. |
| `WorkerSlots.StepConserves` | src/secure_server.c:1044-1139 | Every call of the accepting thread and of every worker, succeeding or failing, keeps the counter equal to the reservations yet to be released, and releases only when it is positive. |
| `WorkerSlots.SlotsAreConserved` | src/secure_server.c:661-1004 | In every run: at most 64 slots taken, no release at zero, each worker releases exactly once, at its end and with socket, session and TLS state given back, and once the wait after shutdown has returned every worker has ended and nothing more happens. |
| `WorkerSlots.WorkerGetsOn` | src/secure_server.c:661-1004 | Every path of a worker (SSH, TLS and plain, with each allocation, attach, handshake or read failing) comes nearer to its release with every call outside the read loop, and what it holds follows from where it is. |
| `WorkerSlots.ReservedIffBelowLimit` | src/secure_server.c:187-204 | In every run a reservation succeeds exactly while fewer than 64 workers hold a slot. |
| `WorkerSlots.WaitEndsWithTheLast` | src/secure_server.c:230-245 | After shutdown the wait can end exactly when every worker has ended. |
| `WorkerSlots.EveryWorkerWasAdmitted` | src/secure_server.c:1044-1139 | No worker is ever started for a connection that the abuse policy refused. |
| `TerminalText.DecodeInvertsEncode` | src/terminal_text.c:18-96 | The decoder returns every encoded scalar value and its length, whatever follows. |
| `TerminalText.DecodeOnlyEncodings` | src/terminal_text.c:18-96 | What it accepts is an encoding: no overlong form, surrogate, truncation or value beyond U+10FFFF. |
| `TerminalText.Utf8Valid` | src/terminal_text.c:165-193 | The validator accepts exactly the concatenations of encoded scalar values. |
| `TerminalText.SanitizeUtf8` | src/terminal_text.c:195-253 | The loop leaves in the buffer the code points that fit, terminated, and nothing behind the terminator is touched. |
| `TerminalText.OutputIsSafe` | src/terminal_text.c:99-124 | Every output is the encoding of safe scalars: no NUL, ESC, DEL, 0xFF or other control but CR, LF and TAB. |
| `TerminalText.UnsafeExactly` | src/terminal_text.c:99-124 | The scalars replaced are exactly the controls but TAB, LF and CR, the line and paragraph separators and the bidirectional overrides and isolates. |
| `TerminalText.OrdinaryTextIsKept` | src/terminal_text.c:195-253 | Text of any other characters, of any script, that fits is unchanged. |
| `TerminalText.SafeTextIsKept` | src/terminal_text.c:195-253 | Safe text that fits is unchanged. |
| `TerminalText.SanitizingIsIdempotent` | src/terminal_text.c:195-253 | Sanitising again with no less room changes nothing. |
| `TerminalText.SmallerBufferIsLongestPrefix` | src/terminal_text.c:195-253 | A smaller buffer gets the longest whole-code-point prefix of the larger result. |
| `PlayerRecord.CheckName` | src/player_store.c:102-131 | The loop accepts exactly the valid names. |
| `PlayerRecord.StripLineEnding` | src/player_store.c:365-380 | Removes exactly the trailing CR and LF bytes, in place. |
| `PlayerRecord.ParseInvertsPrint` | src/player_store.c:382-470 | A printed record loads back, under exactly the names that differ from its own in case only. |
| `PlayerRecord.PrintFits` | src/player_store.c:584-605 | A printed record fits its 512-byte buffer. |
| `PlayerRecord.ParsedNameMatches` | src/player_store.c:382-470 | Whatever a file holds, a loaded record's name is valid and matches the name asked for. |
| `PlayerRecord.TornRecordLoads` | src/player_store.c:382-470 | A record cut inside its last line loads with a shortened verifier. |
| `Publication.StepKeepsInvariant` | src/player_store.c:625-799 | Every system call of any process, succeeding or failing, keeps published files complete and immutable and drafts private. |
| `Publication.PathsNameCompleteRecords` | src/player_store.c:282-322 | In every interleaving a path is absent or names a complete record whose name matches it up to case, loads exactly as written, and never changes again as a file. |
| `Publication.AtMostOneCreationSucceeds` | src/player_store.c:625-713 | No two creations of names equal up to case both return success. |
| `Publication.CreatedAccountIsPermanent` | src/player_store.c:801-902 | When creations under its path bring current verifiers, a creation that returned success owns that path for good, whatever anyone does later. |
| `Publication.StaleVerifierCanReplaceAccount` | src/player_store.c:715-902 | For every stale verifier there is a run in which a successful creation's record is replaced by one its password does not match. |
| `Publication.UpgradesKeepThePassword` | src/player_store.c:830-902 | An existing account goes on verifying its password through any number of concurrent upgrades and failed creations. |
| `Publication.NoTemporaryStays` | src/player_store.c:625-799 | Whatever else fails and however the calls interleave: unless the removal itself fails, no temporary file outlives the call that made it. |
| `Logins.LoginAnswersFromDisk` | src/player_store.c:830-902 | In every interleaving, with any call failing, a login answers what the disk held at its first call: 1 exactly if its path named a file whose verifier matches, 0 exactly if one whose verifier does not, -1 only for an invalid name, an absent account or a failure of that call. |
| `Logins.OnlyThePasswordLogsIn` | src/player_store.c:830-902 | An account there from the start answers for its own password alone, through any upgrades and creations: never 0 to it, never 1 to another, -1 only if the login's first call fails. |
| `Logins.CreationAnswersFromDisk` | src/player_store.c:625-713 | A creation returns 0 only if it linked its own file where nothing was, 1 only if the path was taken when it came to link, -1 only if one of its calls failed or its arguments are not acceptable. |
| `SshEditor.Connection.CompleteLine` | src/ssh_transport.c:705-746 | Delivers the line and clears the buffer, unless the line budget is spent. |
| `SshEditor.Connection.EraseLast` | src/ssh_transport.c:748-834 | The backward scan cuts the line where its last character begins. |
| `SshEditor.Connection.HandleByte` | src/ssh_transport.c:748-834 | One byte: CR LF pairing, key sequences, backspace, append or refusal of an overlong line. |
| `SshEditor.Connection.Receive` | src/ssh_transport.c:836-884 | A chunk at clock zero or over the byte budget closes the connection unread; otherwise bytes are handled in order until it closes. |
| `SshEditor.EraseRemovesOne` | src/ssh_transport.c:748-834 | Backspace removes exactly the last code point. |
| `SshEditor.EditingIsByCodePoint` | src/ssh_transport.c:705-834 | For every sequence of whole characters, backspaces, CSI/SS3 keys, control D and CR, LF or CRLF ends, each byte at its own time: the editor closes exactly when the code-point editor with the same limits does, and delivers exactly the encodings of its lines; CRLF yields no extra line. |
| `SshEditor.TypedIsDelivered` | src/ssh_transport.c:836-884 | From a new connection, in any chunks at any times, with any budgets and hang-ups: the delivered lines are the first of the lines meant, and all of them while the connection is open. |
| `SshEditor.LineStaysBounded` | src/ssh_transport.c:748-834 | Whatever the bytes, neither the buffer nor a delivered line exceeds 512 bytes. |
| `AuditLog.Sanitize` | src/audit_log.c:108-135 | The loop fills the buffer with the printable field, bars replaced, cut to its size and terminated. |
| `AuditLog.RecordIsOneLine` | src/audit_log.c:272-353 | Whatever the fields contain, a record is exactly one newline-terminated line that fits its buffer. |
| `AuditLog.PlainFieldIsKept` | src/audit_log.c:108-135 | A plain field that fits is logged as it is, a longer one is cut, a missing one is a dash. |
| `AuditLog.OtherBytesAreMarked` | src/audit_log.c:108-135 | Every other byte, and the bar, becomes an underscore in its place. |
| `AuditLog.RecordTellsFields` | src/audit_log.c:272-353 | A record gives timestamp, event, peer and detail, each under its own label. |
| `AuditLog.Log.RotateIfNeeded` | src/audit_log.c:147-217 | The descending renames shift every archive up by one and start a new active file. |
| `AuditLog.Log.Append` | src/audit_log.c:272-353 | An event rotates if due and appends its record to the active file. |
| `AuditLog.RotationKeepsSuffix` | src/audit_log.c:147-217 | Rotation loses exactly the oldest archive. |
| `AuditLog.DiskIsSuffixOfHistory` | src/audit_log.c:147-217 | After any events the archives .4 to .1 followed by the active file are a suffix of everything ever logged, ending with the latest record in full. |
| `AuditLog.TwentyMegabytesAreKept` | src/audit_log.c:147-217 | A new log never has a file over 5 MiB and one record, and forgets nothing before it holds at least the latest 20 MiB. |

## Left out

- OpenSSL, libssh and libsodium: hashing is an abstract verify and needs-upgrade relation, transports are byte sources and sinks.
- Sockets, poll, signals, TLS handshakes and write-retry loops; a failed transport write.
- Directory permission, symbolic-link and ownership checks of the store, the log and the host key.
- Threads: a critical section is one step; out-of-order clock readings are excluded where a statement asks for non-decreasing time.
- Null arguments, failed allocations and secure wiping, except that a wiped field becomes empty.
- Wrap-around of 64-bit times: times are natural numbers, and the policy object asks that a clock reading fit its sentinel.
- Wording of banners, prompts and notices, and the harness commands in `app/`.
- MSSP field formatting, the weak-password list, terminal-type inference, the client-name, ANSI, OSC 8 and screen-reader fields, and the list of variables in a NEW-ENVIRON request: table-like code.
- The MNES flag, which the code does not keep coherent; no statement is made about it.
- Application output during a callback is text and a close request; GMCP sends and links from the application are not modelled.
- `telnet_session_poll`, the ASCII-only `terminal_text_sanitize`, `write_terminal_text` of the SSH transport, and the client's display and option handlers.
- Telnet session handlers are value functions: the `TelnetSession` object updates its parser and payload buffer in place and replaces the rest of the session as one value, so update in place inside `src/telnet_protocol.c` handlers is not captured beyond that.
- The windows inside peer records are sequences in `SecurityPolicy`; `EventWindow` has the same operation in place on an array.
- Publication is modelled on values, one system call a step; temporary names are assumed never to be reused.
- ChunksAreInvisible: says nothing of inputs the byte budget refuses, which the code closes on at a different chunk.
- AtMostThreeGuessesPerLock: counts failures from the account's last success or eviction, because both make the code forget them.
- UpgradesKeepThePassword: asks that a verifier accepts one password only.
- TypedLinesArrive: speaks of lines of bytes from 32 up and backspaces; `LineEndingsAgree` covers other controls.
- OnlyThePasswordLogsIn: asks that a verifier accepts one password only.
- NoTemporaryStays: asks that removals succeed, because the code ignores one that fails.
- AtMostThreeGuessesPerSecond: counts from the peer's last success or eviction, because both make the code forget its failures.
- LinesAreRationed: asks for clock readings that are not zero and do not go back.
- BytesAreRationed: the same.
- SshBytesAreRationed: the same.
- DiscoveryHappens: leaves the MSSP snapshot to `NegotiationIsFollowedUp`, because the provider may have none.
- ApplicationTextIsWritten: takes all that the application writes in one call, prompts included, as one text.
- PeerLimitsHold: counts from when the peer's record was last made, because an evicted record forgets its windows.
- LimitsAreForgottenOnlyUnderPressure: speaks of accounts only for runs without empty names, because those are stored under "unknown".
- DiskIsSuffixOfHistory: assumes that renames and writes succeed.
