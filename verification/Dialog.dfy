/**
 * What a Telnet session does with the events its scanner recovers: line editing, the login
 * dialogue, option handling, capability discovery and GMCP. The wording of texts is left
 * out: a text is the `Notice` it stands for.
 *
 * Everything outside the session (account store, abuse policy, password hashing, MSSP
 * provider, application) is an arbitrary tape of answers, read in the order of the calls.
 */
module Dialog {
  import opened Bytes
  import opened QMethod
  import opened RateWindow
  import NewEnviron
  import PlayerRecord
  import TerminalText

  const LINES_PER_WINDOW := 30
  const LINES_SPAN := 10_000
  const COMMANDS_PER_WINDOW := 25
  const COMMANDS_SPAN := 5_000
  const PASSWORD_MIN := 8
  const PASSWORD_MAX := 128
  const LINE_MAX := 512
  const VIOLATION_LIMIT := 8
  const TTYPE_LIMIT := 4
  const TTYPE_MAX := 40
  const PACKAGE_MAX := 96
  const JSON_MAX := 3968
  const QUEUE_MAX := 4

  const SPACE: byte := 32

  // ----- State -----

  datatype Login = AtName | AtPassword | AtNewPassword | AtConfirm | InGame

  predicate Secret(l: Login) {
    l.AtPassword? || l.AtNewPassword? || l.AtConfirm?
  }

  datatype Notice =
    | Banner | NamePrompt | PasswordPrompt | CreatePrompt | ConfirmPrompt | GamePrompt
    | NameRule | BadRecord | NewPlayer | InsecureTransport | Locked | WrongPassword | LockedOut
    | TooShort | TooCommon | PrepareError | NewLine | Mismatch | CreationLimited | CreationFailed
    | Welcome | Pong | HelpText | Goodbye | UnknownCommand | PasswordTooLong | LineTooLong
    | LineFlood | CommandFlood | ByteFlood | ProtocolError | ServerIsHere

  /** What the session writes. */
  datatype Output =
    | Say(notice: Notice)
    | AppText(bytes: seq<byte>)
    | Mark(command: byte)
    | Negotiation(command: byte, option: byte)
    | Report(option: byte, payload: seq<byte>)

  datatype Message = Message(package: seq<byte>, json: seq<byte>)

  /** A call to the account store, the abuse policy, the host or the application. */
  datatype Question =
    | Exists(name: seq<byte>)
    | AllowAuth(name: seq<byte>)
    | Verify(name: seq<byte>, password: seq<byte>)
    | NoteFailure(name: seq<byte>)
    | NoteSuccess(name: seq<byte>)
    | Suitable(name: seq<byte>, password: seq<byte>)
    | Prepare(password: seq<byte>)
    | Matches(token: seq<byte>, password: seq<byte>)
    | AllowCreation
    | CreateAccount(name: seq<byte>, token: seq<byte>)
    | Open(name: seq<byte>)
    | Line(text: seq<byte>)
    | Gmcp(message: Message)
    | Capabilities
    | Snapshot

  /** What a call returns: a code, and where it makes sense some bytes and a wish to close. */
  datatype Answer = Answer(code: int, bytes: seq<byte>, close: bool)

  datatype Exchange = Exchange(question: Question, answer: Answer)

  datatype Input = Input(line: seq<byte>, overflow: bool, pendingCr: bool)

  datatype Auth = Auth(login: Login, player: seq<byte>, token: Option<seq<byte>>)

  datatype Nego = Nego(options: Options, echo: bool)

  /** Discovery bookkeeping. */
  datatype Probe = Probe(ttype: Ttype, charset: Charset, environ: Environ, mssp: Mssp)

  datatype Ttype = Ttype(sent: nat, waiting: bool, last: seq<byte>)

  datatype Charset = Charset(sent: bool, utf8: bool)

  datatype Environ = Environ(sent: bool, mnes: bool)

  datatype Mssp = Mssp(sent: bool)

  /** Capabilities that are read off the option table. */
  datatype Flags = Flags(
    localBinary: bool, remoteBinary: bool, localSga: bool, remoteSga: bool, localEor: bool,
    newEnviron: bool, mssp: bool, gmcp: bool)

  datatype Terminal = Terminal(flags: Flags, mnes: bool, utf8: bool, mtts: nat, width: nat, height: nat)

  /** GMCP towards the application: what waits for it, and whether it is there. */
  datatype Mail = Mail(queue: seq<Message>, attached: bool)

  datatype Session = Session(
    input: Input, auth: Auth, nego: Nego, probe: Probe, term: Terminal, mail: Mail,
    warned: bool, violations: nat, closed: bool, lineWindow: Window, commandWindow: Window,
    trace: seq<Exchange>, out: seq<Output>, completed: seq<seq<byte>>)

  /** Which hooks the application and the host provide, and the tape of answers. */
  datatype Config = Config(secure: bool, mssp: bool, open: bool, onLine: bool, onGmcp: bool, onCaps: bool, tape: nat -> Answer)

  // ----- Output -----

  /** Nothing is written once closing has been requested. */
  function Write(d: Session, o: Output): (r: Session)
    ensures r == d.(out := r.out)
  {
    if d.closed then d else d.(out := d.out + [o])
  }

  function Tell(d: Session, n: Notice): (r: Session)
    ensures r == d.(out := r.out)
  {
    Write(d, Say(n))
  }

  /** A prompt is followed by EOR when agreed, else by GA unless suppressed. */
  function Prompt(d: Session, n: Notice): (r: Session)
    ensures r == d.(out := r.out)
  {
    var d := Tell(d, n);
    if d.term.flags.localEor then Write(d, Mark(EOR)) else if !d.term.flags.localSga then Write(d, Mark(GA)) else d
  }

  function WriteCommands(d: Session, commands: seq<Command>): (r: Session)
    ensures r == d.(out := r.out)
    decreases commands
  {
    if commands == [] then d
    else WriteCommands(Write(d, Negotiation(commands[0].code, commands[0].option)), commands[1..])
  }

  function Close(d: Session, n: Option<Notice>): (r: Session)
    ensures r == d.(out := r.out, closed := true)
  {
    if d.closed then d else (if n.Some? then Tell(d, n.value) else d).(closed := true)
  }

  function Violation(d: Session): (r: Session)
    ensures r == d.(out := r.out, closed := r.closed, violations := d.violations + 1)
    ensures d.closed ==> r.closed
  {
    var d := d.(violations := d.violations + 1);
    if d.violations >= VIOLATION_LIMIT then Close(d, Some(ProtocolError)) else d
  }

  // ----- The world outside -----

  /** A call and its answer, which is the next on the tape. */
  function Ask(cfg: Config, d: Session, q: Question): (r: Session)
    ensures r == d.(trace := r.trace)
  {
    d.(trace := d.trace + [Exchange(q, cfg.tape(|d.trace|))])
  }

  /** The answer to the latest call. */
  function Latest(d: Session): Answer
    requires d.trace != []
  {
    d.trace[|d.trace| - 1].answer
  }

  /** During a call the application may write and may request closing. */
  function React(cfg: Config, d: Session, q: Question): (r: Session)
    ensures r == d.(out := r.out, closed := r.closed, trace := Ask(cfg, d, q).trace)
    ensures d.closed ==> r.closed
  {
    var d := Ask(cfg, d, q);
    var a := Latest(d);
    var d := if a.bytes == [] then d else Write(d, AppText(a.bytes));
    if a.close then Close(d, None) else d
  }

  // ----- Options -----

  function AskOption(d: Session, direction: Direction, option: byte, enable: bool): (r: Session)
    requires d.nego.options.Valid()
    ensures r == d.(out := r.out, nego := r.nego) && r.nego.options.Valid() && r.nego.echo == d.nego.echo
    ensures r.nego.options == QMethod.RequestOption(d.nego.options, direction, option, enable).options
  {
    var step := QMethod.RequestOption(d.nego.options, direction, option, enable);
    WriteCommands(d.(nego := d.nego.(options := step.options)), step.sent)
  }

  /** The server echoes, so that the client stops, while a password is typed. */
  function EchoOff(d: Session): (r: Session)
    requires d.nego.options.Valid()
    ensures r == d.(out := r.out, nego := r.nego) && r.nego.options.Valid() && r.nego.echo
    ensures r.nego.options == QMethod.RequestOption(d.nego.options, Local, OPT_ECHO, true).options
  {
    AskOption(d.(nego := d.nego.(echo := true)), Local, OPT_ECHO, true)
  }

  function EchoOn(d: Session): (r: Session)
    requires d.nego.options.Valid()
    ensures r == d.(out := r.out, nego := r.nego) && r.nego.options.Valid() && !r.nego.echo
    ensures r.nego.options == QMethod.RequestOption(d.nego.options, Local, OPT_ECHO, false).options
  {
    AskOption(d.(nego := d.nego.(echo := false)), Local, OPT_ECHO, false)
  }

  /** The option table moves by at most one ECHO request, matching the new wish. */
  predicate EchoMove(before: Nego, after: Nego) {
    && before.options.Valid() && after.options.Valid()
    && (after == before || after.options == QMethod.RequestOption(before.options, Local, OPT_ECHO, after.echo).options)
  }

  predicate Accepts(cfg: Config, echo: bool, direction: Direction, option: byte) {
    if direction.Local? then
      || option == OPT_BINARY || option == OPT_SGA || option == OPT_EOR || option == OPT_CHARSET || option == OPT_GMCP
      || (option == OPT_MSSP && cfg.mssp) || (option == OPT_ECHO && echo)
    else
      || option == OPT_BINARY || option == OPT_SGA || option == OPT_TERMINAL_TYPE || option == OPT_NAWS
      || option == OPT_NEW_ENVIRON || option == OPT_CHARSET
  }

  // ----- Capability discovery -----

  predicate Bit(flags: nat, value: nat)
    requires value > 0
  {
    flags / value % 2 == 1
  }

  /** utf8_enabled as its definition has it. */
  predicate Utf8(c: Charset, mtts: nat) {
    c.utf8 || Bit(mtts, 4)
  }

  function RefreshUtf8(d: Session): (r: Session)
    ensures r == d.(term := d.term.(utf8 := Utf8(d.probe.charset, d.term.mtts)))
  {
    d.(term := d.term.(utf8 := Utf8(d.probe.charset, d.term.mtts)))
  }

  function RequestTtype(d: Session): (r: Session)
    requires d.nego.options.Valid()
    ensures r == d.(out := r.out, probe := d.probe.(ttype := r.probe.ttype))
  {
    var t := d.probe.ttype;
    if t.waiting || t.sent >= TTYPE_LIMIT || !d.nego.options.Enabled(Remote, OPT_TERMINAL_TYPE) then d
    else Write(d.(probe := d.probe.(ttype := t.(sent := t.sent + 1, waiting := true))), Report(OPT_TERMINAL_TYPE, [1]))
  }

  /** CHARSET REQUEST ";UTF-8" */
  const CHARSET_OFFER: seq<byte> := [1, 59, 85, 84, 70, 45, 56]

  function RequestCharset(d: Session): (r: Session)
    requires d.nego.options.Valid()
    ensures r == d.(out := r.out, probe := d.probe.(charset := r.probe.charset)) && r.probe.charset.utf8 == d.probe.charset.utf8
  {
    var c := d.probe.charset;
    if c.sent || !d.term.flags.localBinary || !d.term.flags.remoteBinary || !d.nego.options.Enabled(Local, OPT_CHARSET) then d
    else Write(d.(probe := d.probe.(charset := c.(sent := true))), Report(OPT_CHARSET, CHARSET_OFFER))
  }

  /** The list of variables asked for is left out; only the SEND command is shown. */
  function RequestEnviron(d: Session): (r: Session)
    requires d.nego.options.Valid()
    ensures r == d.(out := r.out, probe := d.probe.(environ := r.probe.environ))
  {
    var e := d.probe.environ;
    if e.sent || !d.nego.options.Enabled(Remote, OPT_NEW_ENVIRON) then d
    else Write(d.(probe := d.probe.(environ := e.(sent := true))), Report(OPT_NEW_ENVIRON, [1]))
  }

  function NotifyCaps(cfg: Config, d: Session): (r: Session)
    ensures r == d.(out := r.out, closed := r.closed, trace := r.trace)
    ensures d.closed ==> r.closed
  {
    if d.mail.attached && cfg.onCaps then React(cfg, d, Capabilities) else d
  }

  function ReadFlags(o: Options): Flags
    requires o.Valid()
  {
    Flags(o.Enabled(Local, OPT_BINARY), o.Enabled(Remote, OPT_BINARY), o.Enabled(Local, OPT_SGA), o.Enabled(Remote, OPT_SGA),
          o.Enabled(Local, OPT_EOR), o.Enabled(Remote, OPT_NEW_ENVIRON), o.Enabled(Local, OPT_MSSP), o.Enabled(Local, OPT_GMCP))
  }

  function UpdateMetadata(cfg: Config, d: Session): (r: Session)
    requires d.nego.options.Valid()
    ensures r == d.(out := r.out, probe := r.probe, term := r.term, closed := r.closed, trace := r.trace)
    ensures d.closed ==> r.closed
  {
    var d := d.(term := d.term.(flags := ReadFlags(d.nego.options), mnes := Bit(d.term.mtts, 512) || d.probe.environ.mnes));
    NotifyCaps(cfg, RequestEnviron(RequestCharset(RequestTtype(RefreshUtf8(d)))))
  }

  /** The MSSP snapshot; the provider may fail to produce one that can be encoded. */
  function SendMssp(cfg: Config, d: Session): (r: Session)
    requires d.nego.options.Valid()
    ensures r == d.(out := r.out, probe := d.probe.(mssp := r.probe.mssp), trace := r.trace)
  {
    if d.probe.mssp.sent || !cfg.mssp || !d.nego.options.Enabled(Local, OPT_MSSP) then d
    else
      var d := Ask(cfg, d, Snapshot);
      var a := Latest(d);
      if a.code != 0 then d
      else Write(d.(probe := d.probe.(mssp := Mssp(true))), Report(OPT_MSSP, a.bytes))
  }

  predicate TurnedOff(before: Options, after: Options, direction: Direction, option: byte)
    requires before.Valid() && after.Valid()
  {
    before.Enabled(direction, option) && !after.Enabled(direction, option)
  }

  function ForgetCharset(c: Charset, off: bool, unused: bool): Charset {
    Charset(c.sent && !off, c.utf8 && !unused)
  }

  /** Bookkeeping of an option is forgotten when it goes from on to off. */
  function Forget(p: Probe, before: Options, after: Options): Probe
    requires before.Valid() && after.Valid()
  {
    Probe(
      if TurnedOff(before, after, Remote, OPT_TERMINAL_TYPE) then Ttype(0, false, []) else p.ttype,
      ForgetCharset(p.charset, TurnedOff(before, after, Local, OPT_CHARSET),
                    !after.Enabled(Local, OPT_CHARSET) && !after.Enabled(Remote, OPT_CHARSET)),
      if TurnedOff(before, after, Remote, OPT_NEW_ENVIRON) then Environ(false, false) else p.environ,
      if TurnedOff(before, after, Local, OPT_MSSP) then Mssp(false) else p.mssp)
  }

  function ReceiveNegotiation(cfg: Config, d: Session, command: byte, option: byte): (r: Session)
    requires d.nego.options.Valid()
    ensures r == d.(out := r.out, probe := r.probe, term := r.term, closed := r.closed, trace := r.trace, nego := r.nego)
    ensures r.nego.options.Valid() && r.nego.echo == d.nego.echo
    ensures d.closed ==> r.closed
  {
    var before := d.nego.options;
    var accept := Accepts(cfg, d.nego.echo, Concerns(command), option);
    var step := QMethod.ReceiveOption(before, command, option, accept);
    var after := step.options;
    var d := WriteCommands(d.(nego := d.nego.(options := after)), step.sent);
    var d := UpdateMetadata(cfg, d.(probe := Forget(d.probe, before, after)));
    if !before.Enabled(Local, OPT_MSSP) && d.term.flags.mssp then SendMssp(cfg, d) else d
  }

  // ----- Subnegotiations -----

  predicate Printable(s: seq<byte>) {
    forall i :: 0 <= i < |s| ==> 32 <= s[i] <= 126
  }

  /** parse_decimal_u32 */
  function Decimal(s: seq<byte>): Option<nat> {
    if s == [] then None else DecimalFrom(0, s)
  }

  function DecimalFrom(value: nat, s: seq<byte>): Option<nat>
    decreases s
  {
    if s == [] then Some(value)
    else if s[0] < 48 || s[0] > 57 || value * 10 + (s[0] - 48) > 0xFFFF_FFFF then None
    else DecimalFrom(value * 10 + (s[0] - 48), s[1..])
  }

  /** "MTTS ", "MTTS", "UTF-8", "ANSI", "CHARSET" */
  const MTTS_TAG: seq<byte> := [77, 84, 84, 83, 32]
  const MTTS_NAME: seq<byte> := [77, 84, 84, 83]
  const UTF8_NAME: seq<byte> := [85, 84, 70, 45, 56]
  const ANSI_NAME: seq<byte> := [65, 78, 83, 73]
  const CHARSET_NAME: seq<byte> := [67, 72, 65, 82, 83, 69, 84]

  function ApplyMtts(d: Session, flags: nat): (r: Session)
    ensures r == d.(term := d.term.(mtts := flags, mnes := Bit(flags, 512), utf8 := Utf8(d.probe.charset, flags)))
  {
    RefreshUtf8(d.(term := d.term.(mtts := flags, mnes := Bit(flags, 512))))
  }

  function Clamp(value: nat, low: nat, high: nat, fallback: nat): nat {
    if value == 0 then fallback else if value < low then low else if value > high then high else value
  }

  function HandleNaws(d: Session, payload: seq<byte>): (r: Session)
    requires d.nego.options.Valid()
    ensures r == d.(out := r.out, closed := r.closed, violations := r.violations, term := r.term)
    ensures r.term == d.term.(width := r.term.width, height := r.term.height)
    ensures d.closed ==> r.closed
  {
    if !d.nego.options.Enabled(Remote, OPT_NAWS) then d
    else if |payload| != 4 then Violation(d)
    else d.(term := d.term.(width := Clamp((payload[0] as int) * 256 + payload[1], 20, 500, 80),
                            height := Clamp((payload[2] as int) * 256 + payload[3], 5, 200, 24)))
  }

  function ReportedMtts(reported: seq<byte>): Option<nat> {
    if |reported| > 5 && SameIgnoringCase(reported[..5], MTTS_TAG) then Decimal(reported[5..]) else None
  }

  /** A well-formed terminal type; discovery goes on unless it is a first "ANSI" or a repetition. */
  function NoteType(d: Session, reported: seq<byte>): (r: Session)
    requires d.nego.options.Valid()
    ensures r == d.(out := r.out, probe := r.probe, term := r.term)
  {
    var t := d.probe.ttype;
    var repeated := t.last != [] && SameIgnoringCase(t.last, reported);
    var flags := ReportedMtts(reported);
    var d := if flags.Some? then ApplyMtts(d, flags.value) else d;
    var d := d.(probe := d.probe.(ttype := t.(last := reported)));
    if (t.sent == 1 && SameIgnoringCase(reported, ANSI_NAME)) || repeated then d else RequestTtype(d)
  }

  function HandleTtype(d: Session, payload: seq<byte>): (r: Session)
    requires d.nego.options.Valid()
    ensures r == d.(out := r.out, closed := r.closed, violations := r.violations, probe := r.probe, term := r.term)
    ensures d.closed ==> r.closed
  {
    if !d.nego.options.Enabled(Remote, OPT_TERMINAL_TYPE) then d
    else
      var d := d.(probe := d.probe.(ttype := d.probe.ttype.(waiting := false)));
      if |payload| < 2 || payload[0] != 0 || |payload| - 1 > TTYPE_MAX || !Printable(payload[1..]) then Violation(d)
      else NoteType(d, payload[1..])
  }

  /** The list of a CHARSET REQUEST names UTF-8 before any unprintable byte. */
  predicate ListsUtf8(s: seq<byte>, separator: byte, word: seq<byte>)
    decreases s
  {
    if s == [] then SameIgnoringCase(word, UTF8_NAME)
    else if s[0] == separator then SameIgnoringCase(word, UTF8_NAME) || ListsUtf8(s[1..], separator, [])
    else 32 <= s[0] <= 126 && ListsUtf8(s[1..], separator, word + [s[0]])
  }

  predicate OffersUtf8(payload: seq<byte>) {
    |payload| >= 3 && payload[0] == 1 && payload[1] != IAC && payload[1] >= 32 && ListsUtf8(payload[2..], payload[1], [])
  }

  function SetCharset(d: Session, on: bool): (r: Session)
    ensures r == d.(probe := d.probe.(charset := d.probe.charset.(utf8 := on)), term := d.term.(utf8 := r.term.utf8))
    ensures r.term.utf8 == Utf8(r.probe.charset, r.term.mtts)
  {
    RefreshUtf8(d.(probe := d.probe.(charset := d.probe.charset.(utf8 := on))))
  }

  function HandleCharset(d: Session, payload: seq<byte>): (r: Session)
    requires d.nego.options.Valid()
    ensures r == d.(out := r.out, closed := r.closed, violations := r.violations, probe := r.probe, term := r.term)
    ensures d.closed ==> r.closed
  {
    var o := d.nego.options;
    if !o.Enabled(Remote, OPT_CHARSET) && !o.Enabled(Local, OPT_CHARSET) then d
    else if payload == [] then Violation(d)
    else if payload[0] == 1 then
      if !o.Enabled(Remote, OPT_CHARSET) then d
      else if d.term.flags.localBinary && d.term.flags.remoteBinary && OffersUtf8(payload)
      then SetCharset(Write(d, Report(OPT_CHARSET, [2] + UTF8_NAME)), true)
      else Write(d, Report(OPT_CHARSET, [3]))
    else if !o.Enabled(Local, OPT_CHARSET) || !d.probe.charset.sent then d
    else if payload[0] == 2 && |payload| == 6 && SameIgnoringCase(payload[1..], UTF8_NAME) then SetCharset(d, true)
    else if payload[0] == 3 then SetCharset(d, false)
    else Violation(d)
  }

  /** "CLIENT_NAME", "CLIENT_VERSION", "TERMINAL_TYPE" */
  const PLAIN_NAMES: seq<seq<byte>> := [
    [67, 76, 73, 69, 78, 84, 95, 78, 65, 77, 69],
    [67, 76, 73, 69, 78, 84, 95, 86, 69, 82, 83, 73, 79, 78],
    [84, 69, 82, 77, 73, 78, 65, 76, 95, 84, 89, 80, 69]]

  predicate IsPlainName(name: seq<byte>) {
    exists i :: 0 <= i < |PLAIN_NAMES| && SameIgnoringCase(name, PLAIN_NAMES[i])
  }

  /** The part of apply_new_environ_value that the rest of the session depends on. */
  function ApplyVariable(d: Session, v: NewEnviron.Pair): (r: Session)
    ensures r == d.(probe := r.probe, term := r.term)
  {
    var isCharset := SameIgnoringCase(v.name, CHARSET_NAME);
    var isMtts := SameIgnoringCase(v.name, MTTS_NAME);
    var d := if v.token == NewEnviron.VAR && (IsPlainName(v.name) || isCharset || isMtts)
             then d.(probe := d.probe.(environ := d.probe.environ.(mnes := true))) else d;
    if IsPlainName(v.name) then d
    else if isCharset then if SameIgnoringCase(v.value, UTF8_NAME) then SetCharset(d, true) else d
    else if isMtts then if Decimal(v.value).Some? then ApplyMtts(d, Decimal(v.value).value) else d
    else d
  }

  function ApplyVariables(d: Session, vs: seq<NewEnviron.Pair>): (r: Session)
    ensures r == d.(probe := r.probe, term := r.term)
    decreases vs
  {
    if vs == [] then d else ApplyVariables(ApplyVariable(d, vs[0]), vs[1..])
  }

  function HandleEnviron(cfg: Config, d: Session, payload: seq<byte>): (r: Session)
    requires d.nego.options.Valid()
    ensures r == d.(out := r.out, probe := r.probe, term := r.term, closed := r.closed, trace := r.trace)
    ensures d.closed ==> r.closed
  {
    if !d.nego.options.Enabled(Remote, OPT_NEW_ENVIRON) || payload == [] then d
    else if payload[0] != NewEnviron.IS && payload[0] != NewEnviron.INFO then d
    else
      var report := NewEnviron.Decode(payload[1..]);
      var d := ApplyVariables(d, report.pairs);
      if report.complete then UpdateMetadata(cfg, d) else d
  }

  // ----- GMCP -----

  predicate PackageByte(b: byte) {
    65 <= b <= 90 || 97 <= b <= 122 || 48 <= b <= 57 || b == 46 || b == 95 || b == 45
  }

  predicate PackageValid(name: seq<byte>) {
    0 < |name| <= PACKAGE_MAX && forall i :: 0 <= i < |name| ==> PackageByte(name[i])
  }

  /** "Core." followed by Ping, Hello, Supports.Set, Supports.Add and Supports.Remove */
  const CORE_PING: seq<byte> := [67, 111, 114, 101, 46, 80, 105, 110, 103]
  const CORE_HELLO: seq<byte> := [67, 111, 114, 101, 46, 72, 101, 108, 108, 111]
  const CORE_SUPPORTS: seq<byte> := [67, 111, 114, 101, 46, 83, 117, 112, 112, 111, 114, 116, 115, 46]

  predicate IsHandshake(package: seq<byte>) {
    || SameIgnoringCase(package, CORE_HELLO)
    || SameIgnoringCase(package, CORE_SUPPORTS + [83, 101, 116])
    || SameIgnoringCase(package, CORE_SUPPORTS + [65, 100, 100])
    || SameIgnoringCase(package, CORE_SUPPORTS + [82, 101, 109, 111, 118, 101])
  }

  /** Length of the text before the first space. */
  function WordLength(s: seq<byte>): (n: nat)
    ensures n <= |s| && (n < |s| ==> s[n] == SPACE)
  {
    if s == [] || s[0] == SPACE then 0 else 1 + WordLength(s[1..])
  }

  /** The message of a payload; a name is read as a C string, a body must be bounded UTF-8. */
  function ParseMessage(payload: seq<byte>): Option<Message> {
    var n := WordLength(payload);
    if n > PACKAGE_MAX || !PackageValid(CString(payload[..n])) then None
    else
      var body := if n < |payload| then payload[n + 1..] else [];
      if |body| > JSON_MAX || !TerminalText.ValidUtf8(body) then None else Some(Message(CString(payload[..n]), body))
  }

  function HandAll(cfg: Config, d: Session, ms: seq<Message>): (r: Session)
    ensures r == d.(out := r.out, closed := r.closed, trace := r.trace)
    decreases ms
  {
    if ms == [] then d else HandAll(cfg, React(cfg, d, Gmcp(ms[0])), ms[1..])
  }

  /** Early Core messages wait for the application; the queue keeps the first four. */
  function Enqueue(cfg: Config, m: Mail, message: Message): Mail {
    if !cfg.onGmcp || !IsHandshake(message.package) then m
    else m.(queue := if |m.queue| >= QUEUE_MAX then m.queue else m.queue + [message])
  }

  function HandleGmcp(cfg: Config, d: Session, payload: seq<byte>): (r: Session)
    requires d.nego.options.Valid()
    ensures r == d.(out := r.out, closed := r.closed, trace := r.trace, mail := r.mail)
    ensures d.closed ==> r.closed
  {
    if !d.nego.options.Enabled(Local, OPT_GMCP) || payload == [] then d
    else
      match ParseMessage(payload)
      case None => d
      case Some(m) =>
        var d := if SameIgnoringCase(m.package, CORE_PING) && d.term.flags.gmcp then Write(d, Report(OPT_GMCP, CORE_PING)) else d;
        if d.mail.attached && cfg.onGmcp then React(cfg, d, Gmcp(m))
        else d.(mail := Enqueue(cfg, d.mail, m))
  }

  function FinishSub(cfg: Config, d: Session, option: byte, payload: seq<byte>): (r: Session)
    requires d.nego.options.Valid()
    ensures r == d.(out := r.out, closed := r.closed, violations := r.violations, probe := r.probe, term := r.term,
                    trace := r.trace, mail := r.mail)
    ensures d.closed ==> r.closed
  {
    if option == OPT_NAWS then HandleNaws(d, payload)
    else if option == OPT_TERMINAL_TYPE then HandleTtype(d, payload)
    else if option == OPT_CHARSET then HandleCharset(d, payload)
    else if option == OPT_NEW_ENVIRON then HandleEnviron(cfg, d, payload)
    else if option == OPT_GMCP then HandleGmcp(cfg, d, payload)
    else d
  }

  // ----- The login dialogue -----

  function EraseLine(d: Session): Session {
    d.(input := d.input.(line := []))
  }

  function SetAuth(d: Session, login: Login, player: seq<byte>, token: Option<seq<byte>>): Session {
    d.(auth := d.auth.(login := login, player := player, token := token))
  }

  function Warn(cfg: Config, d: Session): (r: Session)
    ensures r == d.(out := r.out, warned := r.warned)
  {
    if cfg.secure || d.warned then d else Tell(d.(warned := true), InsecureTransport)
  }

  /** The application is attached and given what waited for it, or the session ends. */
  function EnterGame(cfg: Config, d: Session): (r: Session)
    ensures r == d.(out := r.out, closed := r.closed, trace := r.trace, mail := r.mail, auth := d.auth.(login := InGame))
  {
    var d := d.(auth := d.auth.(login := InGame));
    if !cfg.open then Prompt(Tell(d, Welcome), GamePrompt)
    else
      var d := React(cfg, d, Open(d.auth.player));
      if Latest(d).code == 0 then Close(d, None)
      else
        var waiting := d.mail.queue;
        var d := d.(mail := Mail([], true));
        if cfg.onGmcp then HandAll(cfg, d, waiting) else d
  }

  function ProcessName(cfg: Config, d: Session): (r: Session)
    requires d.nego.options.Valid()
    ensures r == d.(out := r.out, trace := r.trace, auth := r.auth, nego := r.nego, warned := r.warned)
    ensures EchoMove(d.nego, r.nego)
  {
    if !PlayerRecord.NameValid(d.input.line) then Prompt(Tell(d, NameRule), NamePrompt)
    else
      var name := d.input.line;
      var d := Ask(cfg, d, Exists(name));
      var known := Latest(d).code;
      if known < 0 then Prompt(Tell(SetAuth(d, AtName, [], d.auth.token), BadRecord), NamePrompt)
      else if known == 1 then Prompt(Warn(cfg, EchoOff(SetAuth(d, AtPassword, name, d.auth.token))), PasswordPrompt)
      else Prompt(Tell(Warn(cfg, EchoOff(SetAuth(d, AtNewPassword, name, d.auth.token))), NewPlayer), CreatePrompt)
  }

  function ProcessPassword(cfg: Config, d: Session): (r: Session)
    requires d.nego.options.Valid()
    ensures r == d.(out := r.out, closed := r.closed, trace := r.trace, auth := r.auth, nego := r.nego, mail := r.mail, input := r.input)
    ensures r.input == d.input.(line := [])
    ensures EchoMove(d.nego, r.nego)
  {
    var name, password := d.auth.player, d.input.line;
    var d := Ask(cfg, EraseLine(d), AllowAuth(name));
    if Latest(d).code == 0 then Prompt(Tell(d, Locked), PasswordPrompt)
    else
      var d := Ask(cfg, d, Verify(name, password));
      if Latest(d).code == 1 then EnterGame(cfg, EchoOn(Ask(cfg, d, NoteSuccess(name))))
      else
        var d := Ask(cfg, Ask(cfg, d, NoteFailure(name)), AllowAuth(name));
        if Latest(d).code == 0 then Close(d, Some(LockedOut)) else Prompt(Tell(d, WrongPassword), PasswordPrompt)
  }

  /** Back to the name prompt: echo restored, name and token dropped. */
  function StartOver(d: Session, n: Notice): (r: Session)
    requires d.nego.options.Valid()
    ensures r == d.(out := r.out, auth := r.auth, nego := r.nego) && r.auth == d.auth.(login := AtName, player := [], token := None)
    ensures !r.nego.echo && r.nego.options == QMethod.RequestOption(d.nego.options, Local, OPT_ECHO, false).options
  {
    Prompt(Tell(SetAuth(EchoOn(d), AtName, [], None), n), NamePrompt)
  }

  function ProcessNew(cfg: Config, d: Session): (r: Session)
    requires d.nego.options.Valid()
    ensures r == d.(out := r.out, trace := r.trace, auth := r.auth, nego := r.nego, input := r.input)
    ensures r.input == d.input.(line := [])
    ensures EchoMove(d.nego, r.nego)
  {
    var name, password := d.auth.player, d.input.line;
    var d := EraseLine(d);
    if |password| < PASSWORD_MIN then Prompt(Tell(d, TooShort), CreatePrompt)
    else
      var d := Ask(cfg, d, Suitable(name, password));
      if Latest(d).code != 1 then Prompt(Tell(d, TooCommon), CreatePrompt)
      else
        var d := Ask(cfg, d, Prepare(password));
        if Latest(d).code != 0 then StartOver(d, PrepareError)
        else Prompt(Tell(SetAuth(d, AtConfirm, name, Some(Latest(d).bytes)), NewLine), ConfirmPrompt)
  }

  function TokenOf(a: Auth): seq<byte> {
    if a.token.Some? then a.token.value else []
  }

  function ProcessConfirm(cfg: Config, d: Session): (r: Session)
    requires d.nego.options.Valid()
    ensures r == d.(out := r.out, closed := r.closed, trace := r.trace, auth := r.auth, nego := r.nego, mail := r.mail, input := r.input)
    ensures r.input == d.input.(line := [])
    ensures EchoMove(d.nego, r.nego)
  {
    var name, token, password := d.auth.player, TokenOf(d.auth), d.input.line;
    var d := Ask(cfg, EraseLine(d), Matches(token, password));
    if Latest(d).code != 1 then Prompt(Tell(SetAuth(d, AtNewPassword, name, None), Mismatch), CreatePrompt)
    else
      var d := Ask(cfg, d, AllowCreation);
      if Latest(d).code == 0 then StartOver(d, CreationLimited)
      else
        var d := Ask(cfg, d, CreateAccount(name, token));
        if Latest(d).code != 0 then StartOver(d, CreationFailed)
        else EnterGame(cfg, EchoOn(Ask(cfg, d.(auth := d.auth.(token := None)), NoteSuccess(name))))
  }

  /** "PING", "HELP", "QUIT" */
  const PING_WORD: seq<byte> := [80, 73, 78, 71]
  const HELP_WORD: seq<byte> := [72, 69, 76, 80]
  const QUIT_WORD: seq<byte> := [81, 85, 73, 84]

  function ProcessCommand(cfg: Config, d: Session, now: nat): (r: Session)
    ensures r == d.(out := r.out, closed := r.closed, trace := r.trace, commandWindow := r.commandWindow)
  {
    var c := Consume(d.commandWindow, 1, COMMANDS_PER_WINDOW, COMMANDS_SPAN, now);
    var d := d.(commandWindow := c.window);
    if !c.allowed then Close(d, Some(CommandFlood))
    else if d.mail.attached && cfg.onLine then
      var d := React(cfg, d, Line(d.input.line));
      if Latest(d).code != 0 then Close(d, None) else d
    else if d.input.line == [] then Prompt(d, GamePrompt)
    else if SameIgnoringCase(d.input.line, PING_WORD) then Prompt(Tell(d, Pong), GamePrompt)
    else if SameIgnoringCase(d.input.line, HELP_WORD) then Prompt(Tell(d, HelpText), GamePrompt)
    else if SameIgnoringCase(d.input.line, QUIT_WORD) then Close(d, Some(Goodbye))
    else Prompt(Tell(d, UnknownCommand), GamePrompt)
  }

  function Dispatch(cfg: Config, d: Session, now: nat): (r: Session)
    requires d.nego.options.Valid()
    ensures r == d.(out := r.out, closed := r.closed, trace := r.trace, auth := r.auth, nego := r.nego, mail := r.mail, input := r.input,
                    warned := r.warned, commandWindow := r.commandWindow)
    ensures EchoMove(d.nego, r.nego)
  {
    match d.auth.login
    case AtName => ProcessName(cfg, d)
    case AtPassword => ProcessPassword(cfg, d)
    case AtNewPassword => ProcessNew(cfg, d)
    case AtConfirm => ProcessConfirm(cfg, d)
    case InGame => ProcessCommand(cfg, d, now)
  }

  function Overlong(d: Session): (r: Session)
    ensures r == d.(out := r.out, closed := r.closed, auth := r.auth)
  {
    if d.auth.login.AtPassword? then Prompt(Tell(d, PasswordTooLong), PasswordPrompt)
    else if Secret(d.auth.login) then
      Prompt(SetAuth(Tell(d, PasswordTooLong), AtNewPassword, d.auth.player, None), CreatePrompt)
    else if d.mail.attached then Close(d, Some(LineTooLong))
    else Prompt(Tell(d, LineTooLong), GamePrompt)
  }

  /** process_complete_line */
  function ProcessLine(cfg: Config, d: Session, now: nat): (r: Session)
    requires d.nego.options.Valid()
    ensures r == d.(out := r.out, closed := r.closed, trace := r.trace, auth := r.auth, nego := r.nego, mail := r.mail, input := r.input,
                    warned := r.warned, commandWindow := r.commandWindow, lineWindow := r.lineWindow, completed := r.completed)
    ensures r.input.line == [] && r.input.pendingCr == d.input.pendingCr && (!r.closed ==> !r.input.overflow)
    ensures EchoMove(d.nego, r.nego)
  {
    var c := Consume(d.lineWindow, 1, LINES_PER_WINDOW, LINES_SPAN, now);
    var d := d.(lineWindow := c.window);
    if !c.allowed then Close(EraseLine(d), Some(LineFlood))
    else
      var cleared := d.input.(line := [], overflow := false);
      if d.input.overflow then Overlong(d.(input := cleared))
      else Dispatch(cfg, d.(completed := d.completed + [d.input.line]), now).(input := cleared)
  }

  // ----- Data bytes and control commands -----

  function Limit(l: Login): nat {
    if Secret(l) then PASSWORD_MAX else LINE_MAX
  }

  function DropLast(i: Input): Input {
    if i.line == [] then i else i.(line := i.line[..|i.line| - 1])
  }

  /** append_line_byte. Control bytes are dropped, so a CR never reaches the line. */
  function Append(d: Session, b: byte): (r: Session)
    ensures r == d.(input := r.input)
  {
    if b == BS || b == DEL then d.(input := DropLast(d.input))
    else if b < 32 then d
    else if |d.input.line| >= Limit(d.auth.login) then d.(input := d.input.(overflow := true))
    else d.(input := d.input.(line := d.input.line + [b]))
  }

  function ReceiveByte(cfg: Config, d: Session, b: byte, now: nat): (r: Session)
    requires d.nego.options.Valid()
    ensures r == d.(out := r.out, closed := r.closed, trace := r.trace, auth := r.auth, nego := r.nego, mail := r.mail, input := r.input,
                    warned := r.warned, commandWindow := r.commandWindow, lineWindow := r.lineWindow, completed := r.completed)
    ensures EchoMove(d.nego, r.nego)
  {
    var waiting := d.input.pendingCr;
    var d := d.(input := d.input.(pendingCr := false));
    if waiting && b == LF then ProcessLine(cfg, d, now)
    else
      var d := if waiting then Append(d, CR) else d;
      if waiting && b == NUL then d
      else if b == CR then d.(input := d.input.(pendingCr := true))
      else if b == LF then ProcessLine(cfg, d, now)
      else if b == NUL then d
      else Append(d, b)
  }

  const NO_INPUT := Input([], false, false)

  function CurrentPrompt(d: Session): (r: Session)
    ensures r == d.(out := r.out)
  {
    Prompt(d, match d.auth.login
              case AtName => NamePrompt
              case AtPassword => PasswordPrompt
              case AtNewPassword => CreatePrompt
              case AtConfirm => ConfirmPrompt
              case InGame => GamePrompt)
  }

  function ReceiveControl(d: Session, command: byte): (r: Session)
    ensures r == d.(out := r.out, closed := r.closed, violations := r.violations, input := r.input, auth := r.auth)
  {
    if command == AYT then CurrentPrompt(Tell(d, ServerIsHere))
    else if command == IP || command == BRK then
      var d := d.(input := NO_INPUT);
      var d := if d.auth.login.AtConfirm? then SetAuth(d, AtNewPassword, d.auth.player, None) else d;
      CurrentPrompt(Tell(d, NewLine))
    else if command == EC then d.(input := DropLast(d.input))
    else if command == EL then d.(input := NO_INPUT)
    else if command == SE then Violation(d)
    else d
  }

  // ----- The session from its start -----

  const NOTHING_AGREED := Flags(false, false, false, false, false, false, false, false)

  function Fresh(): (r: Session)
    ensures r.nego.options == AllOff() && r.nego.options.Valid() && !r.closed
  {
    Session(
      NO_INPUT, Auth(AtName, [], None), Nego(AllOff(), false),
      Probe(Ttype(0, false, []), Charset(false, false), Environ(false, false), Mssp(false)),
      Terminal(NOTHING_AGREED, false, false, 0, 80, 24), Mail([], false),
      false, 0, false, FRESH, FRESH, [], [], [])
  }

  datatype Wanted = Wanted(direction: Direction, option: byte)

  function OfferedOptions(cfg: Config): seq<Wanted> {
    [Wanted(Local, OPT_BINARY), Wanted(Remote, OPT_BINARY), Wanted(Local, OPT_SGA), Wanted(Remote, OPT_SGA),
     Wanted(Local, OPT_EOR), Wanted(Remote, OPT_NAWS), Wanted(Remote, OPT_TERMINAL_TYPE), Wanted(Local, OPT_CHARSET),
     Wanted(Remote, OPT_CHARSET), Wanted(Remote, OPT_NEW_ENVIRON)]
    + (if cfg.mssp then [Wanted(Local, OPT_MSSP)] else []) + [Wanted(Local, OPT_GMCP)]
  }

  function RequestAll(d: Session, wanted: seq<Wanted>): (r: Session)
    requires d.nego.options.Valid()
    ensures r == d.(out := r.out, nego := r.nego) && r.nego.options.Valid() && r.nego.echo == d.nego.echo
    decreases wanted
  {
    if wanted == [] then d else RequestAll(AskOption(d, wanted[0].direction, wanted[0].option, true), wanted[1..])
  }

  /** telnet_session_start on a new session. */
  function Started(cfg: Config): (r: Session)
    ensures r.nego.options.Valid()
  {
    Prompt(Tell(RequestAll(Fresh(), OfferedOptions(cfg)), Banner), NamePrompt)
  }
}
