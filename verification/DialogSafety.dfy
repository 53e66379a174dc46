/** What holds in a session after every event, whatever the peer sends and the tape answers. */
module DialogSafety {
  import opened Bytes
  import opened QMethod
  import opened Dialog
  import Framing
  import NewEnviron
  import opened RateWindow
  import PlayerRecord

  /** One event of the scanner. */
  function Handle(cfg: Config, d: Session, e: Framing.Event, now: nat): (r: Session)
    requires d.nego.options.Valid()
    ensures r.nego.options.Valid() && (e.Quiet? ==> r == d)
  {
    match e
    case Quiet => d
    case Plain(b) => ReceiveByte(cfg, d, b, now)
    case Control(command) => ReceiveControl(d, command)
    case Negotiate(command, option) => ReceiveNegotiation(cfg, d, command, option)
    case Sub(option, payload) => FinishSub(cfg, d, option, payload)
    case Malformed => Violation(d)
    case Overflow => Close(d, Some(ProtocolError))
  }

  // ----- The invariant, part by part -----

  /** Server echo is wished exactly while a password is typed, and off means off. */
  predicate EchoOk(n: Nego, l: Login) {
    && n.options.Valid()
    && (n.echo <==> Secret(l))
    && Tidy(n.options.At(Local, OPT_ECHO))
    && (!n.echo ==> Declined(n.options.At(Local, OPT_ECHO)))
  }

  predicate AuthOk(a: Auth) {
    (a.token.Some? <==> a.login.AtConfirm?) && (!a.login.AtName? ==> PlayerRecord.NameValid(a.player))
  }

  predicate LineByte(b: byte) {
    b >= 32 && b != DEL
  }

  predicate InputOk(i: Input, l: Login) {
    |i.line| <= Limit(l) && forall k :: 0 <= k < |i.line| ==> LineByte(i.line[k])
  }

  /** The cached capability flags are those of the option table, and UTF-8 its formula. */
  predicate CapsOk(o: Options, t: Terminal, c: Charset) {
    o.Valid() && t.flags == ReadFlags(o) && t.utf8 == Utf8(c, t.mtts)
  }

  /** At most four type requests are accounted for. */
  predicate SendsOk(p: Probe) {
    p.ttype.sent <= TTYPE_LIMIT
  }

  /** The queue is bounded, and empty once the application is there. */
  predicate MailOk(m: Mail) {
    |m.queue| <= QUEUE_MAX && (m.attached ==> m.queue == [])
  }

  predicate Safe(d: Session) {
    && EchoOk(d.nego, d.auth.login) && AuthOk(d.auth) && InputOk(d.input, d.auth.login)
    && CapsOk(d.nego.options, d.term, d.probe.charset) && SendsOk(d.probe)
    && MailOk(d.mail) && (d.mail.attached ==> d.auth.login.InGame?)
  }

  // ----- Echo -----

  lemma {:induction false} EchoMoveOk(before: Nego, l: Login, after: Nego, l': Login)
    requires EchoOk(before, l) && EchoMove(before, after) && (after.echo <==> Secret(l'))
    ensures EchoOk(after, l')
  {
  }

  /** Only the ECHO side moves, so the capability flags stay right. */
  lemma {:induction false} EchoMoveKeepsCaps(before: Nego, after: Nego, t: Terminal, c: Charset)
    requires CapsOk(before.options, t, c) && EchoMove(before, after)
    ensures CapsOk(after.options, t, c)
  {
    if after != before {
      forall d: Direction, o: byte | o != OPT_ECHO ensures after.options.At(d, o) == before.options.At(d, o) {
      }
    }
  }

  // ----- Lines -----

  lemma {:induction false} AppendOk(d: Session, b: byte)
    requires InputOk(d.input, d.auth.login)
    ensures InputOk(Append(d, b).input, d.auth.login)
  {
  }

  lemma {:induction false} EnterOk(cfg: Config, d: Session)
    requires MailOk(d.mail) && !d.mail.attached
    ensures MailOk(EnterGame(cfg, d).mail)
  {
    hide React;
    hide Prompt;
    hide Tell;
    hide Close;
    hide HandAll;
  }

  predicate EchoMatches(d: Session) {
    d.nego.options.Valid() && (d.nego.echo <==> Secret(d.auth.login))
  }

  lemma {:induction false} NameKeepsAuth(cfg: Config, d: Session)
    requires AuthOk(d.auth) && d.auth.login.AtName? && EchoMatches(d)
    ensures var r := ProcessName(cfg, d); AuthOk(r.auth) && EchoMatches(r)
  {
    hide QMethod.RequestOption;
    hide Prompt;
    hide Tell;
    hide Warn;
    hide WriteCommands;
    hide PlayerRecord.NameValid;
  }

  lemma {:induction false} PasswordKeepsAuth(cfg: Config, d: Session)
    requires AuthOk(d.auth) && d.auth.login.AtPassword? && EchoMatches(d)
    ensures var r := ProcessPassword(cfg, d); AuthOk(r.auth) && EchoMatches(r)
  {
    hide QMethod.RequestOption;
    hide Prompt;
    hide Tell;
    hide Close;
    hide EnterGame;
    hide WriteCommands;
    hide PlayerRecord.NameValid;
  }

  lemma {:induction false} NewKeepsAuth(cfg: Config, d: Session)
    requires AuthOk(d.auth) && d.auth.login.AtNewPassword? && EchoMatches(d)
    ensures var r := ProcessNew(cfg, d); AuthOk(r.auth) && EchoMatches(r)
  {
    hide QMethod.RequestOption;
    hide Prompt;
    hide Tell;
    hide StartOver;
    hide PlayerRecord.NameValid;
  }

  lemma {:induction false} ConfirmKeepsAuth(cfg: Config, d: Session)
    requires AuthOk(d.auth) && d.auth.login.AtConfirm? && EchoMatches(d)
    ensures var r := ProcessConfirm(cfg, d); AuthOk(r.auth) && EchoMatches(r)
  {
    hide QMethod.RequestOption;
    hide Prompt;
    hide Tell;
    hide StartOver;
    hide EnterGame;
    hide PlayerRecord.NameValid;
  }

  lemma {:induction false} DispatchKeepsAuth(cfg: Config, d: Session, now: nat)
    requires AuthOk(d.auth) && EchoMatches(d)
    ensures var r := Dispatch(cfg, d, now); AuthOk(r.auth) && EchoMatches(r)
  {
    match d.auth.login
    case AtName => NameKeepsAuth(cfg, d);
    case AtPassword => PasswordKeepsAuth(cfg, d);
    case AtNewPassword => NewKeepsAuth(cfg, d);
    case AtConfirm => ConfirmKeepsAuth(cfg, d);
    case InGame =>
    hide ProcessName;
    hide ProcessPassword;
    hide ProcessNew;
    hide ProcessConfirm;
    hide ProcessCommand;
    hide AuthOk;
  }

  predicate MailMatches(d: Session) {
    MailOk(d.mail) && (d.mail.attached ==> d.auth.login.InGame?)
  }

  lemma {:induction false} EnteringKeepsMail(cfg: Config, d: Session)
    requires MailMatches(d) && !d.auth.login.InGame?
    ensures MailMatches(EnterGame(cfg, d))
  {
    EnterOk(cfg, d);
    hide EnterGame;
    hide MailOk;
  }

  lemma {:induction false} DispatchKeepsMail(cfg: Config, d: Session, now: nat)
    requires MailMatches(d) && d.nego.options.Valid()
    ensures MailMatches(Dispatch(cfg, d, now))
  {
    hide MailOk;
    hide Prompt;
    hide Tell;
    hide Close;
    hide EchoOn;
    hide EchoOff;
    hide StartOver;
    if d.auth.login.AtPassword? {
      PasswordKeepsMail(cfg, d);
    } else if d.auth.login.AtConfirm? {
      ConfirmKeepsMail(cfg, d);
    }
    hide ProcessName;
    hide ProcessPassword;
    hide ProcessNew;
    hide ProcessConfirm;
    hide ProcessCommand;
  }

  lemma {:induction false} PasswordKeepsMail(cfg: Config, d: Session)
    requires MailMatches(d) && d.nego.options.Valid() && d.auth.login.AtPassword?
    ensures MailMatches(ProcessPassword(cfg, d))
  {
    hide MailOk;
    hide Prompt;
    hide Tell;
    hide Close;
    hide EchoOn;
    hide EnterGame;
    var name := d.auth.player;
    var d1 := Ask(cfg, Ask(cfg, EraseLine(d), AllowAuth(name)), Verify(name, d.input.line));
    var d2 := EchoOn(Ask(cfg, d1, NoteSuccess(name)));
    EnteringKeepsMail(cfg, d2);
  }

  lemma {:induction false} ConfirmKeepsMail(cfg: Config, d: Session)
    requires MailMatches(d) && d.nego.options.Valid() && d.auth.login.AtConfirm?
    ensures MailMatches(ProcessConfirm(cfg, d))
  {
    hide MailOk;
    hide Prompt;
    hide Tell;
    hide StartOver;
    hide EchoOn;
    hide EnterGame;
    var name, token := d.auth.player, TokenOf(d.auth);
    var d1 := Ask(cfg, Ask(cfg, Ask(cfg, EraseLine(d), Matches(token, d.input.line)), AllowCreation), CreateAccount(name, token));
    var d2 := EchoOn(Ask(cfg, d1.(auth := d1.auth.(token := None)), NoteSuccess(name)));
    EnteringKeepsMail(cfg, d2);
  }

  lemma {:induction false} LineKeepsAuth(cfg: Config, d: Session, now: nat)
    requires AuthOk(d.auth) && EchoMatches(d) && MailMatches(d)
    ensures var r := ProcessLine(cfg, d, now); AuthOk(r.auth) && EchoMatches(r) && MailMatches(r)
  {
    hide AuthOk;
    hide MailOk;
    hide Dispatch;
    hide Overlong;
    hide Close;
    var w := Consume(d.lineWindow, 1, LINES_PER_WINDOW, LINES_SPAN, now).window;
    var c := d.(lineWindow := w, completed := d.completed + [d.input.line]);
    DispatchKeepsAuth(cfg, c, now);
    DispatchKeepsMail(cfg, c, now);
    OverlongKeepsAuth(d.(lineWindow := w, input := d.input.(line := [], overflow := false)));
    hide Consume;
  }

  lemma {:induction false} LineKeepsSafe(cfg: Config, d: Session, now: nat)
    requires Safe(d)
    ensures Safe(ProcessLine(cfg, d, now))
  {
    hide ProcessLine;
    hide AuthOk;
    hide MailOk;
    hide SendsOk;
    var r := ProcessLine(cfg, d, now);
    LineKeepsAuth(cfg, d, now);
    EchoMoveKeepsCaps(d.nego, r.nego, d.term, d.probe.charset);
    EchoMoveOk(d.nego, d.auth.login, r.nego, r.auth.login);
    hide CapsOk;
    hide EchoOk;
    hide EchoMove;
  }

  lemma {:induction false} OverlongKeepsAuth(d: Session)
    requires AuthOk(d.auth) && EchoMatches(d)
    ensures var r := Overlong(d); AuthOk(r.auth) && EchoMatches(r) && (d.auth.login.InGame? ==> r.auth.login.InGame?)
  {
    hide Prompt;
    hide Tell;
    hide Close;
    hide PlayerRecord.NameValid;
  }

  lemma {:induction false} ByteKeepsSafe(cfg: Config, d: Session, b: byte, now: nat)
    requires Safe(d)
    ensures Safe(ReceiveByte(cfg, d, b, now))
  {
    hide AuthOk;
    hide MailOk;
    hide CapsOk;
    hide SendsOk;
    hide EchoOk;
    hide Append;
    hide ProcessLine;
    var d1 := d.(input := d.input.(pendingCr := false));
    var d2 := if d.input.pendingCr then Append(d1, CR) else d1;
    AppendOk(d1, CR);
    assert Safe(d1) && Safe(d2);
    hide InputOk;
    LineKeepsSafe(cfg, d1, now);
    LineKeepsSafe(cfg, d2, now);
    AppendOk(d2, b);
    assert Safe(Append(d2, b));
    if b == CR {
      PendingKeepsInput(d2);
    }
  }

  lemma {:induction false} PendingKeepsInput(d: Session)
    requires InputOk(d.input, d.auth.login)
    ensures InputOk(d.input.(pendingCr := true), d.auth.login)
  {
  }

  lemma {:induction false} ControlKeepsSafe(cfg: Config, d: Session, command: byte)
    requires Safe(d)
    ensures Safe(ReceiveControl(d, command))
  {
    hide CurrentPrompt;
    hide Tell;
    hide Violation;
    hide MailOk;
    hide CapsOk;
    hide SendsOk;
    hide PlayerRecord.NameValid;
  }

  // ----- Options and reports -----

  /** Whatever the flags were before, they are right after a refresh. */
  lemma {:induction false} MetadataIsRight(cfg: Config, d: Session)
    requires d.nego.options.Valid() && SendsOk(d.probe)
    ensures var r := UpdateMetadata(cfg, d); CapsOk(d.nego.options, r.term, r.probe.charset) && SendsOk(r.probe)
  {
    hide Write;
    hide NotifyCaps;
    hide Bit;
    hide ReadFlags;
    hide Options.Enabled;
  }

  lemma {:induction false} ForgettingIsRight(p: Probe, before: Options, after: Options)
    requires before.Valid() && after.Valid() && SendsOk(p)
    ensures SendsOk(Forget(p, before, after))
  {
    hide TurnedOff;
    hide Options.Enabled;
  }

  /** A received command moves the ECHO side only as the wish allows. */
  lemma {:induction false} NegotiationKeepsEcho(cfg: Config, n: Nego, l: Login, command: byte, option: byte)
    requires EchoOk(n, l)
    ensures var accept := Accepts(cfg, n.echo, Concerns(command), option);
            EchoOk(n.(options := QMethod.ReceiveOption(n.options, command, option, accept).options), l)
  {
  }

  lemma {:induction false} NegotiationKeepsSafe(cfg: Config, d: Session, command: byte, option: byte)
    requires Safe(d)
    ensures Safe(ReceiveNegotiation(cfg, d, command, option))
  {
    hide AuthOk;
    hide MailOk;
    hide InputOk;
    var before := d.nego.options;
    var accept := Accepts(cfg, d.nego.echo, Concerns(command), option);
    NegotiationKeepsEcho(cfg, d.nego, d.auth.login, command, option);
    var step := QMethod.ReceiveOption(before, command, option, accept);
    var d1 := WriteCommands(d.(nego := d.nego.(options := step.options)), step.sent);
    ForgettingIsRight(d.probe, before, step.options);
    hide SendsOk;
    hide Forget;
    hide EchoOk;
    hide CapsOk;
    hide WriteCommands;
    hide UpdateMetadata;
    hide SendMssp;
    hide QMethod.ReceiveOption;
    var d2 := d1.(probe := Forget(d1.probe, before, step.options));
    MetadataIsRight(cfg, d2);
    var d3 := UpdateMetadata(cfg, d2);
    MsspIsRight(cfg, d3);
  }

  lemma {:induction false} MsspIsRight(cfg: Config, d: Session)
    requires CapsOk(d.nego.options, d.term, d.probe.charset) && SendsOk(d.probe)
    ensures var r := SendMssp(cfg, d); SendsOk(r.probe)
  {
    hide Write;
  }

  predicate ReportOk(d: Session) {
    CapsOk(d.nego.options, d.term, d.probe.charset) && SendsOk(d.probe)
  }

  lemma {:induction false} NawsKeeps(d: Session, payload: seq<byte>)
    requires ReportOk(d)
    ensures ReportOk(HandleNaws(d, payload))
  {
    hide Violation;
    hide Clamp;
  }

  lemma {:induction false} TypeKeeps(d: Session, reported: seq<byte>)
    requires ReportOk(d)
    ensures ReportOk(NoteType(d, reported))
  {
    hide Bit;
    hide ReportedMtts;
    hide SameIgnoringCase;
    hide Write;
    hide ReadFlags;
    hide Options.Enabled;
  }

  lemma {:induction false} TtypeKeeps(d: Session, payload: seq<byte>)
    requires ReportOk(d)
    ensures ReportOk(HandleTtype(d, payload))
  {
    hide Bit;
    hide Violation;
    hide NoteType;
    hide Printable;
    hide ReadFlags;
    hide Options.Enabled;
    if |payload| >= 2 {
      TypeKeeps(d.(probe := d.probe.(ttype := d.probe.ttype.(waiting := false))), payload[1..]);
    }
  }

  lemma {:induction false} CharsetKeeps(d: Session, payload: seq<byte>)
    requires ReportOk(d)
    ensures ReportOk(HandleCharset(d, payload))
  {
    hide Bit;
    hide Violation;
    hide Write;
    hide OffersUtf8;
    hide ReadFlags;
    hide Options.Enabled;
    hide SameIgnoringCase;
  }

  lemma {:induction false} VariableKeeps(d: Session, v: NewEnviron.Pair)
    requires ReportOk(d)
    ensures ReportOk(ApplyVariable(d, v))
  {
    hide Bit;
    hide Decimal;
    hide SameIgnoringCase;
    hide IsPlainName;
    hide ReadFlags;
    hide Options.Enabled;
  }

  lemma {:induction false} VariablesKeep(d: Session, vs: seq<NewEnviron.Pair>)
    requires ReportOk(d)
    ensures ReportOk(ApplyVariables(d, vs))
    decreases vs
  {
    if vs != [] {
      VariableKeeps(d, vs[0]);
      hide ReportOk;
      hide ApplyVariable;
      VariablesKeep(ApplyVariable(d, vs[0]), vs[1..]);
    }
  }

  lemma {:induction false} EnvironKeeps(cfg: Config, d: Session, payload: seq<byte>)
    requires ReportOk(d)
    ensures ReportOk(HandleEnviron(cfg, d, payload))
  {
    hide NewEnviron.Decode;
    hide ApplyVariables;
    hide UpdateMetadata;
    if payload != [] {
      var vs := NewEnviron.Decode(payload[1..]).pairs;
      VariablesKeep(d, vs);
      MetadataIsRight(cfg, ApplyVariables(d, vs));
    }
    hide CapsOk;
    hide SendsOk;
  }

  lemma {:induction false} GmcpKeepsMail(cfg: Config, d: Session, payload: seq<byte>)
    requires MailOk(d.mail) && d.nego.options.Valid()
    ensures MailOk(HandleGmcp(cfg, d, payload).mail) && HandleGmcp(cfg, d, payload).mail.attached == d.mail.attached
  {
    hide ParseMessage;
    hide Write;
    hide React;
    hide SameIgnoringCase;
    hide IsHandshake;
  }

  lemma {:induction false} SubKeepsSafe(cfg: Config, d: Session, option: byte, payload: seq<byte>)
    requires Safe(d)
    ensures Safe(FinishSub(cfg, d, option, payload))
  {
    assert d.nego.options.Valid();
    hide AuthOk;
    hide MailOk;
    hide InputOk;
    hide EchoOk;
    hide CapsOk;
    hide SendsOk;
    NawsKeeps(d, payload);
    TtypeKeeps(d, payload);
    CharsetKeeps(d, payload);
    EnvironKeeps(cfg, d, payload);
    GmcpKeepsMail(cfg, d, payload);
    hide HandleNaws;
    hide HandleTtype;
    hide HandleCharset;
    hide HandleEnviron;
    hide HandleGmcp;
  }

  /** Every event keeps the session safe, whatever the peer sends and the world answers. */
  lemma {:induction false} EventKeepsSafe(cfg: Config, d: Session, e: Framing.Event, now: nat)
    requires Safe(d)
    ensures Safe(Handle(cfg, d, e, now))
  {
    match e
    case Plain(b) => ByteKeepsSafe(cfg, d, b, now);
    case Control(command) => ControlKeepsSafe(cfg, d, command);
    case Negotiate(command, option) => NegotiationKeepsSafe(cfg, d, command, option);
    case Sub(option, payload) => SubKeepsSafe(cfg, d, option, payload);
    case _ =>
    hide ReceiveByte;
    hide ReceiveControl;
    hide ReceiveNegotiation;
    hide FinishSub;
    hide Violation;
    hide Close;
    hide AuthOk;
    hide MailOk;
    hide InputOk;
    hide EchoOk;
    hide CapsOk;
    hide SendsOk;
  }

  // ----- Sequences of events -----

  datatype Step = Step(event: Framing.Event, now: nat)

  /** Events in order, until one of them closes the session. */
  function After(cfg: Config, d: Session, steps: seq<Step>): (r: Session)
    requires d.nego.options.Valid()
    ensures r.nego.options.Valid()
    decreases steps
  {
    if steps == [] || d.closed then d else After(cfg, Handle(cfg, d, steps[0].event, steps[0].now), steps[1..])
  }

  lemma {:induction false} StepsKeepSafe(cfg: Config, d: Session, steps: seq<Step>)
    requires Safe(d)
    ensures Safe(After(cfg, d, steps))
    decreases steps
  {
    if steps != [] && !d.closed {
      EventKeepsSafe(cfg, d, steps[0].event, steps[0].now);
      hide Handle;
      StepsKeepSafe(cfg, Handle(cfg, d, steps[0].event, steps[0].now), steps[1..]);
    }
  }

  // ----- The start -----

  ghost predicate Dark(o: Options) {
    o.Valid() && forall direction: Direction, option: byte :: !o.Enabled(direction, option)
  }

  predicate NoEcho(wanted: seq<Wanted>) {
    forall i :: 0 <= i < |wanted| ==> wanted[i].option != OPT_ECHO
  }

  lemma {:induction false} EchoIsNotOffered(cfg: Config)
    ensures NoEcho(OfferedOptions(cfg))
  {
  }

  lemma {:induction false} AskKeepsDark(d: Session, w: Wanted)
    requires Dark(d.nego.options) && w.option != OPT_ECHO
    ensures var r := AskOption(d, w.direction, w.option, true);
            Dark(r.nego.options) && r.nego.options.At(Local, OPT_ECHO) == d.nego.options.At(Local, OPT_ECHO)
  {
    hide WriteCommands;
    var r := AskOption(d, w.direction, w.option, true);
    forall direction: Direction, option: byte ensures !r.nego.options.Enabled(direction, option) {
      assert !d.nego.options.Enabled(direction, option);
      assert (direction, option) != (w.direction, w.option) ==>
          r.nego.options.At(direction, option) == d.nego.options.At(direction, option);
    }
    assert (Local, OPT_ECHO) != (w.direction, w.option);
  }

  /** Requests alone enable nothing. */
  lemma {:induction false} RequestsEnableNothing(d: Session, wanted: seq<Wanted>)
    requires Dark(d.nego.options) && NoEcho(wanted)
    ensures var r := RequestAll(d, wanted);
            && Dark(r.nego.options)
            && r.nego.options.At(Local, OPT_ECHO) == d.nego.options.At(Local, OPT_ECHO)
    decreases wanted
  {
    if wanted != [] {
      AskKeepsDark(d, wanted[0]);
      hide Dark;
      hide AskOption;
      RequestsEnableNothing(AskOption(d, wanted[0].direction, wanted[0].option, true), wanted[1..]);
    }
  }

  lemma {:induction false} StartIsSafe(cfg: Config)
    ensures Safe(Started(cfg)) && !Started(cfg).closed
  {
    EchoIsNotOffered(cfg);
    assert Dark(AllOff());
    RequestsEnableNothing(Fresh(), OfferedOptions(cfg));
    assert !Bit(0, 4);
    hide Bit;
    hide RequestAll;
    hide OfferedOptions;
    hide Prompt;
    hide Tell;
    hide AllOff;
  }
}
