/**
 * Capability discovery as the peer sees it: how often the session writes a TERMINAL-TYPE SEND,
 * a CHARSET request, a NEW-ENVIRON SEND or an MSSP snapshot while the option stays on.
 */
module Discovery {
  import opened Bytes
  import opened QMethod
  import opened Dialog
  import opened DialogSafety
  import Framing
  import NewEnviron
  import PlayerRecord
  import RateWindow

  datatype Probed = TypeSend | CharsetRequest | EnvironSend | MsspSnapshot

  function Way(k: Probed): Direction {
    if k.TypeSend? || k.EnvironSend? then Remote else Local
  }

  function OptionOf(k: Probed): byte {
    match k
    case TypeSend => OPT_TERMINAL_TYPE
    case CharsetRequest => OPT_CHARSET
    case EnvironSend => OPT_NEW_ENVIRON
    case MsspSnapshot => OPT_MSSP
  }

  function Most(k: Probed): nat {
    if k.TypeSend? then 4 else 1
  }

  /** Answers to the peer's own CHARSET requests are not requests. */
  predicate Is(o: Output, k: Probed) {
    o.Report? && o.option == OptionOf(k) && (k.CharsetRequest? ==> o.payload == CHARSET_OFFER)
  }

  /** How many of them were written. */
  function Tally(out: seq<Output>, k: Probed): nat {
    if out == [] then 0 else Tally(out[..|out| - 1], k) + if Is(out[|out| - 1], k) then 1 else 0
  }

  /** How many the session believes to have written since the option came on. */
  function Sent(p: Probe, k: Probed): nat {
    match k
    case TypeSend => p.ttype.sent
    case CharsetRequest => if p.charset.sent then 1 else 0
    case EnvironSend => if p.environ.sent then 1 else 0
    case MsspSnapshot => if p.mssp.sent then 1 else 0
  }

  predicate Lost(before: Options, after: Options, k: Probed)
    requires before.Valid() && after.Valid()
  {
    TurnedOff(before, after, Way(k), OptionOf(k))
  }

  /**
   * Whatever is written is charged, and the charge is only forgotten when the option goes
   * off; while the session stays open whatever is charged has been written.
   */
  predicate Charged(d: Session, r: Session, k: Probed)
    requires d.nego.options.Valid() && r.nego.options.Valid()
  {
    var kept := if Lost(d.nego.options, r.nego.options, k) then 0 else Sent(d.probe, k);
    && Tally(r.out, k) + kept <= Tally(d.out, k) + Sent(r.probe, k)
    && (!r.closed ==> Tally(r.out, k) + kept == Tally(d.out, k) + Sent(r.probe, k))
  }

  // ----- Writers -----

  lemma {:induction false} WriteTally(d: Session, o: Output, k: Probed)
    ensures Tally(Write(d, o).out, k) == Tally(d.out, k) + if !d.closed && Is(o, k) then 1 else 0
  {
    assert (d.out + [o])[..|d.out|] == d.out;
  }

  lemma {:induction false} TellIsSilent(d: Session, n: Notice, k: Probed)
    ensures Tally(Tell(d, n).out, k) == Tally(d.out, k)
  {
    WriteTally(d, Say(n), k);
  }

  lemma {:induction false} PromptIsSilent(d: Session, n: Notice, k: Probed)
    ensures Tally(Prompt(d, n).out, k) == Tally(d.out, k)
  {
    TellIsSilent(d, n, k);
    WriteTally(Tell(d, n), Mark(EOR), k);
    WriteTally(Tell(d, n), Mark(GA), k);
  }

  lemma {:induction false} CloseIsSilent(d: Session, n: Option<Notice>, k: Probed)
    ensures Tally(Close(d, n).out, k) == Tally(d.out, k)
  {
    if n.Some? {
      TellIsSilent(d, n.value, k);
    }
  }

  lemma {:induction false} ReactIsSilent(cfg: Config, d: Session, q: Question, k: Probed)
    ensures Tally(React(cfg, d, q).out, k) == Tally(d.out, k)
  {
    var d1 := Ask(cfg, d, q);
    var a := Latest(d1);
    var d2 := if a.bytes == [] then d1 else Write(d1, AppText(a.bytes));
    WriteTally(d1, AppText(a.bytes), k);
    CloseIsSilent(d2, None, k);
    hide Tally;
    hide Close;
    hide Write;
  }

  lemma {:induction false} CommandsAreSilent(d: Session, commands: seq<Command>, k: Probed)
    ensures Tally(WriteCommands(d, commands).out, k) == Tally(d.out, k)
    decreases commands
  {
    if commands != [] {
      var one := Negotiation(commands[0].code, commands[0].option);
      WriteTally(d, one, k);
      CommandsAreSilent(Write(d, one), commands[1..], k);
      hide Tally;
      hide Write;
    }
  }

  lemma {:induction false} EchoIsSilent(d: Session, k: Probed)
    requires d.nego.options.Valid()
    ensures Tally(EchoOff(d).out, k) == Tally(d.out, k) && Tally(EchoOn(d).out, k) == Tally(d.out, k)
  {
    var on := QMethod.RequestOption(d.nego.options, Local, OPT_ECHO, true);
    var off := QMethod.RequestOption(d.nego.options, Local, OPT_ECHO, false);
    CommandsAreSilent(d.(nego := Nego(on.options, true)), on.sent, k);
    CommandsAreSilent(d.(nego := Nego(off.options, false)), off.sent, k);
    hide Tally;
    hide WriteCommands;
    hide QMethod.RequestOption;
  }

  /** The pieces that lines are handled with write nothing that counts. */
  lemma {:induction false} PiecesAreSilent(k: Probed)
    ensures forall d: Session, n: Notice :: Tally(Tell(d, n).out, k) == Tally(d.out, k)
    ensures forall d: Session, n: Notice :: Tally(Prompt(d, n).out, k) == Tally(d.out, k)
    ensures forall d: Session, n: Option<Notice> :: Tally(Close(d, n).out, k) == Tally(d.out, k)
    ensures forall cfg: Config, d: Session, q: Question :: Tally(React(cfg, d, q).out, k) == Tally(d.out, k)
    ensures forall d: Session {:trigger EchoOff(d)} | d.nego.options.Valid() :: Tally(EchoOff(d).out, k) == Tally(d.out, k)
    ensures forall d: Session {:trigger EchoOn(d)} | d.nego.options.Valid() :: Tally(EchoOn(d).out, k) == Tally(d.out, k)
  {
    hide *;
    forall d: Session, n: Notice ensures Tally(Tell(d, n).out, k) == Tally(d.out, k) {
      TellIsSilent(d, n, k);
    }
    forall d: Session, n: Notice ensures Tally(Prompt(d, n).out, k) == Tally(d.out, k) {
      PromptIsSilent(d, n, k);
    }
    forall d: Session, n: Option<Notice> ensures Tally(Close(d, n).out, k) == Tally(d.out, k) {
      CloseIsSilent(d, n, k);
    }
    forall cfg: Config, d: Session, q: Question ensures Tally(React(cfg, d, q).out, k) == Tally(d.out, k) {
      ReactIsSilent(cfg, d, q, k);
    }
    forall d: Session | d.nego.options.Valid()
      ensures Tally(EchoOff(d).out, k) == Tally(d.out, k) && Tally(EchoOn(d).out, k) == Tally(d.out, k)
    {
      EchoIsSilent(d, k);
    }
  }

  // ----- Lines and control commands -----

  lemma {:induction false} HandAllIsSilent(cfg: Config, d: Session, ms: seq<Message>, k: Probed)
    ensures Tally(HandAll(cfg, d, ms).out, k) == Tally(d.out, k)
    decreases ms
  {
    if ms != [] {
      ReactIsSilent(cfg, d, Gmcp(ms[0]), k);
      hide Tally;
      hide React;
      HandAllIsSilent(cfg, React(cfg, d, Gmcp(ms[0])), ms[1..], k);
    }
  }

  lemma {:induction false} EnterIsSilent(cfg: Config, d: Session, k: Probed)
    ensures Tally(EnterGame(cfg, d).out, k) == Tally(d.out, k)
  {
    PiecesAreSilent(k);
    var entered := React(cfg, d.(auth := d.auth.(login := InGame)), Open(d.auth.player));
    HandAllIsSilent(cfg, entered.(mail := Mail([], true)), entered.mail.queue, k);
    hide Tally;
    hide React;
    hide Prompt;
    hide Tell;
    hide Close;
    hide HandAll;
  }

  lemma {:induction false} NameIsSilent(cfg: Config, d: Session, k: Probed)
    requires d.nego.options.Valid()
    ensures Tally(ProcessName(cfg, d).out, k) == Tally(d.out, k)
  {
    hide QMethod.RequestOption;
    hide EchoMove;
    hide Options.Valid;
    hide Tally;
    PiecesAreSilent(k);
    hide Prompt;
    hide Tell;
    hide EchoOff;
    hide PlayerRecord.NameValid;
  }

  lemma {:induction false} PasswordIsSilent(cfg: Config, d: Session, k: Probed)
    requires d.nego.options.Valid()
    ensures Tally(ProcessPassword(cfg, d).out, k) == Tally(d.out, k)
  {
    hide QMethod.RequestOption;
    hide EchoMove;
    hide Options.Valid;
    hide Tally;
    PiecesAreSilent(k);
    var name := d.auth.player;
    var verified := Ask(cfg, Ask(cfg, EraseLine(d), AllowAuth(name)), Verify(name, d.input.line));
    EnterIsSilent(cfg, EchoOn(Ask(cfg, verified, NoteSuccess(name))), k);
    hide Prompt;
    hide Tell;
    hide EchoOn;
    hide Close;
    hide EnterGame;
  }

  lemma {:induction false} StartOverIsSilent(d: Session, n: Notice, k: Probed)
    requires d.nego.options.Valid()
    ensures Tally(StartOver(d, n).out, k) == Tally(d.out, k)
  {
    hide QMethod.RequestOption;
    hide EchoMove;
    hide Options.Valid;
    hide Tally;
    PiecesAreSilent(k);
    hide Prompt;
    hide Tell;
    hide EchoOn;
  }

  lemma {:induction false} NewIsSilent(cfg: Config, d: Session, k: Probed)
    requires d.nego.options.Valid()
    ensures Tally(ProcessNew(cfg, d).out, k) == Tally(d.out, k)
  {
    hide QMethod.RequestOption;
    hide EchoMove;
    hide Options.Valid;
    hide Tally;
    PiecesAreSilent(k);
    var suited := Ask(cfg, EraseLine(d), Suitable(d.auth.player, d.input.line));
    StartOverIsSilent(Ask(cfg, suited, Prepare(d.input.line)), PrepareError, k);
    hide Prompt;
    hide Tell;
    hide StartOver;
  }

  lemma {:induction false} ConfirmIsSilent(cfg: Config, d: Session, k: Probed)
    requires d.nego.options.Valid()
    ensures Tally(ProcessConfirm(cfg, d).out, k) == Tally(d.out, k)
  {
    hide QMethod.RequestOption;
    hide EchoMove;
    hide Options.Valid;
    hide Tally;
    PiecesAreSilent(k);
    var name, token := d.auth.player, TokenOf(d.auth);
    var two := Ask(cfg, Ask(cfg, EraseLine(d), Matches(token, d.input.line)), AllowCreation);
    StartOverIsSilent(two, CreationLimited, k);
    var three := Ask(cfg, two, CreateAccount(name, token));
    StartOverIsSilent(three, CreationFailed, k);
    EnterIsSilent(cfg, EchoOn(Ask(cfg, three.(auth := three.auth.(token := None)), NoteSuccess(name))), k);
    hide Prompt;
    hide Tell;
    hide StartOver;
    hide EchoOn;
    hide EnterGame;
  }

  lemma {:induction false} CommandIsSilent(cfg: Config, d: Session, now: nat, k: Probed)
    ensures Tally(ProcessCommand(cfg, d, now).out, k) == Tally(d.out, k)
  {
    PiecesAreSilent(k);
    hide Tally;
    hide Prompt;
    hide Tell;
    hide Close;
    hide React;
    hide SameIgnoringCase;
  }

  lemma {:induction false} DispatchIsSilent(cfg: Config, d: Session, now: nat, k: Probed)
    requires d.nego.options.Valid()
    ensures Tally(Dispatch(cfg, d, now).out, k) == Tally(d.out, k)
  {
    hide ProcessName;
    hide ProcessPassword;
    hide ProcessNew;
    hide ProcessConfirm;
    hide ProcessCommand;
    hide QMethod.RequestOption;
    hide EchoMove;
    hide Options.Valid;
    hide Tally;
    match d.auth.login
    case AtName => NameIsSilent(cfg, d, k);
    case AtPassword => PasswordIsSilent(cfg, d, k);
    case AtNewPassword => NewIsSilent(cfg, d, k);
    case AtConfirm => ConfirmIsSilent(cfg, d, k);
    case InGame => CommandIsSilent(cfg, d, now, k);
  }

  lemma {:induction false} OverlongIsSilent(d: Session, k: Probed)
    ensures Tally(Overlong(d).out, k) == Tally(d.out, k)
  {
    PiecesAreSilent(k);
    hide Tally;
    hide Prompt;
    hide Tell;
    hide Close;
  }

  lemma {:induction false} LineIsSilent(cfg: Config, d: Session, now: nat, k: Probed)
    requires d.nego.options.Valid()
    ensures Tally(ProcessLine(cfg, d, now).out, k) == Tally(d.out, k)
  {
    hide QMethod.RequestOption;
    hide EchoMove;
    hide Options.Valid;
    hide Tally;
    hide Prompt;
    hide Tell;
    hide Close;
    hide Dispatch;
    hide Overlong;
    hide RateWindow.Consume;
    var c := RateWindow.Consume(d.lineWindow, 1, LINES_PER_WINDOW, LINES_SPAN, now);
    var counted := d.(lineWindow := c.window);
    CloseIsSilent(EraseLine(counted), Some(LineFlood), k);
    OverlongIsSilent(counted.(input := counted.input.(line := [], overflow := false)), k);
    DispatchIsSilent(cfg, counted.(completed := d.completed + [d.input.line]), now, k);
  }

  lemma {:induction false} ByteIsSilent(cfg: Config, d: Session, b: byte, now: nat, k: Probed)
    requires d.nego.options.Valid()
    ensures Tally(ReceiveByte(cfg, d, b, now).out, k) == Tally(d.out, k)
  {
    var d1 := d.(input := d.input.(pendingCr := false));
    LineIsSilent(cfg, d1, now, k);
    LineIsSilent(cfg, Append(d1, CR), now, k);
    hide Tally;
    hide ProcessLine;
    hide Append;
  }

  lemma {:induction false} ControlIsSilent(d: Session, command: byte, k: Probed)
    ensures Tally(ReceiveControl(d, command).out, k) == Tally(d.out, k)
  {
    PiecesAreSilent(k);
    hide Tally;
    hide Prompt;
    hide Tell;
    hide Close;
  }

  // ----- Requests -----

  /** Between moments with the same option table. */
  predicate Pays(d: Session, r: Session, k: Probed) {
    && Tally(r.out, k) + Sent(d.probe, k) <= Tally(d.out, k) + Sent(r.probe, k)
    && (!r.closed ==> Tally(r.out, k) + Sent(d.probe, k) == Tally(d.out, k) + Sent(r.probe, k))
  }

  lemma {:induction false} TypeRequestPays(d: Session, k: Probed)
    requires d.nego.options.Valid()
    ensures Pays(d, RequestTtype(d), k)
  {
    hide Options.Valid;
    hide Options.Enabled;
    hide Tally;
    hide Write;
    var asking := d.(probe := d.probe.(ttype := d.probe.ttype.(sent := d.probe.ttype.sent + 1, waiting := true)));
    var r := RequestTtype(d);
    if r != d {
      assert r == Write(asking, Report(OPT_TERMINAL_TYPE, [1]));
      hide RequestTtype;
      WriteTally(asking, Report(OPT_TERMINAL_TYPE, [1]), k);
    }
  }

  lemma {:induction false} CharsetRequestPays(d: Session, k: Probed)
    requires d.nego.options.Valid()
    ensures Pays(d, RequestCharset(d), k)
  {
    hide Options.Valid;
    hide Options.Enabled;
    hide Tally;
    hide Write;
    var asking := d.(probe := d.probe.(charset := d.probe.charset.(sent := true)));
    var r := RequestCharset(d);
    if r != d {
      assert r == Write(asking, Report(OPT_CHARSET, CHARSET_OFFER)) && !d.probe.charset.sent;
      hide RequestCharset;
      WriteTally(asking, Report(OPT_CHARSET, CHARSET_OFFER), k);
    }
  }

  lemma {:induction false} EnvironRequestPays(d: Session, k: Probed)
    requires d.nego.options.Valid()
    ensures Pays(d, RequestEnviron(d), k)
  {
    hide Options.Valid;
    hide Options.Enabled;
    hide Tally;
    hide Write;
    var asking := d.(probe := d.probe.(environ := d.probe.environ.(sent := true)));
    var r := RequestEnviron(d);
    if r != d {
      assert r == Write(asking, Report(OPT_NEW_ENVIRON, [1])) && !d.probe.environ.sent;
      hide RequestEnviron;
      WriteTally(asking, Report(OPT_NEW_ENVIRON, [1]), k);
    }
  }

  lemma {:induction false} SnapshotPays(cfg: Config, d: Session, k: Probed)
    requires d.nego.options.Valid()
    ensures Pays(d, SendMssp(cfg, d), k)
  {
    hide Options.Valid;
    hide Options.Enabled;
    hide Tally;
    hide Write;
    var asked := Ask(cfg, d, Snapshot);
    var sending := asked.(probe := d.probe.(mssp := Mssp(true)));
    var shot := Report(OPT_MSSP, Latest(asked).bytes);
    var r := SendMssp(cfg, d);
    if r.probe == d.probe {
      assert r == d || r == asked;
    } else {
      assert r == Write(sending, shot) && !d.probe.mssp.sent;
      hide SendMssp;
      hide Ask;
      WriteTally(sending, shot, k);
    }
  }

  lemma {:induction false} RequestsPay(d: Session, k: Probed)
    requires d.nego.options.Valid()
    ensures Pays(d, RequestEnviron(RequestCharset(RequestTtype(d))), k)
  {
    hide Tally;
    hide Sent;
    hide RequestTtype;
    hide RequestCharset;
    hide RequestEnviron;
    hide Options.Valid;
    TypeRequestPays(d, k);
    CharsetRequestPays(RequestTtype(d), k);
    EnvironRequestPays(RequestCharset(RequestTtype(d)), k);
  }

  lemma {:induction false} MetadataIsRequests(cfg: Config, d: Session) returns (d1: Session)
    requires d.nego.options.Valid()
    ensures d1 == d.(term := d1.term) && d1.term.flags == ReadFlags(d.nego.options)
    ensures UpdateMetadata(cfg, d) == NotifyCaps(cfg, RequestEnviron(RequestCharset(RequestTtype(d1))))
  {
    hide RequestTtype;
    hide RequestCharset;
    hide RequestEnviron;
    hide NotifyCaps;
    hide Options.Valid;
    hide ReadFlags;
    hide Bit;
    d1 := RefreshUtf8(d.(term := d.term.(flags := ReadFlags(d.nego.options), mnes := Bit(d.term.mtts, 512) || d.probe.environ.mnes)));
  }

  lemma {:induction false} MetadataPays(cfg: Config, d: Session, k: Probed)
    requires d.nego.options.Valid()
    ensures Pays(d, UpdateMetadata(cfg, d), k)
  {
    hide Tally;
    hide Sent;
    hide RequestTtype;
    hide RequestCharset;
    hide RequestEnviron;
    hide React;
    hide Options.Valid;
    hide UpdateMetadata;
    var d1 := MetadataIsRequests(cfg, d);
    RequestsPay(d1, k);
    ReactIsSilent(cfg, RequestEnviron(RequestCharset(RequestTtype(d1))), Capabilities, k);
  }

  lemma {:induction false} ForgettingIsByOption(p: Probe, before: Options, after: Options, k: Probed)
    requires before.Valid() && after.Valid()
    ensures Sent(Forget(p, before, after), k) == if Lost(before, after, k) then 0 else Sent(p, k)
  {
    hide Options.Enabled;
  }

  lemma {:induction false} NegotiationIsCharged(cfg: Config, d: Session, command: byte, option: byte, k: Probed)
    requires d.nego.options.Valid()
    ensures Charged(d, ReceiveNegotiation(cfg, d, command, option), k)
  {
    hide Tally;
    hide QMethod.ReceiveOption;
    hide Accepts;
    hide UpdateMetadata;
    hide SendMssp;
    hide WriteCommands;
    hide Forget;
    hide Sent;
    hide Lost;
    hide Options.Enabled;
    hide Options.Valid;
    var before := d.nego.options;
    var step := QMethod.ReceiveOption(before, command, option, Accepts(cfg, d.nego.echo, Concerns(command), option));
    var d1 := d.(nego := d.nego.(options := step.options));
    var d2 := WriteCommands(d1, step.sent);
    var d3 := d2.(probe := Forget(d2.probe, before, step.options));
    var d4 := UpdateMetadata(cfg, d3);
    CommandsAreSilent(d1, step.sent, k);
    ForgettingIsByOption(d2.probe, before, step.options, k);
    MetadataPays(cfg, d3, k);
    SnapshotPays(cfg, d4, k);
    assert Pays(d3, SendMssp(cfg, d4), k) && Pays(d3, d4, k);
  }

  // ----- Reports -----

  lemma {:induction false} TypePays(d: Session, payload: seq<byte>, k: Probed)
    requires d.nego.options.Valid()
    ensures Pays(d, HandleTtype(d, payload), k)
  {
    hide Tally;
    hide Close;
    hide RequestTtype;
    hide SameIgnoringCase;
    hide Printable;
    hide ReportedMtts;
    hide Options.Valid;
    hide Options.Enabled;
    hide Bit;
    var heard := d.(probe := d.probe.(ttype := d.probe.ttype.(waiting := false)));
    CloseIsSilent(heard.(violations := d.violations + 1), Some(ProtocolError), k);
    if |payload| >= 2 {
      NotePays(heard, payload[1..], k);
    }
    hide NoteType;
  }

  lemma {:induction false} NotePays(d: Session, reported: seq<byte>, k: Probed)
    requires d.nego.options.Valid()
    ensures Pays(d, NoteType(d, reported), k)
  {
    hide Tally;
    hide RequestTtype;
    hide SameIgnoringCase;
    hide ReportedMtts;
    hide Options.Valid;
    hide Bit;
    var flags := ReportedMtts(reported);
    var d1 := if flags.Some? then ApplyMtts(d, flags.value) else d;
    TypeRequestPays(d1.(probe := d1.probe.(ttype := d.probe.ttype.(last := reported))), k);
    hide ApplyMtts;
  }

  lemma {:induction false} AnswersAreSilent(d: Session, k: Probed)
    ensures Tally(Write(d, Report(OPT_CHARSET, [2] + UTF8_NAME)).out, k) == Tally(d.out, k)
    ensures Tally(Write(d, Report(OPT_CHARSET, [3])).out, k) == Tally(d.out, k)
  {
    WriteTally(d, Report(OPT_CHARSET, [2] + UTF8_NAME), k);
    WriteTally(d, Report(OPT_CHARSET, [3]), k);
    assert ([2] + UTF8_NAME)[0] != CHARSET_OFFER[0];
    assert [3][0] != CHARSET_OFFER[0];
    hide Tally;
    hide Write;
  }

  lemma {:induction false} CharsetPays(d: Session, payload: seq<byte>, k: Probed)
    requires d.nego.options.Valid()
    ensures Pays(d, HandleCharset(d, payload), k)
  {
    hide Tally;
    hide Close;
    hide Write;
    hide SameIgnoringCase;
    hide OffersUtf8;
    hide Utf8;
    hide Options.Enabled;
    hide Options.Valid;
    AnswersAreSilent(d, k);
    CloseIsSilent(d.(violations := d.violations + 1), Some(ProtocolError), k);
  }

  lemma {:induction false} VariablesPay(d: Session, vs: seq<NewEnviron.Pair>, k: Probed)
    ensures Sent(ApplyVariables(d, vs).probe, k) == Sent(d.probe, k)
    decreases vs
  {
    if vs != [] {
      VariablePays(d, vs[0], k);
      hide ApplyVariable;
      VariablesPay(ApplyVariable(d, vs[0]), vs[1..], k);
    }
  }

  lemma {:induction false} VariablePays(d: Session, v: NewEnviron.Pair, k: Probed)
    ensures Sent(ApplyVariable(d, v).probe, k) == Sent(d.probe, k)
  {
    hide SameIgnoringCase;
    hide IsPlainName;
    hide Decimal;
    hide Bit;
  }

  lemma {:induction false} EnvironPays(cfg: Config, d: Session, payload: seq<byte>, k: Probed)
    requires d.nego.options.Valid()
    ensures Pays(d, HandleEnviron(cfg, d, payload), k)
  {
    hide Tally;
    hide ApplyVariables;
    hide UpdateMetadata;
    hide NewEnviron.Decode;
    hide Sent;
    hide Options.Valid;
    hide Options.Enabled;
    if payload != [] {
      var pairs := NewEnviron.Decode(payload[1..]).pairs;
      VariablesPay(d, pairs, k);
      MetadataPays(cfg, ApplyVariables(d, pairs), k);
    }
  }

  lemma {:induction false} GmcpIsSilent(cfg: Config, d: Session, payload: seq<byte>, k: Probed)
    requires d.nego.options.Valid()
    ensures Tally(HandleGmcp(cfg, d, payload).out, k) == Tally(d.out, k)
  {
    WriteTally(d, Report(OPT_GMCP, CORE_PING), k);
    hide Tally;
    hide Write;
    hide React;
    hide ParseMessage;
    hide SameIgnoringCase;
    hide Options.Valid;
    hide Options.Enabled;
    if ParseMessage(payload).Some? {
      var m := ParseMessage(payload).value;
      var ponged := Write(d, Report(OPT_GMCP, CORE_PING));
      ReactIsSilent(cfg, d, Gmcp(m), k);
      ReactIsSilent(cfg, ponged, Gmcp(m), k);
    }
    hide Enqueue;
  }

  lemma {:induction false} SubPays(cfg: Config, d: Session, option: byte, payload: seq<byte>, k: Probed)
    requires d.nego.options.Valid()
    ensures Pays(d, FinishSub(cfg, d, option, payload), k)
  {
    hide Tally;
    hide Sent;
    hide Close;
    hide HandleTtype;
    hide HandleCharset;
    hide HandleEnviron;
    hide HandleGmcp;
    hide Options.Valid;
    hide Options.Enabled;
    if option == OPT_NAWS {
      hide Clamp;
      CloseIsSilent(d.(violations := d.violations + 1), Some(ProtocolError), k);
    } else if option == OPT_TERMINAL_TYPE {
      TypePays(d, payload, k);
    } else if option == OPT_CHARSET {
      CharsetPays(d, payload, k);
    } else if option == OPT_NEW_ENVIRON {
      EnvironPays(cfg, d, payload, k);
    } else if option == OPT_GMCP {
      GmcpIsSilent(cfg, d, payload, k);
    }
  }

  // ----- Whole runs -----

  lemma {:induction false} EchoMoveLosesNothing(before: Nego, after: Nego, k: Probed)
    requires EchoMove(before, after)
    ensures !Lost(before.options, after.options, k)
  {
    if after != before {
      assert after.options.At(Way(k), OptionOf(k)) == before.options.At(Way(k), OptionOf(k));
    }
  }

  lemma {:induction false} EventIsCharged(cfg: Config, d: Session, e: Framing.Event, now: nat, k: Probed)
    requires d.nego.options.Valid()
    ensures Charged(d, Handle(cfg, d, e, now), k)
  {
    hide Tally;
    hide Sent;
    hide Close;
    hide ReceiveByte;
    hide ReceiveControl;
    hide ReceiveNegotiation;
    hide FinishSub;
    hide Options.Valid;
    hide EchoMove;
    match e
    case Quiet =>
    case Plain(b) =>
      ByteIsSilent(cfg, d, b, now, k);
      EchoMoveLosesNothing(d.nego, ReceiveByte(cfg, d, b, now).nego, k);
    case Control(command) => ControlIsSilent(d, command, k);
    case Negotiate(command, option) => NegotiationIsCharged(cfg, d, command, option, k);
    case Sub(option, payload) => SubPays(cfg, d, option, payload, k);
    case Malformed => CloseIsSilent(d.(violations := d.violations + 1), Some(ProtocolError), k);
    case Overflow => CloseIsSilent(d, Some(ProtocolError), k);
  }

  /** The option is not turned off in the course of the run. */
  predicate Kept(cfg: Config, d: Session, steps: seq<Step>, k: Probed)
    requires d.nego.options.Valid()
    decreases steps
  {
    steps == [] || d.closed ||
    var next := Handle(cfg, d, steps[0].event, steps[0].now);
    !Lost(d.nego.options, next.nego.options, k) && Kept(cfg, next, steps[1..], k)
  }

  lemma {:induction false} RunPays(cfg: Config, d: Session, steps: seq<Step>, k: Probed)
    requires d.nego.options.Valid() && Kept(cfg, d, steps, k)
    ensures Pays(d, After(cfg, d, steps), k)
    decreases steps
  {
    hide Tally;
    hide Sent;
    hide Lost;
    hide Handle;
    hide Options.Valid;
    if steps != [] && !d.closed {
      EventIsCharged(cfg, d, steps[0].event, steps[0].now, k);
      RunPays(cfg, Handle(cfg, d, steps[0].event, steps[0].now), steps[1..], k);
    }
  }

  /**
   * From any safe moment on, and however long the run: as long as the option is not turned
   * off, at most four TERMINAL-TYPE SENDs, one CHARSET request, one NEW-ENVIRON SEND and one
   * MSSP snapshot are written, whatever the peer sends and however often it negotiates.
   */
  lemma {:induction false} DiscoveryIsBounded(cfg: Config, d: Session, steps: seq<Step>, k: Probed)
    requires Safe(d) && Kept(cfg, d, steps, k)
    ensures Tally(After(cfg, d, steps).out, k) <= Tally(d.out, k) + Most(k)
  {
    RunPays(cfg, d, steps, k);
    StepsKeepSafe(cfg, d, steps);
    hide Tally;
    hide After;
    hide Kept;
  }

  // ----- The requests do go out -----

  /** What makes the session ask; for the character set BINARY must be agreed both ways. */
  predicate Due(o: Options, k: Probed)
    requires o.Valid()
  {
    match k
    case TypeSend => o.Enabled(Remote, 24)
    case CharsetRequest => o.Enabled(Local, 42) && o.Enabled(Local, 0) && o.Enabled(Remote, 0)
    case EnvironSend => o.Enabled(Remote, 39)
    case MsspSnapshot => false
  }

  /** What is due has been asked for, an answer is awaited only after asking, and a snapshot counts while MSSP is on. */
  predicate Asking(o: Options, p: Probe, k: Probed)
    requires o.Valid()
  {
    && (Due(o, k) ==> Sent(p, k) >= 1) && (p.ttype.waiting ==> p.ttype.sent >= 1)
    && (p.mssp.sent ==> o.Enabled(Local, 70))
  }

  lemma {:induction false} RequestsAsk(d: Session, k: Probed)
    requires d.nego.options.Valid() && d.term.flags == ReadFlags(d.nego.options)
    requires (d.probe.ttype.waiting ==> d.probe.ttype.sent >= 1) && (d.probe.mssp.sent ==> d.nego.options.Enabled(Local, 70))
    ensures Asking(d.nego.options, RequestEnviron(RequestCharset(RequestTtype(d))).probe, k)
  {
    hide Write;
    hide Options.Valid;
    hide Options.Enabled;
  }

  lemma {:induction false} MetadataAsks(cfg: Config, d: Session, k: Probed)
    requires d.nego.options.Valid()
    requires (d.probe.ttype.waiting ==> d.probe.ttype.sent >= 1) && (d.probe.mssp.sent ==> d.nego.options.Enabled(Local, 70))
    ensures Asking(d.nego.options, UpdateMetadata(cfg, d).probe, k)
  {
    hide RequestTtype;
    hide RequestCharset;
    hide RequestEnviron;
    hide NotifyCaps;
    hide ReadFlags;
    hide Asking;
    hide UpdateMetadata;
    hide Options.Valid;
    var d1 := MetadataIsRequests(cfg, d);
    RequestsAsk(d1, k);
  }

  lemma {:induction false} NegotiationAsks(cfg: Config, d: Session, command: byte, option: byte, k: Probed)
    requires d.nego.options.Valid() && Asking(d.nego.options, d.probe, k)
    ensures var r := ReceiveNegotiation(cfg, d, command, option); Asking(r.nego.options, r.probe, k)
  {
    var before := d.nego.options;
    var step := QMethod.ReceiveOption(before, command, option, Accepts(cfg, d.nego.echo, Concerns(command), option));
    hide QMethod.ReceiveOption;
    hide Accepts;
    hide UpdateMetadata;
    hide WriteCommands;
    hide Options.Enabled;
    hide Options.Valid;
    hide Write;
    var d1 := WriteCommands(d.(nego := d.nego.(options := step.options)), step.sent);
    MetadataAsks(cfg, d1.(probe := Forget(d1.probe, before, step.options)), k);
    hide Due;
  }

  /** While the options stay, what has been asked is not forgotten. */
  predicate Remembers(p: Probe, after: Probe, k: Probed) {
    Sent(p, k) <= Sent(after, k) && after.mssp == p.mssp && ((p.ttype.waiting ==> p.ttype.sent >= 1) ==> (after.ttype.waiting ==> after.ttype.sent >= 1))
  }

  lemma {:induction false} TypeRemembers(d: Session, payload: seq<byte>, k: Probed)
    requires d.nego.options.Valid()
    ensures Remembers(d.probe, HandleTtype(d, payload).probe, k)
  {
    hide Write;
    hide Violation;
    hide SameIgnoringCase;
    hide Printable;
    hide ReportedMtts;
    hide Options.Valid;
    hide Options.Enabled;
    hide Bit;
  }

  lemma {:induction false} VariablesRemember(d: Session, vs: seq<NewEnviron.Pair>)
    ensures var r := ApplyVariables(d, vs).probe; r.ttype == d.probe.ttype && r.mssp == d.probe.mssp
    decreases vs
  {
    if vs != [] {
      VariablesRemember(ApplyVariable(d, vs[0]), vs[1..]);
      hide SameIgnoringCase;
      hide IsPlainName;
      hide Decimal;
      hide Bit;
    }
  }

  lemma {:induction false} EnvironAsks(cfg: Config, d: Session, payload: seq<byte>, k: Probed)
    requires d.nego.options.Valid() && Asking(d.nego.options, d.probe, k)
    ensures Asking(d.nego.options, HandleEnviron(cfg, d, payload).probe, k)
  {
    hide ApplyVariables;
    hide UpdateMetadata;
    hide NewEnviron.Decode;
    hide Due;
    hide Sent;
    hide Options.Valid;
    hide Options.Enabled;
    if payload != [] {
      var pairs := NewEnviron.Decode(payload[1..]).pairs;
      VariablesPay(d, pairs, k);
      VariablesRemember(d, pairs);
      MetadataAsks(cfg, ApplyVariables(d, pairs), k);
    }
  }

  lemma {:induction false} SubAsks(cfg: Config, d: Session, option: byte, payload: seq<byte>, k: Probed)
    requires d.nego.options.Valid() && Asking(d.nego.options, d.probe, k)
    ensures Asking(d.nego.options, FinishSub(cfg, d, option, payload).probe, k)
  {
    TypeRemembers(d, payload, k);
    EnvironAsks(cfg, d, payload, k);
    CharsetRemembers(d, payload, k);
    hide HandleNaws;
    hide HandleTtype;
    hide HandleCharset;
    hide HandleEnviron;
    hide HandleGmcp;
    hide Due;
    hide Sent;
    hide Options.Valid;
  }

  lemma {:induction false} CharsetRemembers(d: Session, payload: seq<byte>, k: Probed)
    requires d.nego.options.Valid()
    ensures Remembers(d.probe, HandleCharset(d, payload).probe, k)
  {
    hide Write;
    hide Violation;
    hide OffersUtf8;
    hide SameIgnoringCase;
    hide Options.Valid;
    hide Options.Enabled;
    hide Utf8;
  }

  lemma {:induction false} EchoMoveKeepsDue(before: Nego, after: Nego, k: Probed)
    requires EchoMove(before, after)
    ensures Due(before.options, k) <==> Due(after.options, k)
    ensures before.options.Enabled(Local, 70) <==> after.options.Enabled(Local, 70)
  {
    if after != before {
      forall d: Direction, o: byte | o != OPT_ECHO ensures after.options.At(d, o) == before.options.At(d, o) {
      }
    }
  }

  lemma {:induction false} EventAsks(cfg: Config, d: Session, e: Framing.Event, now: nat, k: Probed)
    requires d.nego.options.Valid() && Asking(d.nego.options, d.probe, k)
    ensures var r := Handle(cfg, d, e, now); Asking(r.nego.options, r.probe, k)
  {
    hide Sent;
    hide Due;
    hide Close;
    hide ReceiveByte;
    hide ReceiveControl;
    hide ReceiveNegotiation;
    hide FinishSub;
    hide Options.Valid;
    hide EchoMove;
    match e
    case Plain(b) => EchoMoveKeepsDue(d.nego, ReceiveByte(cfg, d, b, now).nego, k);
    case Negotiate(command, option) => NegotiationAsks(cfg, d, command, option, k);
    case Sub(option, payload) => SubAsks(cfg, d, option, payload, k);
    case _ =>
  }

  /** While the session is open, what it believes to have asked has been written. */
  predicate Paid(d: Session, k: Probed) {
    !d.closed ==> Tally(d.out, k) >= Sent(d.probe, k)
  }

  lemma {:induction false} StepsAsk(cfg: Config, d: Session, steps: seq<Step>, k: Probed)
    requires d.nego.options.Valid() && Asking(d.nego.options, d.probe, k) && Paid(d, k)
    ensures var r := After(cfg, d, steps); Asking(r.nego.options, r.probe, k) && Paid(r, k)
    decreases steps
  {
    hide Tally;
    hide Sent;
    hide Lost;
    hide Handle;
    hide Options.Valid;
    if steps != [] && !d.closed {
      var e, now := steps[0].event, steps[0].now;
      EventAsks(cfg, d, e, now, k);
      EventIsCharged(cfg, d, e, now, k);
      hide Asking;
      StepsAsk(cfg, Handle(cfg, d, e, now), steps[1..], k);
    }
  }

  lemma {:induction false} StartAsks(cfg: Config, k: Probed)
    ensures var d := Started(cfg); Asking(d.nego.options, d.probe, k) && Paid(d, k)
  {
    EchoIsNotOffered(cfg);
    assert Dark(AllOff());
    RequestsEnableNothing(Fresh(), OfferedOptions(cfg));
    hide RequestAll;
    hide OfferedOptions;
    hide Prompt;
    hide Tell;
    hide AllOff;
    hide Tally;
  }

  /**
   * In every session, as long as it is open: when TERMINAL-TYPE or NEW-ENVIRON is on, or
   * CHARSET with BINARY both ways, the peer has been sent the request that goes with it.
   */
  lemma {:induction false} DiscoveryHappens(cfg: Config, steps: seq<Step>, k: Probed)
    ensures var d := After(cfg, Started(cfg), steps); !d.closed && Due(d.nego.options, k) ==> Tally(d.out, k) >= 1
  {
    hide Started;
    hide After;
    hide Tally;
    hide Sent;
    hide Due;
    StartAsks(cfg, k);
    StepsAsk(cfg, Started(cfg), steps, k);
  }

  // ----- What a negotiation is followed by -----

  lemma {:induction false} MetadataNotifies(cfg: Config, d: Session)
    requires d.nego.options.Valid()
    ensures var r := UpdateMetadata(cfg, d);
            && r.term.flags == ReadFlags(d.nego.options) && r.probe.mssp == d.probe.mssp
            && r.trace == if d.mail.attached && cfg.onCaps then d.trace + [Exchange(Capabilities, cfg.tape(|d.trace|))] else d.trace
  {
    hide RequestTtype;
    hide RequestCharset;
    hide RequestEnviron;
    hide ReadFlags;
    hide React;
    hide UpdateMetadata;
    hide Options.Valid;
    var d1 := MetadataIsRequests(cfg, d);
    var d2 := RequestEnviron(RequestCharset(RequestTtype(d1)));
    assert d2.term == d1.term && d2.trace == d.trace && d2.probe.mssp == d.probe.mssp && d2.mail == d.mail;
  }

  lemma {:induction false} SnapshotIs(cfg: Config, d: Session)
    requires d.nego.options.Valid()
    ensures var r := SendMssp(cfg, d);
            if d.probe.mssp.sent || !cfg.mssp || !d.nego.options.Enabled(Local, 70) then r == d
            else
              && r.trace == d.trace + [Exchange(Snapshot, cfg.tape(|d.trace|))]
              && (Latest(r).code == 0 && !d.closed ==> r.probe.mssp.sent && r.out == d.out + [Report(70, Latest(r).bytes)])
  {
    hide Options.Enabled;
  }

  lemma {:induction false} NegotiationUnfolds(cfg: Config, d: Session, command: byte, option: byte) returns (d1: Session)
    requires d.nego.options.Valid() && (d.probe.mssp.sent ==> d.nego.options.Enabled(Local, 70))
    ensures d1.nego.options.Valid() && d1.mail == d.mail && (d1.probe.mssp.sent ==> d.nego.options.Enabled(Local, 70))
    ensures d1.trace == if d.mail.attached && cfg.onCaps then d.trace + [Exchange(Capabilities, cfg.tape(|d.trace|))] else d.trace
    ensures ReceiveNegotiation(cfg, d, command, option) ==
            if !d.nego.options.Enabled(Local, 70) && d1.nego.options.Enabled(Local, 70) then SendMssp(cfg, d1) else d1
  {
    var before := d.nego.options;
    var step := QMethod.ReceiveOption(before, command, option, Accepts(cfg, d.nego.echo, Concerns(command), option));
    hide QMethod.ReceiveOption;
    hide Accepts;
    hide UpdateMetadata;
    hide WriteCommands;
    hide Forget;
    hide ReadFlags;
    hide SendMssp;
    hide Options.Enabled;
    hide Options.Valid;
    var written := WriteCommands(d.(nego := d.nego.(options := step.options)), step.sent);
    var forgotten := written.(probe := Forget(written.probe, before, step.options));
    MetadataNotifies(cfg, forgotten);
    MsspIsForgotten(written.probe, before, step.options);
    d1 := UpdateMetadata(cfg, forgotten);
  }

  lemma {:induction false} FollowUp(cfg: Config, d: Session, command: byte, option: byte)
    requires d.nego.options.Valid() && (d.probe.mssp.sent ==> d.nego.options.Enabled(Local, 70))
    ensures var r := ReceiveNegotiation(cfg, d, command, option);
            var told := if d.mail.attached && cfg.onCaps then 1 else 0;
            var asked := if cfg.mssp && !d.nego.options.Enabled(Local, 70) && r.nego.options.Enabled(Local, 70) then 1 else 0;
            && |r.trace| == |d.trace| + told + asked && d.trace <= r.trace
            && (told == 1 ==> r.trace[|d.trace|].question == Capabilities)
            && (asked == 1 ==>
                  && r.trace[|r.trace| - 1].question == Snapshot
                  && (Latest(r).code == 0 && !r.closed ==>
                        r.probe.mssp.sent && r.out != [] && r.out[|r.out| - 1] == Report(70, Latest(r).bytes)))
  {
    hide ReceiveNegotiation;
    hide SendMssp;
    hide Options.Enabled;
    hide Options.Valid;
    var d1 := NegotiationUnfolds(cfg, d, command, option);
    SnapshotIs(cfg, d1);
  }

  /**
   * In every session: after an option command the application, if it listens, is told of the
   * capabilities; when MSSP comes on the provider is asked for a snapshot, and one that it
   * has is written.
   */
  lemma {:induction false} NegotiationIsFollowedUp(cfg: Config, steps: seq<Step>, command: byte, option: byte)
    ensures var d := After(cfg, Started(cfg), steps);
            var r := ReceiveNegotiation(cfg, d, command, option);
            var told := if d.mail.attached && cfg.onCaps then 1 else 0;
            var asked := if cfg.mssp && !d.nego.options.Enabled(Local, 70) && r.nego.options.Enabled(Local, 70) then 1 else 0;
            && |r.trace| == |d.trace| + told + asked && d.trace <= r.trace
            && (told == 1 ==> r.trace[|d.trace|].question == Capabilities)
            && (asked == 1 ==>
                  && r.trace[|r.trace| - 1].question == Snapshot
                  && (Latest(r).code == 0 && !r.closed ==>
                        r.probe.mssp.sent && r.out != [] && r.out[|r.out| - 1] == Report(70, Latest(r).bytes)))
  {
    hide Started;
    hide After;
    hide Tally;
    hide Sent;
    hide Due;
    hide ReceiveNegotiation;
    StartAsks(cfg, TypeSend);
    StepsAsk(cfg, Started(cfg), steps, TypeSend);
    FollowUp(cfg, After(cfg, Started(cfg), steps), command, option);
  }

  lemma {:induction false} MsspIsForgotten(p: Probe, before: Options, after: Options)
    requires before.Valid() && after.Valid() && (p.mssp.sent ==> before.Enabled(Local, 70))
    ensures Forget(p, before, after).mssp.sent ==> before.Enabled(Local, 70)
    ensures ReadFlags(after).mssp == after.Enabled(Local, 70)
  {
  }

  // ----- Nothing is asked that is not due -----

  /** Between moments with the option table `o`. */
  predicate OnlyDue(o: Options, d: Session, r: Session, k: Probed)
    requires o.Valid()
  {
    k.MsspSnapshot? || Tally(r.out, k) <= Tally(d.out, k) || Due(o, k)
  }

  lemma {:induction false} TypeRequestIsDue(d: Session, k: Probed)
    requires d.nego.options.Valid()
    ensures OnlyDue(d.nego.options, d, RequestTtype(d), k)
  {
    hide Tally;
    hide Write;
    hide Options.Valid;
    hide Options.Enabled;
    var asking := d.(probe := d.probe.(ttype := d.probe.ttype.(sent := d.probe.ttype.sent + 1, waiting := true)));
    WriteTally(asking, Report(OPT_TERMINAL_TYPE, [1]), k);
  }

  lemma {:induction false} OtherRequestsAreDue(d: Session, k: Probed)
    requires d.nego.options.Valid() && d.term.flags == ReadFlags(d.nego.options)
    ensures OnlyDue(d.nego.options, d, RequestCharset(d), k) && OnlyDue(d.nego.options, d, RequestEnviron(d), k)
  {
    hide Tally;
    hide Write;
    hide Options.Valid;
    hide Options.Enabled;
    WriteTally(d.(probe := d.probe.(charset := d.probe.charset.(sent := true))), Report(OPT_CHARSET, CHARSET_OFFER), k);
    WriteTally(d.(probe := d.probe.(environ := d.probe.environ.(sent := true))), Report(OPT_NEW_ENVIRON, [1]), k);
  }

  lemma {:induction false} MetadataIsDue(cfg: Config, d: Session, k: Probed)
    requires d.nego.options.Valid()
    ensures OnlyDue(d.nego.options, d, UpdateMetadata(cfg, d), k)
  {
    hide Tally;
    hide Due;
    hide RequestTtype;
    hide RequestCharset;
    hide RequestEnviron;
    hide React;
    hide ReadFlags;
    hide UpdateMetadata;
    hide Options.Valid;
    var d1 := MetadataIsRequests(cfg, d);
    var d2 := RequestTtype(d1);
    var d3 := RequestCharset(d2);
    TypeRequestIsDue(d1, k);
    OtherRequestsAreDue(d2, k);
    OtherRequestsAreDue(d3, k);
    ReactIsSilent(cfg, RequestEnviron(d3), Capabilities, k);
  }

  lemma {:induction false} NegotiationIsDue(cfg: Config, d: Session, command: byte, option: byte, k: Probed)
    requires d.nego.options.Valid()
    ensures var r := ReceiveNegotiation(cfg, d, command, option); OnlyDue(r.nego.options, d, r, k)
  {
    var before := d.nego.options;
    var step := QMethod.ReceiveOption(before, command, option, Accepts(cfg, d.nego.echo, Concerns(command), option));
    hide Tally;
    hide Due;
    hide QMethod.ReceiveOption;
    hide Accepts;
    hide UpdateMetadata;
    hide WriteCommands;
    hide SendMssp;
    hide Forget;
    hide Options.Enabled;
    hide Options.Valid;
    var d1 := WriteCommands(d.(nego := d.nego.(options := step.options)), step.sent);
    CommandsAreSilent(d.(nego := d.nego.(options := step.options)), step.sent, k);
    var d2 := d1.(probe := Forget(d1.probe, before, step.options));
    MetadataIsDue(cfg, d2, k);
    var d3 := UpdateMetadata(cfg, d2);
    SnapshotIsNoRequest(cfg, d3, k);
  }

  lemma {:induction false} SnapshotIsNoRequest(cfg: Config, d: Session, k: Probed)
    requires d.nego.options.Valid()
    ensures !k.MsspSnapshot? ==> Tally(SendMssp(cfg, d).out, k) == Tally(d.out, k)
  {
    var asked := Ask(cfg, d, Snapshot);
    WriteTally(asked.(probe := d.probe.(mssp := Mssp(true))), Report(OPT_MSSP, Latest(asked).bytes), k);
    hide Tally;
    hide Write;
    hide Options.Enabled;
    hide Options.Valid;
  }

  lemma {:induction false} TypeReportIsDue(d: Session, payload: seq<byte>, k: Probed)
    requires d.nego.options.Valid()
    ensures OnlyDue(d.nego.options, d, HandleTtype(d, payload), k)
  {
    TypePays(d, payload, k);
    TypeReportAlone(d, payload);
    hide Tally;
    hide HandleTtype;
    hide Options.Valid;
    hide Options.Enabled;
  }

  lemma {:induction false} TypeReportAlone(d: Session, payload: seq<byte>)
    requires d.nego.options.Valid()
    ensures var r := HandleTtype(d, payload);
            && (r.probe.ttype.sent > d.probe.ttype.sent ==> d.nego.options.Enabled(Remote, 24))
            && r.probe == d.probe.(ttype := r.probe.ttype)
  {
    hide Violation;
    hide Write;
    hide SameIgnoringCase;
    hide Printable;
    hide ReportedMtts;
    hide Options.Valid;
    hide Options.Enabled;
    hide Bit;
  }

  lemma {:induction false} SubIsDue(cfg: Config, d: Session, option: byte, payload: seq<byte>, k: Probed)
    requires d.nego.options.Valid()
    ensures OnlyDue(d.nego.options, d, FinishSub(cfg, d, option, payload), k)
  {
    hide Tally;
    hide Due;
    hide Violation;
    hide HandleTtype;
    hide HandleGmcp;
    hide ApplyVariables;
    hide UpdateMetadata;
    hide NewEnviron.Decode;
    hide Options.Valid;
    hide Options.Enabled;
    hide Clamp;
    if option == OPT_NAWS {
      ViolationIsSilent(d, k);
    } else if option == OPT_TERMINAL_TYPE {
      TypeReportIsDue(d, payload, k);
    } else if option == OPT_CHARSET {
      AnswersAreSilent(d, k);
      ViolationIsSilent(d, k);
      hide Write;
      hide SameIgnoringCase;
      hide OffersUtf8;
      hide Utf8;
    } else if option == OPT_NEW_ENVIRON {
      if payload != [] {
        MetadataIsDue(cfg, ApplyVariables(d, NewEnviron.Decode(payload[1..]).pairs), k);
      }
    } else if option == OPT_GMCP {
      GmcpIsSilent(cfg, d, payload, k);
    }
  }

  lemma {:induction false} ViolationIsSilent(d: Session, k: Probed)
    ensures Tally(Violation(d).out, k) == Tally(d.out, k)
  {
    CloseIsSilent(d.(violations := d.violations + 1), Some(ProtocolError), k);
    hide Tally;
    hide Close;
  }

  /**
   * An event makes the session ask only for what is due after it: the terminal type or the
   * environment while the option is on, the character set only with BINARY both ways.
   */
  lemma {:induction false} AskedOnlyWhenDue(cfg: Config, d: Session, e: Framing.Event, now: nat, k: Probed)
    requires d.nego.options.Valid()
    ensures var r := Handle(cfg, d, e, now);
            k.MsspSnapshot? || Tally(r.out, k) <= Tally(d.out, k) || Due(r.nego.options, k)
  {
    hide Tally;
    hide Due;
    hide Close;
    hide Violation;
    hide ReceiveByte;
    hide ReceiveControl;
    hide ReceiveNegotiation;
    hide FinishSub;
    hide Options.Valid;
    hide EchoMove;
    match e
    case Quiet =>
    case Plain(b) => ByteIsSilent(cfg, d, b, now, k);
    case Control(command) => ControlIsSilent(d, command, k);
    case Negotiate(command, option) => NegotiationIsDue(cfg, d, command, option, k);
    case Sub(option, payload) => SubIsDue(cfg, d, option, payload, k);
    case Malformed => ViolationIsSilent(d, k);
    case Overflow => CloseIsSilent(d, Some(ProtocolError), k);
  }
}
