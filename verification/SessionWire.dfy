/**
 * A session as an end of the wire: the option commands it writes are those that its option
 * table sent, in order, and the table moves only by the commands it hears and the requests
 * it makes.
 */
module SessionWire {
  import opened Bytes
  import opened QMethod
  import opened Dialog
  import opened DialogSafety
  import opened Telnet
  import Discovery
  import Framing
  import NewEnviron
  import PlayerRecord
  import RateWindow

  /** A step of an option table: a request of its owner, or a command received and answered. */
  datatype Move =
    | Asked(direction: Direction, option: byte, enable: bool)
    | Took(code: byte, option: byte, accept: bool)

  function Play(t: Options, m: Move): (r: TableStep)
    requires t.Valid()
    ensures r.options.Valid()
  {
    match m
    case Asked(direction, option, enable) => RequestOption(t, direction, option, enable)
    case Took(code, option, accept) => ReceiveOption(t, code, option, accept)
  }

  /** The table after the moves, and everything it sent. */
  function PlayAll(t: Options, moves: seq<Move>): (r: TableStep)
    requires t.Valid()
    ensures r.options.Valid()
    decreases moves
  {
    if moves == [] then TableStep(t, [])
    else
      var one := Play(t, moves[0]);
      var rest := PlayAll(one.options, moves[1..]);
      TableStep(rest.options, one.sent + rest.sent)
  }

  /** The option commands among the output. */
  function Said(out: seq<Output>): seq<Command> {
    if out == [] then []
    else
      var last := out[|out| - 1];
      Said(out[..|out| - 1]) + if last.Negotiation? then [Command(last.command, last.option)] else []
  }

  // ----- Writers -----

  lemma {:induction false} WriteSays(d: Session, o: Output)
    ensures Said(Write(d, o).out) == Said(d.out) + if !d.closed && o.Negotiation? then [Command(o.command, o.option)] else []
  {
    assert (d.out + [o])[..|d.out|] == d.out;
    assert Said(d.out) + [] == Said(d.out);
  }

  lemma {:induction false} PromptSaysNothing(d: Session, n: Notice)
    ensures Said(Tell(d, n).out) == Said(d.out) && Said(Prompt(d, n).out) == Said(d.out)
  {
    WriteSays(d, Say(n));
    WriteSays(Tell(d, n), Mark(EOR));
    WriteSays(Tell(d, n), Mark(GA));
    hide Said;
  }

  lemma {:induction false} CloseSaysNothing(d: Session, n: Option<Notice>)
    ensures Said(Close(d, n).out) == Said(d.out)
  {
    if n.Some? {
      PromptSaysNothing(d, n.value);
    }
    hide Said;
  }

  lemma {:induction false} ReactSaysNothing(cfg: Config, d: Session, q: Question)
    ensures Said(React(cfg, d, q).out) == Said(d.out)
  {
    hide Said;
    hide Close;
    hide Write;
    var d1 := Ask(cfg, d, q);
    var a := Latest(d1);
    var d2 := if a.bytes == [] then d1 else Write(d1, AppText(a.bytes));
    assert React(cfg, d, q) == if a.close then Close(d2, None) else d2;
    hide React;
    hide Ask;
    WriteSays(d1, AppText(a.bytes));
    CloseSaysNothing(d2, None);
  }

  lemma {:induction false} PiecesSayNothing()
    ensures forall d: Session, n: Notice {:trigger Tell(d, n)} :: Said(Tell(d, n).out) == Said(d.out)
    ensures forall d: Session, n: Notice {:trigger Prompt(d, n)} :: Said(Prompt(d, n).out) == Said(d.out)
    ensures forall d: Session, n: Option<Notice> {:trigger Close(d, n)} :: Said(Close(d, n).out) == Said(d.out)
    ensures forall cfg: Config, d: Session, q: Question {:trigger React(cfg, d, q)} :: Said(React(cfg, d, q).out) == Said(d.out)
  {
    hide *;
    forall d: Session, n: Notice ensures Said(Tell(d, n).out) == Said(d.out) && Said(Prompt(d, n).out) == Said(d.out) {
      PromptSaysNothing(d, n);
    }
    forall d: Session, n: Option<Notice> ensures Said(Close(d, n).out) == Said(d.out) {
      CloseSaysNothing(d, n);
    }
    forall cfg: Config, d: Session, q: Question ensures Said(React(cfg, d, q).out) == Said(d.out) {
      ReactSaysNothing(cfg, d, q);
    }
  }

  /** The commands of a table step are all written, in order, while the session is open. */
  lemma {:induction false} CommandsAreSaid(d: Session, commands: seq<Command>)
    requires !d.closed
    ensures Said(WriteCommands(d, commands).out) == Said(d.out) + commands
    decreases commands
  {
    if commands == [] {
      assert Said(d.out) + commands == Said(d.out);
    } else {
      var one := Negotiation(commands[0].code, commands[0].option);
      WriteSays(d, one);
      CommandsAreSaid(Write(d, one), commands[1..]);
      hide Said;
      assert Said(d.out) + [commands[0]] + commands[1..] == Said(d.out) + commands;
    }
  }

  // ----- Lines -----

  /** Nothing happened to the table, or one request for server echo did, and was written. */
  predicate EchoSays(d: Session, r: Session)
    requires d.nego.options.Valid()
  {
    var t := RequestOption(d.nego.options, Local, OPT_ECHO, r.nego.echo);
    || (r.nego == d.nego && Said(r.out) == Said(d.out))
    || (r.nego.options == t.options && Said(r.out) == Said(d.out) + t.sent)
  }

  lemma {:induction false} EchoIsSaid(d: Session, on: bool)
    requires d.nego.options.Valid() && !d.closed
    ensures var r := if on then EchoOff(d) else EchoOn(d);
            var t := RequestOption(d.nego.options, Local, OPT_ECHO, on);
            r.nego == Nego(t.options, on) && Said(r.out) == Said(d.out) + t.sent
  {
    var t := RequestOption(d.nego.options, Local, OPT_ECHO, on);
    CommandsAreSaid(d.(nego := Nego(t.options, on)), t.sent);
    hide Said;
    hide WriteCommands;
    hide RequestOption;
  }

  lemma {:induction false} HandAllSaysNothing(cfg: Config, d: Session, ms: seq<Message>)
    ensures Said(HandAll(cfg, d, ms).out) == Said(d.out)
    decreases ms
  {
    hide Said;
    hide React;
    if ms != [] {
      ReactSaysNothing(cfg, d, Gmcp(ms[0]));
      HandAllSaysNothing(cfg, React(cfg, d, Gmcp(ms[0])), ms[1..]);
    }
  }

  lemma {:induction false} EnterSaysNothing(cfg: Config, d: Session)
    ensures Said(EnterGame(cfg, d).out) == Said(d.out)
  {
    PiecesSayNothing();
    hide Said;
    hide React;
    hide Prompt;
    hide Tell;
    hide Close;
    var entered := React(cfg, d.(auth := d.auth.(login := InGame)), Open(d.auth.player));
    HandAllSaysNothing(cfg, entered.(mail := Mail([], true)), entered.mail.queue);
    hide HandAll;
  }

  lemma {:induction false} NameSays(cfg: Config, d: Session)
    requires d.nego.options.Valid() && !d.closed
    ensures EchoSays(d, ProcessName(cfg, d))
  {
    PiecesSayNothing();
    hide RequestOption;
    hide EchoMove;
    hide Options.Valid;
    hide Said;
    hide Prompt;
    hide Tell;
    hide EchoOff;
    hide PlayerRecord.NameValid;
    var name := d.input.line;
    var asked := Ask(cfg, d, Exists(name));
    hide Ask;
    EchoIsSaid(SetAuth(asked, AtPassword, name, asked.auth.token), true);
    EchoIsSaid(SetAuth(asked, AtNewPassword, name, asked.auth.token), true);
  }

  lemma {:induction false} PasswordSays(cfg: Config, d: Session)
    requires d.nego.options.Valid() && !d.closed
    ensures EchoSays(d, ProcessPassword(cfg, d))
  {
    PiecesSayNothing();
    hide RequestOption;
    hide EchoMove;
    hide Options.Valid;
    hide Said;
    hide Prompt;
    hide Tell;
    hide Close;
    hide EchoOn;
    hide EnterGame;
    var name := d.auth.player;
    var verified := Ask(cfg, Ask(cfg, EraseLine(d), AllowAuth(name)), Verify(name, d.input.line));
    var noted := Ask(cfg, verified, NoteSuccess(name));
    EchoIsSaid(noted, false);
    EnterSaysNothing(cfg, EchoOn(noted));
  }

  lemma {:induction false} StartOverSays(d: Session, n: Notice)
    requires d.nego.options.Valid() && !d.closed
    ensures EchoSays(d, StartOver(d, n))
  {
    PiecesSayNothing();
    EchoIsSaid(d, false);
    hide RequestOption;
    hide Options.Valid;
    hide Said;
    hide Prompt;
    hide Tell;
    hide EchoOn;
  }

  lemma {:induction false} NewSays(cfg: Config, d: Session)
    requires d.nego.options.Valid() && !d.closed
    ensures EchoSays(d, ProcessNew(cfg, d))
  {
    PiecesSayNothing();
    hide RequestOption;
    hide EchoMove;
    hide Options.Valid;
    hide Said;
    hide Prompt;
    hide Tell;
    hide StartOver;
    var suited := Ask(cfg, EraseLine(d), Suitable(d.auth.player, d.input.line));
    StartOverSays(Ask(cfg, suited, Prepare(d.input.line)), PrepareError);
  }

  lemma {:induction false} ConfirmSays(cfg: Config, d: Session)
    requires d.nego.options.Valid() && !d.closed
    ensures EchoSays(d, ProcessConfirm(cfg, d))
  {
    PiecesSayNothing();
    hide RequestOption;
    hide EchoMove;
    hide Options.Valid;
    hide Said;
    hide Prompt;
    hide Tell;
    hide StartOver;
    hide EchoOn;
    hide EnterGame;
    var name, token := d.auth.player, TokenOf(d.auth);
    var two := Ask(cfg, Ask(cfg, EraseLine(d), Matches(token, d.input.line)), AllowCreation);
    StartOverSays(two, CreationLimited);
    var three := Ask(cfg, two, CreateAccount(name, token));
    StartOverSays(three, CreationFailed);
    var noted := Ask(cfg, three.(auth := three.auth.(token := None)), NoteSuccess(name));
    EchoIsSaid(noted, false);
    EnterSaysNothing(cfg, EchoOn(noted));
  }

  lemma {:induction false} CommandSaysNothing(cfg: Config, d: Session, now: nat)
    ensures Said(ProcessCommand(cfg, d, now).out) == Said(d.out)
  {
    PiecesSayNothing();
    hide Said;
    hide Prompt;
    hide Tell;
    hide Close;
    hide React;
    hide RateWindow.Consume;
    hide SameIgnoringCase;
  }

  lemma {:induction false} DispatchSays(cfg: Config, d: Session, now: nat)
    requires d.nego.options.Valid() && !d.closed
    ensures EchoSays(d, Dispatch(cfg, d, now))
  {
    hide Said;
    hide ProcessName;
    hide ProcessPassword;
    hide ProcessNew;
    hide ProcessConfirm;
    hide ProcessCommand;
    hide RequestOption;
    hide EchoMove;
    hide Options.Valid;
    match d.auth.login
    case AtName => NameSays(cfg, d);
    case AtPassword => PasswordSays(cfg, d);
    case AtNewPassword => NewSays(cfg, d);
    case AtConfirm => ConfirmSays(cfg, d);
    case InGame => CommandSaysNothing(cfg, d, now);
  }

  lemma {:induction false} OverlongSaysNothing(d: Session)
    ensures Said(Overlong(d).out) == Said(d.out)
  {
    PiecesSayNothing();
    hide Said;
    hide Prompt;
    hide Tell;
    hide Close;
  }

  lemma {:induction false} LineSays(cfg: Config, d: Session, now: nat)
    requires d.nego.options.Valid() && !d.closed
    ensures EchoSays(d, ProcessLine(cfg, d, now))
  {
    hide Said;
    hide RateWindow.Consume;
    hide Close;
    hide Overlong;
    hide Dispatch;
    hide RequestOption;
    hide EchoMove;
    hide Options.Valid;
    var c := RateWindow.Consume(d.lineWindow, 1, LINES_PER_WINDOW, LINES_SPAN, now);
    var counted := d.(lineWindow := c.window);
    CloseSaysNothing(EraseLine(counted), Some(LineFlood));
    OverlongSaysNothing(counted.(input := counted.input.(line := [], overflow := false)));
    DispatchSays(cfg, counted.(completed := d.completed + [d.input.line]), now);
  }

  lemma {:induction false} ByteSays(cfg: Config, d: Session, b: byte, now: nat)
    requires d.nego.options.Valid() && !d.closed
    ensures EchoSays(d, ReceiveByte(cfg, d, b, now))
  {
    hide Said;
    hide ProcessLine;
    hide Append;
    hide RequestOption;
    hide EchoMove;
    hide Options.Valid;
    var d1 := d.(input := d.input.(pendingCr := false));
    LineSays(cfg, d1, now);
    LineSays(cfg, Append(d1, CR), now);
  }

  // ----- Control commands, options and reports -----

  lemma {:induction false} ControlSaysNothing(d: Session, command: byte)
    ensures Said(ReceiveControl(d, command).out) == Said(d.out)
  {
    PiecesSayNothing();
    hide Said;
    hide Prompt;
    hide Tell;
    hide Close;
  }

  lemma {:induction false} RequestsSayNothing(d: Session)
    requires d.nego.options.Valid()
    ensures Said(RequestTtype(d).out) == Said(d.out) && Said(RequestCharset(d).out) == Said(d.out) && Said(RequestEnviron(d).out) == Said(d.out)
  {
    var t := d.probe.ttype;
    WriteSays(d.(probe := d.probe.(ttype := t.(sent := t.sent + 1, waiting := true))), Report(OPT_TERMINAL_TYPE, [1]));
    WriteSays(d.(probe := d.probe.(charset := d.probe.charset.(sent := true))), Report(OPT_CHARSET, CHARSET_OFFER));
    WriteSays(d.(probe := d.probe.(environ := d.probe.environ.(sent := true))), Report(OPT_NEW_ENVIRON, [1]));
    hide Said;
    hide Write;
    hide Options.Valid;
    hide Options.Enabled;
  }

  lemma {:induction false} MetadataSaysNothing(cfg: Config, d: Session)
    requires d.nego.options.Valid()
    ensures Said(UpdateMetadata(cfg, d).out) == Said(d.out)
  {
    hide Said;
    hide RequestTtype;
    hide RequestCharset;
    hide RequestEnviron;
    hide React;
    hide Options.Valid;
    hide UpdateMetadata;
    var d1 := Discovery.MetadataIsRequests(cfg, d);
    RequestsSayNothing(d1);
    RequestsSayNothing(RequestTtype(d1));
    RequestsSayNothing(RequestCharset(RequestTtype(d1)));
    ReactSaysNothing(cfg, RequestEnviron(RequestCharset(RequestTtype(d1))), Capabilities);
  }

  lemma {:induction false} SnapshotSaysNothing(cfg: Config, d: Session)
    requires d.nego.options.Valid()
    ensures Said(SendMssp(cfg, d).out) == Said(d.out)
  {
    var asked := Ask(cfg, d, Snapshot);
    WriteSays(asked.(probe := d.probe.(mssp := Mssp(true))), Report(OPT_MSSP, Latest(asked).bytes));
    hide Said;
    hide Write;
    hide Options.Valid;
    hide Options.Enabled;
  }

  lemma {:induction false} NegotiationSays(cfg: Config, d: Session, command: byte, option: byte)
    requires d.nego.options.Valid() && !d.closed
    ensures var r := ReceiveNegotiation(cfg, d, command, option);
            var t := ReceiveOption(d.nego.options, command, option, Accepts(cfg, d.nego.echo, Concerns(command), option));
            r.nego == d.nego.(options := t.options) && Said(r.out) == Said(d.out) + t.sent
  {
    hide Said;
    hide ReceiveOption;
    hide Accepts;
    hide Forget;
    hide WriteCommands;
    hide UpdateMetadata;
    hide SendMssp;
    hide Options.Valid;
    hide Options.Enabled;
    var t := ReceiveOption(d.nego.options, command, option, Accepts(cfg, d.nego.echo, Concerns(command), option));
    var d0 := d.(nego := d.nego.(options := t.options));
    CommandsAreSaid(d0, t.sent);
    var d1 := WriteCommands(d0, t.sent);
    var d2 := d1.(probe := Forget(d1.probe, d.nego.options, t.options));
    MetadataSaysNothing(cfg, d2);
    SnapshotSaysNothing(cfg, UpdateMetadata(cfg, d2));
  }

  lemma {:induction false} TypeSaysNothing(d: Session, payload: seq<byte>)
    requires d.nego.options.Valid()
    ensures Said(HandleTtype(d, payload).out) == Said(d.out)
  {
    hide Said;
    hide Close;
    hide RequestTtype;
    hide SameIgnoringCase;
    hide Printable;
    hide ReportedMtts;
    hide Options.Valid;
    hide Options.Enabled;
    hide Bit;
    var heard := d.(probe := d.probe.(ttype := d.probe.ttype.(waiting := false)));
    CloseSaysNothing(heard.(violations := d.violations + 1), Some(ProtocolError));
    if |payload| >= 2 {
      var flags := ReportedMtts(payload[1..]);
      var d1 := if flags.Some? then ApplyMtts(heard, flags.value) else heard;
      RequestsSayNothing(d1.(probe := d1.probe.(ttype := heard.probe.ttype.(last := payload[1..]))));
    }
    hide ApplyMtts;
  }

  lemma {:induction false} CharsetSaysNothing(d: Session, payload: seq<byte>)
    requires d.nego.options.Valid()
    ensures Said(HandleCharset(d, payload).out) == Said(d.out)
  {
    WriteSays(d, Report(OPT_CHARSET, [2] + UTF8_NAME));
    WriteSays(d, Report(OPT_CHARSET, [3]));
    CloseSaysNothing(d.(violations := d.violations + 1), Some(ProtocolError));
    hide Said;
    hide Close;
    hide Write;
    hide SameIgnoringCase;
    hide OffersUtf8;
    hide Utf8;
    hide Options.Enabled;
    hide Options.Valid;
  }

  lemma {:induction false} EnvironSaysNothing(cfg: Config, d: Session, payload: seq<byte>)
    requires d.nego.options.Valid()
    ensures Said(HandleEnviron(cfg, d, payload).out) == Said(d.out)
  {
    hide Said;
    hide ApplyVariables;
    hide UpdateMetadata;
    hide NewEnviron.Decode;
    hide Options.Valid;
    hide Options.Enabled;
    if payload != [] {
      MetadataSaysNothing(cfg, ApplyVariables(d, NewEnviron.Decode(payload[1..]).pairs));
    }
  }

  lemma {:induction false} GmcpSaysNothing(cfg: Config, d: Session, payload: seq<byte>)
    requires d.nego.options.Valid()
    ensures Said(HandleGmcp(cfg, d, payload).out) == Said(d.out)
  {
    WriteSays(d, Report(OPT_GMCP, CORE_PING));
    PiecesSayNothing();
    hide Said;
    hide Write;
    hide React;
    hide ParseMessage;
    hide SameIgnoringCase;
    hide Enqueue;
    hide Options.Valid;
    hide Options.Enabled;
  }

  lemma {:induction false} SubSaysNothing(cfg: Config, d: Session, option: byte, payload: seq<byte>)
    requires d.nego.options.Valid()
    ensures Said(FinishSub(cfg, d, option, payload).out) == Said(d.out)
  {
    hide Said;
    hide Close;
    hide HandleTtype;
    hide HandleCharset;
    hide HandleEnviron;
    hide HandleGmcp;
    hide Options.Valid;
    hide Options.Enabled;
    hide Clamp;
    if option == OPT_NAWS {
      CloseSaysNothing(d.(violations := d.violations + 1), Some(ProtocolError));
    } else if option == OPT_TERMINAL_TYPE {
      TypeSaysNothing(d, payload);
    } else if option == OPT_CHARSET {
      CharsetSaysNothing(d, payload);
    } else if option == OPT_NEW_ENVIRON {
      EnvironSaysNothing(cfg, d, payload);
    } else if option == OPT_GMCP {
      GmcpSaysNothing(cfg, d, payload);
    }
  }

  // ----- Events and runs -----

  /** The moves of an event: the command heard, or at most a request about server echo. */
  predicate MovesOf(cfg: Config, d: Session, e: Framing.Event, r: Session, moves: seq<Move>) {
    if e.Negotiate? then moves == [Took(e.command, e.option, Accepts(cfg, d.nego.echo, Concerns(e.command), e.option))]
    else moves == [] || (e.Plain? && moves == [Asked(Local, OPT_ECHO, r.nego.echo)])
  }

  lemma {:induction false} OneMove(t: Options, m: Move)
    requires t.Valid()
    ensures PlayAll(t, [m]) == Play(t, m)
  {
    hide Play;
    var one := Play(t, m);
    assert [m][1..] == [];
    assert PlayAll(one.options, []) == TableStep(one.options, []);
    assert one.sent + [] == one.sent;
  }

  lemma {:induction false} EventSays(cfg: Config, d: Session, e: Framing.Event, now: nat) returns (moves: seq<Move>)
    requires d.nego.options.Valid() && !d.closed
    ensures var r := Handle(cfg, d, e, now);
            var t := PlayAll(d.nego.options, moves);
            MovesOf(cfg, d, e, r, moves) && r.nego.options == t.options && Said(r.out) == Said(d.out) + t.sent
  {
    hide Said;
    hide RequestOption;
    hide ReceiveOption;
    hide Accepts;
    hide ReceiveByte;
    hide ReceiveControl;
    hide ReceiveNegotiation;
    hide FinishSub;
    hide Close;
    hide EchoMove;
    hide Options.Valid;
    moves := [];
    var options, r := d.nego.options, Handle(cfg, d, e, now);
    assert Said(d.out) + [] == Said(d.out);
    match e
    case Plain(b) =>
      ByteSays(cfg, d, b, now);
      if !(r.nego == d.nego && Said(r.out) == Said(d.out)) {
        moves := [Asked(Local, OPT_ECHO, r.nego.echo)];
        OneMove(options, moves[0]);
      }
    case Negotiate(command, option) =>
      NegotiationSays(cfg, d, command, option);
      moves := [Took(command, option, Accepts(cfg, d.nego.echo, Concerns(command), option))];
      OneMove(options, moves[0]);
    case Control(command) => ControlSaysNothing(d, command);
    case Sub(option, payload) => SubSaysNothing(cfg, d, option, payload);
    case Quiet =>
    case Malformed => CloseSaysNothing(d.(violations := d.violations + 1), Some(ProtocolError));
    case Overflow => CloseSaysNothing(d, Some(ProtocolError));
  }

  lemma {:induction false} PlayConcat(t: Options, a: seq<Move>, b: seq<Move>)
    requires t.Valid()
    ensures var one := PlayAll(t, a);
            var two := PlayAll(one.options, b);
            PlayAll(t, a + b) == TableStep(two.options, one.sent + two.sent)
    decreases a
  {
    hide Play;
    if a == [] {
      assert a + b == b;
      assert [] + PlayAll(t, b).sent == PlayAll(t, b).sent;
    } else {
      assert (a + b)[1..] == a[1..] + b;
      PlayConcat(Play(t, a[0]).options, a[1..], b);
      AssocCommands(Play(t, a[0]).sent, PlayAll(Play(t, a[0]).options, a[1..]).sent, PlayAll(PlayAll(t, a).options, b).sent);
    }
  }

  lemma {:induction false} AssocCommands(a: seq<Command>, b: seq<Command>, c: seq<Command>)
    ensures a + (b + c) == a + b + c
  {
  }

  /** The commands heard, in order: those of the `Took` moves, and those of the events handled. */
  function Hears(moves: seq<Move>): seq<Command> {
    if moves == [] then []
    else (if moves[0].Took? then [Command(moves[0].code, moves[0].option)] else []) + Hears(moves[1..])
  }

  function Arrived(cfg: Config, d: Session, steps: seq<Step>): seq<Command>
    requires d.nego.options.Valid()
    decreases steps
  {
    if steps == [] || d.closed then []
    else
      var e := steps[0].event;
      (if e.Negotiate? then [Command(e.command, e.option)] else []) + Arrived(cfg, Handle(cfg, d, e, steps[0].now), steps[1..])
  }

  lemma {:induction false} HearsConcat(a: seq<Move>, b: seq<Move>)
    ensures Hears(a + b) == Hears(a) + Hears(b)
  {
    if a == [] {
      assert a + b == b;
    } else {
      assert (a + b)[1..] == a[1..] + b;
      HearsConcat(a[1..], b);
      var head := if a[0].Took? then [Command(a[0].code, a[0].option)] else [];
      assert Hears(a + b) == head + Hears(a[1..] + b);
      assert Hears(a) == head + Hears(a[1..]);
      hide Hears;
      AssocCommands(head, Hears(a[1..]), Hears(b));
    }
  }

  lemma {:induction false} HearsOfEvent(cfg: Config, d: Session, e: Framing.Event, r: Session, moves: seq<Move>)
    requires MovesOf(cfg, d, e, r, moves)
    ensures Hears(moves) == if e.Negotiate? then [Command(e.command, e.option)] else []
  {
    hide Accepts;
    if moves != [] {
      assert moves[1..] == [];
      assert Hears(moves) == (if moves[0].Took? then [Command(moves[0].code, moves[0].option)] else []) + Hears([]);
    }
  }

  /** Requests made after the opening are about server echo only. */
  predicate OnlyEcho(moves: seq<Move>) {
    forall i :: 0 <= i < |moves| && moves[i].Asked? ==> moves[i].direction == Local && moves[i].option == OPT_ECHO
  }

  /** The options that a session has a use for, on its own side and on the peer's. */
  predicate Supported(cfg: Config, direction: Direction, option: byte) {
    if direction.Local? then
      option == 0 || option == 1 || option == 3 || option == 25 || option == 42 || option == 201 || (option == 70 && cfg.mssp)
    else
      option == 0 || option == 3 || option == 24 || option == 31 || option == 39 || option == 42
  }

  /** An offer is accepted exactly when the option is supported and, for ECHO, wished. */
  lemma {:induction false} AcceptsSupported(cfg: Config, echo: bool, direction: Direction, option: byte)
    ensures Accepts(cfg, echo, direction, option) <==>
            Supported(cfg, direction, option) && (direction.Local? && option == 1 ==> echo)
  {
  }

  /** Only supported options are asked for or accepted. */
  predicate AllMeant(cfg: Config, moves: seq<Move>) {
    forall i :: 0 <= i < |moves| ==>
      match moves[i]
      case Asked(direction, option, _) => Supported(cfg, direction, option)
      case Took(code, option, accept) => accept ==> Supported(cfg, Concerns(code), option)
  }

  lemma {:induction false} StepsSay(cfg: Config, d: Session, steps: seq<Step>) returns (moves: seq<Move>)
    requires d.nego.options.Valid()
    ensures var r := After(cfg, d, steps);
            var t := PlayAll(d.nego.options, moves);
            && r.nego.options == t.options && Said(r.out) == Said(d.out) + t.sent
            && Hears(moves) == Arrived(cfg, d, steps) && OnlyEcho(moves) && AllMeant(cfg, moves)
    decreases steps
  {
    hide Said;
    hide Handle;
    hide Options.Valid;
    moves := [];
    if steps == [] || d.closed {
      assert Said(d.out) + [] == Said(d.out);
    } else {
      var e, now := steps[0].event, steps[0].now;
      var next := Handle(cfg, d, e, now);
      var first := EventSays(cfg, d, e, now);
      HearsOfEvent(cfg, d, e, next, first);
      assert OnlyEcho(first) && AllMeant(cfg, first) by {
        if first != [] && first[0].Took? {
          AcceptsSupported(cfg, d.nego.echo, Concerns(e.command), e.option);
        }
      }
      hide Accepts;
      hide Supported;
      var rest := StepsSay(cfg, next, steps[1..]);
      moves := first + rest;
      PlayConcat(d.nego.options, first, rest);
      HearsConcat(first, rest);
      AssocCommands(Said(d.out), PlayAll(d.nego.options, first).sent, PlayAll(next.nego.options, rest).sent);
      hide PlayAll;
      hide Hears;
    }
  }

  /** The requests that open a session. */
  function Opening(wanted: seq<Wanted>): seq<Move> {
    if wanted == [] then [] else [Asked(wanted[0].direction, wanted[0].option, true)] + Opening(wanted[1..])
  }

  lemma {:induction false} OpeningSays(d: Session, wanted: seq<Wanted>)
    requires d.nego.options.Valid() && !d.closed
    ensures var r := RequestAll(d, wanted);
            var t := PlayAll(d.nego.options, Opening(wanted));
            r.nego.options == t.options && Said(r.out) == Said(d.out) + t.sent && Hears(Opening(wanted)) == []
    decreases wanted
  {
    hide Said;
    hide RequestOption;
    hide WriteCommands;
    hide Options.Valid;
    if wanted == [] {
      assert Said(d.out) + [] == Said(d.out);
    } else {
      var w := wanted[0];
      var t := RequestOption(d.nego.options, w.direction, w.option, true);
      CommandsAreSaid(d.(nego := d.nego.(options := t.options)), t.sent);
      var next := AskOption(d, w.direction, w.option, true);
      OpeningSays(next, wanted[1..]);
      var moves, rest := Opening(wanted), Opening(wanted[1..]);
      assert moves[1..] == rest && moves[0] == Asked(w.direction, w.option, true);
      AssocCommands(Said(d.out), t.sent, PlayAll(t.options, rest).sent);
      hide AskOption;
    }
  }

  lemma {:induction false} StartSays(cfg: Config)
    ensures var t := PlayAll(AllOff(), Opening(OfferedOptions(cfg)));
            Started(cfg).nego.options == t.options && Said(Started(cfg).out) == t.sent && Hears(Opening(OfferedOptions(cfg))) == []
  {
    PiecesSayNothing();
    OpeningSays(Fresh(), OfferedOptions(cfg));
    assert Said(Fresh().out) == [];
    var t := PlayAll(AllOff(), Opening(OfferedOptions(cfg)));
    assert [] + t.sent == t.sent;
    hide Said;
    hide Prompt;
    hide Tell;
    hide RequestAll;
    hide OfferedOptions;
    hide PlayAll;
    hide Opening;
    hide AllOff;
    hide Hears;
  }

  /**
   * After any events a session's option commands are exactly what its option table sent: a
   * table that began with every option off, made the opening requests, took every command
   * heard, in order and once, and was asked of nothing more but server echo.
   */
  lemma {:induction false} SessionIsAnEnd(cfg: Config, steps: seq<Step>) returns (moves: seq<Move>)
    ensures var d := After(cfg, Started(cfg), steps);
            var t := PlayAll(AllOff(), Opening(OfferedOptions(cfg)) + moves);
            && d.nego.options == t.options && Said(d.out) == t.sent
            && Hears(moves) == Arrived(cfg, Started(cfg), steps) && OnlyEcho(moves) && AllMeant(cfg, moves)
  {
    StartSays(cfg);
    moves := StepsSay(cfg, Started(cfg), steps);
    PlayConcat(AllOff(), Opening(OfferedOptions(cfg)), moves);
    hide Started;
    hide Said;
    hide PlayAll;
    hide After;
    hide Arrived;
    hide Opening;
    hide OfferedOptions;
    hide AllOff;
    hide Hears;
  }

  // ----- The opening commands -----

  function Offers(wanted: seq<Wanted>): seq<Command> {
    if wanted == [] then []
    else [Command(if wanted[0].direction.Local? then 251 else 253, wanted[0].option)] + Offers(wanted[1..])
  }

  predicate Untouched(t: Options, wanted: seq<Wanted>)
    requires t.Valid()
  {
    && (forall i :: 0 <= i < |wanted| ==> t.At(wanted[i].direction, wanted[i].option) == IDLE)
    && (forall i, j :: 0 <= i < j < |wanted| ==> wanted[i] != wanted[j])
  }

  lemma {:induction false} OpeningOffers(t: Options, wanted: seq<Wanted>)
    requires t.Valid() && Untouched(t, wanted)
    ensures PlayAll(t, Opening(wanted)).sent == Offers(wanted)
    decreases wanted
  {
    if wanted != [] {
      var w, rest := wanted[0], wanted[1..];
      var one := RequestOption(t, w.direction, w.option, true);
      assert one.sent == [Command(if w.direction.Local? then 251 else 253, w.option)];
      assert Untouched(one.options, rest) by {
        forall i | 0 <= i < |rest| ensures one.options.At(rest[i].direction, rest[i].option) == IDLE {
          assert rest[i] == wanted[i + 1] && wanted[0] != wanted[i + 1];
        }
      }
      OpeningOffers(one.options, rest);
      assert Opening(wanted)[0] == Asked(w.direction, w.option, true) && Opening(wanted)[1..] == Opening(rest);
    }
  }

  /** Every session opens with the same offers and requests, in this order. */
  lemma {:induction false} OpeningIsFixed(cfg: Config)
    ensures Said(Started(cfg).out) ==
            [Command(251, 0), Command(253, 0), Command(251, 3), Command(253, 3), Command(251, 25), Command(253, 31),
             Command(253, 24), Command(251, 42), Command(253, 42), Command(253, 39)]
            + (if cfg.mssp then [Command(251, 70)] else []) + [Command(251, 201)]
  {
    hide Started;
    hide Said;
    hide PlayAll;
    hide Opening;
    hide Offers;
    StartSays(cfg);
    AllAreUntouched(cfg);
    hide OfferedOptions;
    hide Untouched;
    OpeningOffers(AllOff(), OfferedOptions(cfg));
    OffersAre(cfg);
  }

  lemma {:induction false} AllAreUntouched(cfg: Config)
    ensures Untouched(AllOff(), OfferedOptions(cfg))
  {
    hide AllOff;
  }

  lemma {:induction false} OffersAre(cfg: Config)
    ensures Offers(OfferedOptions(cfg)) ==
            [Command(251, 0), Command(253, 0), Command(251, 3), Command(253, 3), Command(251, 25), Command(253, 31),
             Command(253, 24), Command(251, 42), Command(253, 42), Command(253, 39)]
            + (if cfg.mssp then [Command(251, 70)] else []) + [Command(251, 201)]
  {
    var w := OfferedOptions(cfg);
    OffersAt(w);
  }

  lemma {:induction false} OffersAt(wanted: seq<Wanted>)
    ensures |Offers(wanted)| == |wanted|
    ensures forall i :: 0 <= i < |wanted| ==>
              Offers(wanted)[i] == Command(if wanted[i].direction.Local? then 251 else 253, wanted[i].option)
    decreases wanted
  {
    if wanted != [] {
      OffersAt(wanted[1..]);
    }
  }

  // ----- Which options can be on -----

  lemma {:induction false} OthersStayOff(cfg: Config, t: Options, moves: seq<Move>, direction: Direction, option: byte)
    requires t.Valid() && t.At(direction, option) == IDLE && !Supported(cfg, direction, option) && AllMeant(cfg, moves)
    ensures PlayAll(t, moves).options.At(direction, option) == IDLE
    decreases moves
  {
    if moves != [] {
      hide Supported;
      var m, rest := moves[0], moves[1..];
      assert Play(t, m).options.At(direction, option) == IDLE;
      assert AllMeant(cfg, rest) by {
        forall i | 0 <= i < |rest| ensures rest[i] == moves[i + 1] {
        }
      }
      hide Play;
      OthersStayOff(cfg, Play(t, m).options, rest, direction, option);
    }
  }

  lemma {:induction false} OpeningIsMeant(cfg: Config, wanted: seq<Wanted>)
    requires forall i :: 0 <= i < |wanted| ==> Supported(cfg, wanted[i].direction, wanted[i].option)
    ensures AllMeant(cfg, Opening(wanted))
    decreases wanted
  {
    hide Supported;
    if wanted != [] {
      OpeningIsMeant(cfg, wanted[1..]);
    }
  }

  /** Whatever the peer sends, an option that the session has no use for is never on, nor asked for. */
  lemma {:induction false} UnsupportedStaysOff(cfg: Config, steps: seq<Step>, direction: Direction, option: byte)
    requires !Supported(cfg, direction, option)
    ensures After(cfg, Started(cfg), steps).nego.options.At(direction, option) == IDLE
  {
    OfferedAreSupported(cfg);
    hide Started;
    hide After;
    hide PlayAll;
    hide Opening;
    hide OfferedOptions;
    hide Supported;
    hide AllMeant;
    hide AllOff;
    var moves := SessionIsAnEnd(cfg, steps);
    var opening := Opening(OfferedOptions(cfg));
    OpeningIsMeant(cfg, OfferedOptions(cfg));
    MeantConcat(cfg, opening, moves);
    OthersStayOff(cfg, AllOff(), opening + moves, direction, option);
  }

  lemma {:induction false} OfferedAreSupported(cfg: Config)
    ensures var w := OfferedOptions(cfg); forall i :: 0 <= i < |w| ==> Supported(cfg, w[i].direction, w[i].option)
  {
  }

  lemma {:induction false} MeantConcat(cfg: Config, a: seq<Move>, b: seq<Move>)
    requires AllMeant(cfg, a) && AllMeant(cfg, b)
    ensures AllMeant(cfg, a + b)
  {
    hide Supported;
  }
}
