/**
 * GMCP messages on their way to the application. What is heard is read off the events and the
 * option table alone; what is handed over is read off the calls made to the application.
 */
module EarlyMail {
  import opened Bytes
  import opened QMethod
  import opened Dialog
  import opened DialogSafety
  import opened Telnet
  import Credentials
  import Framing
  import NewEnviron
  import PlayerRecord
  import RateWindow

  /** A message is heard when GMCP is on and its payload is well formed. */
  function Heard(d: Session, e: Framing.Event): seq<Message>
    requires d.nego.options.Valid()
  {
    if e.Sub? && e.option == OPT_GMCP && d.nego.options.Enabled(Local, OPT_GMCP) && e.payload != []
    then match ParseMessage(e.payload) case None => [] case Some(m) => [m]
    else []
  }

  function Handshakes(ms: seq<Message>): seq<Message> {
    if ms == [] then [] else (if IsHandshake(ms[0].package) then [ms[0]] else []) + Handshakes(ms[1..])
  }

  /** The handshake messages heard before the application was there, and all messages heard after. */
  datatype Post = Post(early: seq<Message>, late: seq<Message>)

  function Gathered(cfg: Config, d: Session, steps: seq<Step>): Post
    requires d.nego.options.Valid()
    decreases steps
  {
    if steps == [] || d.closed then Post([], [])
    else
      var now := Heard(d, steps[0].event);
      var rest := Gathered(cfg, Handle(cfg, d, steps[0].event, steps[0].now), steps[1..]);
      if d.mail.attached then rest.(late := now + rest.late) else rest.(early := Handshakes(now) + rest.early)
  }

  /** The messages that the application was given. */
  function Handed(t: seq<Exchange>): seq<Message> {
    if t == [] then [] else Handed(t[..|t| - 1]) + if t[|t| - 1].question.Gmcp? then [t[|t| - 1].question.message] else []
  }

  function FirstFour(ms: seq<Message>): seq<Message> {
    if |ms| <= 4 then ms else ms[..4]
  }

  // ----- Calls -----

  lemma {:induction false} AskHands(cfg: Config, d: Session, q: Question)
    ensures Handed(Ask(cfg, d, q).trace) == Handed(d.trace) + if q.Gmcp? then [q.message] else []
  {
    assert Ask(cfg, d, q).trace[..|d.trace|] == d.trace;
  }

  lemma {:induction false} AsksHand()
    ensures forall cfg: Config, d: Session, q: Question {:trigger Ask(cfg, d, q)} :: !q.Gmcp? ==> Handed(Ask(cfg, d, q).trace) == Handed(d.trace)
  {
    hide *;
    forall cfg: Config, d: Session, q: Question ensures !q.Gmcp? ==> Handed(Ask(cfg, d, q).trace) == Handed(d.trace) {
      AskHands(cfg, d, q);
    }
  }

  lemma {:induction false} HandAllHands(cfg: Config, d: Session, ms: seq<Message>)
    ensures Handed(HandAll(cfg, d, ms).trace) == Handed(d.trace) + ms
    decreases ms
  {
    hide React;
    hide Handed;
    hide Ask;
    if ms == [] {
      assert Handed(d.trace) + ms == Handed(d.trace);
    } else {
      AskHands(cfg, d, Gmcp(ms[0]));
      HandAllHands(cfg, React(cfg, d, Gmcp(ms[0])), ms[1..]);
      assert Handed(d.trace) + [ms[0]] + ms[1..] == Handed(d.trace) + ms;
    }
  }

  // ----- Lines -----

  /** A line hands nothing over, unless it lets the player in: then everything that waited. */
  predicate Opening(cfg: Config, d: Session, r: Session) {
    if d.mail.attached || !r.mail.attached then r.mail == d.mail && Handed(r.trace) == Handed(d.trace)
    else r.mail.queue == [] && Handed(r.trace) == Handed(d.trace) + if cfg.onGmcp then d.mail.queue else []
  }

  lemma {:induction false} EnterHands(cfg: Config, d: Session)
    requires !d.mail.attached
    ensures Opening(cfg, d, EnterGame(cfg, d))
  {
    AsksHand();
    hide Handed;
    hide Ask;
    hide React;
    hide Prompt;
    hide Tell;
    hide Close;
    var d1 := React(cfg, d.(auth := d.auth.(login := InGame)), Open(d.auth.player));
    HandAllHands(cfg, d1.(mail := Mail([], true)), d1.mail.queue);
    hide HandAll;
  }

  lemma {:induction false} NameHands(cfg: Config, d: Session)
    requires d.nego.options.Valid() && d.auth.login.AtName?
    ensures Handed(ProcessName(cfg, d).trace) == Handed(d.trace)
  {
    Credentials.NameAsks(cfg, d);
    AskHands(cfg, d, Exists(d.input.line));
    hide Handed;
    hide ProcessName;
  }

  lemma {:induction false} NewHands(cfg: Config, d: Session)
    requires d.nego.options.Valid()
    ensures Handed(ProcessNew(cfg, d).trace) == Handed(d.trace)
  {
    AsksHand();
    hide Handed;
    hide Ask;
    hide QMethod.RequestOption;
    hide EchoMove;
    hide Options.Valid;
    hide Prompt;
    hide Tell;
    hide StartOver;
  }

  lemma {:induction false} PasswordHands(cfg: Config, d: Session)
    requires d.nego.options.Valid() && !d.mail.attached
    ensures Opening(cfg, d, ProcessPassword(cfg, d))
  {
    AsksHand();
    hide Handed;
    hide Ask;
    hide QMethod.RequestOption;
    hide EchoMove;
    hide Options.Valid;
    hide Prompt;
    hide Tell;
    hide Close;
    hide EchoOn;
    hide EnterGame;
    var name := d.auth.player;
    var verified := Ask(cfg, Ask(cfg, EraseLine(d), AllowAuth(name)), Verify(name, d.input.line));
    EnterHands(cfg, EchoOn(Ask(cfg, verified, NoteSuccess(name))));
  }

  lemma {:induction false} ConfirmHands(cfg: Config, d: Session)
    requires d.nego.options.Valid() && !d.mail.attached
    ensures Opening(cfg, d, ProcessConfirm(cfg, d))
  {
    AsksHand();
    hide Handed;
    hide Ask;
    hide QMethod.RequestOption;
    hide EchoMove;
    hide Options.Valid;
    hide Prompt;
    hide Tell;
    hide StartOver;
    hide EchoOn;
    hide EnterGame;
    var name, token := d.auth.player, TokenOf(d.auth);
    var matched := Ask(cfg, EraseLine(d), Matches(token, d.input.line));
    var created := Ask(cfg, Ask(cfg, matched, AllowCreation), CreateAccount(name, token));
    EnterHands(cfg, EchoOn(Ask(cfg, created.(auth := d.auth.(token := None)), NoteSuccess(name))));
  }

  lemma {:induction false} CommandHands(cfg: Config, d: Session, now: nat)
    ensures Handed(ProcessCommand(cfg, d, now).trace) == Handed(d.trace)
  {
    AsksHand();
    hide Handed;
    hide Ask;
    hide Prompt;
    hide Tell;
    hide Close;
    hide React;
    hide RateWindow.Consume;
    hide SameIgnoringCase;
  }

  lemma {:induction false} DispatchHands(cfg: Config, d: Session, now: nat)
    requires d.nego.options.Valid() && (d.mail.attached ==> d.auth.login.InGame?)
    ensures Opening(cfg, d, Dispatch(cfg, d, now))
  {
    hide Handed;
    hide ProcessName;
    hide ProcessPassword;
    hide ProcessNew;
    hide ProcessConfirm;
    hide ProcessCommand;
    hide QMethod.RequestOption;
    hide EchoMove;
    hide Options.Valid;
    match d.auth.login
    case AtName => NameHands(cfg, d);
    case AtPassword => PasswordHands(cfg, d);
    case AtNewPassword => NewHands(cfg, d);
    case AtConfirm => ConfirmHands(cfg, d);
    case InGame => CommandHands(cfg, d, now);
  }

  lemma {:induction false} LineHands(cfg: Config, d: Session, now: nat)
    requires d.nego.options.Valid() && (d.mail.attached ==> d.auth.login.InGame?)
    ensures Opening(cfg, d, ProcessLine(cfg, d, now))
  {
    hide Handed;
    hide RateWindow.Consume;
    hide Close;
    hide Overlong;
    hide Dispatch;
    hide EchoMove;
    hide Options.Valid;
    var c := RateWindow.Consume(d.lineWindow, 1, LINES_PER_WINDOW, LINES_SPAN, now);
    DispatchHands(cfg, d.(lineWindow := c.window, completed := d.completed + [d.input.line]), now);
  }

  lemma {:induction false} ByteHands(cfg: Config, d: Session, b: byte, now: nat)
    requires d.nego.options.Valid() && (d.mail.attached ==> d.auth.login.InGame?)
    ensures Opening(cfg, d, ReceiveByte(cfg, d, b, now))
  {
    hide Handed;
    hide ProcessLine;
    hide Append;
    hide EchoMove;
    hide Options.Valid;
    var d1 := d.(input := d.input.(pendingCr := false));
    LineHands(cfg, d1, now);
    LineHands(cfg, Append(d1, CR), now);
  }

  // ----- Options and reports -----

  lemma {:induction false} MetadataHands(cfg: Config, d: Session)
    requires d.nego.options.Valid()
    ensures Handed(UpdateMetadata(cfg, d).trace) == Handed(d.trace)
  {
    AsksHand();
    hide Handed;
    hide Ask;
    hide ReadFlags;
    hide Bit;
    hide React;
    hide RequestTtype;
    hide RequestCharset;
    hide RequestEnviron;
    hide Options.Valid;
  }

  lemma {:induction false} SnapshotHands(cfg: Config, d: Session)
    requires d.nego.options.Valid()
    ensures Handed(SendMssp(cfg, d).trace) == Handed(d.trace)
  {
    AskHands(cfg, d, Snapshot);
    hide Handed;
    hide Write;
    hide Options.Valid;
    hide Options.Enabled;
  }

  lemma {:induction false} NegotiationHands(cfg: Config, d: Session, command: byte, option: byte)
    requires d.nego.options.Valid()
    ensures Handed(ReceiveNegotiation(cfg, d, command, option).trace) == Handed(d.trace)
  {
    hide Handed;
    hide QMethod.ReceiveOption;
    hide Accepts;
    hide Forget;
    hide WriteCommands;
    hide UpdateMetadata;
    hide SendMssp;
    hide Options.Valid;
    hide Options.Enabled;
    var step := QMethod.ReceiveOption(d.nego.options, command, option, Accepts(cfg, d.nego.echo, Concerns(command), option));
    var d1 := WriteCommands(d.(nego := d.nego.(options := step.options)), step.sent);
    var d2 := d1.(probe := Forget(d1.probe, d.nego.options, step.options));
    MetadataHands(cfg, d2);
    SnapshotHands(cfg, UpdateMetadata(cfg, d2));
  }

  lemma {:induction false} EnvironHands(cfg: Config, d: Session, payload: seq<byte>)
    requires d.nego.options.Valid()
    ensures Handed(HandleEnviron(cfg, d, payload).trace) == Handed(d.trace)
  {
    hide Handed;
    hide NewEnviron.Decode;
    hide ApplyVariables;
    hide UpdateMetadata;
    hide Options.Enabled;
    if payload != [] {
      MetadataHands(cfg, ApplyVariables(d, NewEnviron.Decode(payload[1..]).pairs));
    }
  }

  /** What an attached application is handed, and what the queue keeps for one to come. */
  predicate Taken(cfg: Config, d: Session, r: Session, heard: seq<Message>) {
    && r.mail.attached == d.mail.attached
    && (if d.mail.attached then r.mail == d.mail && Handed(r.trace) == Handed(d.trace) + if cfg.onGmcp then heard else []
        else
          && Handed(r.trace) == Handed(d.trace)
          && r.mail.queue == if cfg.onGmcp then FirstFour(d.mail.queue + Handshakes(heard)) else d.mail.queue)
  }

  lemma {:induction false} NothingTaken(cfg: Config, d: Session, r: Session)
    requires r.mail == d.mail && |d.mail.queue| <= 4 && Handed(r.trace) == Handed(d.trace)
    ensures Taken(cfg, d, r, [])
  {
    assert Handed(d.trace) + [] == Handed(d.trace);
    assert d.mail.queue + [] == d.mail.queue;
  }

  lemma {:induction false} GmcpIsTaken(cfg: Config, d: Session, payload: seq<byte>)
    requires d.nego.options.Valid() && |d.mail.queue| <= 4
    ensures Taken(cfg, d, HandleGmcp(cfg, d, payload), Heard(d, Framing.Sub(OPT_GMCP, payload)))
  {
    hide Handed;
    hide ParseMessage;
    hide SameIgnoringCase;
    hide IsHandshake;
    hide Options.Valid;
    hide Options.Enabled;
    hide React;
    hide Write;
    var heard := Heard(d, Framing.Sub(OPT_GMCP, payload));
    if heard == [] {
      NothingTaken(cfg, d, HandleGmcp(cfg, d, payload));
    } else {
      var m := heard[0];
      var ponged := Write(d, Report(OPT_GMCP, CORE_PING));
      AskHands(cfg, d, Gmcp(m));
      AskHands(cfg, ponged, Gmcp(m));
      hide Ask;
      assert heard == [m];
      OneHandshake(m);
      hide Handshakes;
      assert d.mail.queue + [] == d.mail.queue;
      assert |d.mail.queue| == 4 ==> (d.mail.queue + [m])[..4] == d.mail.queue;
    }
  }

  lemma {:induction false} OneHandshake(m: Message)
    ensures Handshakes([m]) == if IsHandshake(m.package) then [m] else []
  {
    assert Handshakes([m]) == (if IsHandshake(m.package) then [m] else []) + Handshakes([]);
  }

  lemma {:induction false} SubIsTaken(cfg: Config, d: Session, option: byte, payload: seq<byte>)
    requires d.nego.options.Valid() && |d.mail.queue| <= 4
    ensures Taken(cfg, d, FinishSub(cfg, d, option, payload), Heard(d, Framing.Sub(option, payload)))
  {
    hide Handed;
    hide Taken;
    hide Options.Valid;
    hide Options.Enabled;
    hide HandleNaws;
    hide HandleTtype;
    hide HandleCharset;
    hide HandleEnviron;
    hide HandleGmcp;
    if option == OPT_GMCP {
      GmcpIsTaken(cfg, d, payload);
    } else {
      EnvironHands(cfg, d, payload);
      NothingTaken(cfg, d, FinishSub(cfg, d, option, payload));
    }
  }

  // ----- Every event -----

  /** An event either lets the application in, and then nothing was heard, or is taken as above. */
  lemma {:induction false} EventIsTaken(cfg: Config, d: Session, e: Framing.Event, now: nat)
    requires d.nego.options.Valid() && |d.mail.queue| <= 4 && (d.mail.attached ==> d.auth.login.InGame?)
    ensures var r := Handle(cfg, d, e, now);
            var heard := Heard(d, e);
            if !d.mail.attached && r.mail.attached
            then heard == [] && r.mail.queue == [] && Handed(r.trace) == Handed(d.trace) + if cfg.onGmcp then d.mail.queue else []
            else Taken(cfg, d, r, heard)
  {
    hide Handed;
    hide Options.Valid;
    hide Options.Enabled;
    hide ReceiveByte;
    hide ReceiveControl;
    hide ReceiveNegotiation;
    hide FinishSub;
    hide Violation;
    hide Close;
    hide EchoMove;
    hide ParseMessage;
    var r := Handle(cfg, d, e, now);
    match e
    case Sub(option, payload) => SubIsTaken(cfg, d, option, payload);
    case Plain(b) =>
      ByteHands(cfg, d, b, now);
      if d.mail.attached || !r.mail.attached {
        NothingTaken(cfg, d, r);
      }
    case Negotiate(command, option) =>
      NegotiationHands(cfg, d, command, option);
      NothingTaken(cfg, d, r);
    case _ => NothingTaken(cfg, d, r);
  }

  // ----- Every run -----

  lemma {:induction false} FirstFourOfFirstFour(a: seq<Message>, b: seq<Message>)
    ensures FirstFour(FirstFour(a) + b) == FirstFour(a + b)
  {
  }

  lemma {:induction false} AssocMessages(a: seq<Message>, b: seq<Message>, c: seq<Message>)
    ensures a + (b + c) == a + b + c && a + [] == a
  {
  }

  /** `before` are the handshake messages heard so far, while the application is not there. */
  lemma {:induction false} MailAlongRun(cfg: Config, d: Session, before: seq<Message>, steps: seq<Step>)
    requires Safe(d) && cfg.onGmcp
    requires !d.mail.attached ==> Handed(d.trace) == [] && d.mail.queue == FirstFour(before)
    ensures var r := After(cfg, d, steps);
            var post := Gathered(cfg, d, steps);
            && (d.mail.attached ==> r.mail.attached && Handed(r.trace) == Handed(d.trace) + post.late)
            && (!d.mail.attached ==> Handed(r.trace) == if r.mail.attached then FirstFour(before + post.early) + post.late else [])
    decreases steps
  {
    hide Handed;
    hide Handle;
    hide Heard;
    hide Handshakes;
    if steps == [] || d.closed {
      assert Handed(d.trace) + [] == Handed(d.trace);
      assert FirstFour(before + []) == FirstFour(before);
    } else {
      assert MailOk(d.mail);
      var e, now, rest := steps[0].event, steps[0].now, steps[1..];
      EventKeepsSafe(cfg, d, e, now);
      EventIsTaken(cfg, d, e, now);
      var next, heard := Handle(cfg, d, e, now), Heard(d, e);
      var post := Gathered(cfg, next, rest);
      hide Safe;
      if d.mail.attached {
        MailAlongRun(cfg, next, before, rest);
        AssocMessages(Handed(d.trace), heard, post.late);
      } else if next.mail.attached {
        NoHandshakes();
        MailAlongRun(cfg, next, before, rest);
        AttachedHearsNoEarly(cfg, next, rest);
        AssocMessages(before, [], []);
        assert [] + FirstFour(before) == FirstFour(before);
      } else {
        FirstFourOfFirstFour(before, Handshakes(heard));
        MailAlongRun(cfg, next, before + Handshakes(heard), rest);
        AssocMessages(before, Handshakes(heard), post.early);
      }
    }
  }

  lemma {:induction false} NoHandshakes()
    ensures Handshakes([]) == []
  {
  }

  lemma {:induction false} AttachedHearsNoEarly(cfg: Config, d: Session, steps: seq<Step>)
    requires Safe(d) && d.mail.attached
    ensures Gathered(cfg, d, steps).early == []
    decreases steps
  {
    hide Handle;
    hide Handed;
    hide Heard;
    if steps != [] && !d.closed {
      assert MailOk(d.mail);
      EventKeepsSafe(cfg, d, steps[0].event, steps[0].now);
      EventIsTaken(cfg, d, steps[0].event, steps[0].now);
      hide Safe;
      AttachedHearsNoEarly(cfg, Handle(cfg, d, steps[0].event, steps[0].now), steps[1..]);
    }
  }

  lemma {:induction false} NothingHandedAlongRun(cfg: Config, d: Session, steps: seq<Step>)
    requires Safe(d) && !cfg.onGmcp
    ensures Handed(After(cfg, d, steps).trace) == Handed(d.trace)
    decreases steps
  {
    hide Handle;
    hide Handed;
    hide Heard;
    if steps != [] && !d.closed {
      assert MailOk(d.mail);
      EventKeepsSafe(cfg, d, steps[0].event, steps[0].now);
      EventIsTaken(cfg, d, steps[0].event, steps[0].now);
      hide Safe;
      AssocMessages(Handed(d.trace), [], []);
      NothingHandedAlongRun(cfg, Handle(cfg, d, steps[0].event, steps[0].now), steps[1..]);
    }
  }

  /**
   * Over every sequence of events from the start of a session: the application has been given
   * exactly the first four handshake messages heard before it was there, followed by every
   * message heard since, each once and in order; and nothing if it is not there or takes no
   * messages.
   */
  lemma {:induction false} MailIsDeliveredInOrder(cfg: Config, steps: seq<Step>)
    ensures var r := After(cfg, Started(cfg), steps);
            var post := Gathered(cfg, Started(cfg), steps);
            Handed(r.trace) == if r.mail.attached && cfg.onGmcp then FirstFour(post.early) + post.late else []
  {
    StartIsSafe(cfg);
    StartHandsNothing(cfg);
    hide Safe;
    hide After;
    hide Gathered;
    hide Handed;
    if cfg.onGmcp {
      MailAlongRun(cfg, Started(cfg), [], steps);
      var early := Gathered(cfg, Started(cfg), steps).early;
      assert [] + early == early;
    } else {
      NothingHandedAlongRun(cfg, Started(cfg), steps);
    }
    hide Started;
  }

  lemma {:induction false} StartHandsNothing(cfg: Config)
    ensures Handed(Started(cfg).trace) == [] && Started(cfg).mail == Mail([], false)
  {
    hide Prompt;
    hide Tell;
    hide RequestAll;
    hide AllOff;
    hide OfferedOptions;
  }

  /** The same of any byte stream in any chunks, as long as the session is open. */
  lemma {:induction false} MailOfEveryRun(cfg: Config, chunks: seq<Chunk>)
    ensures var r := Run(cfg, chunks).session;
            var post := Gathered(cfg, Started(cfg), StepsOf(Framing.Data, TicksOf(chunks)));
            !r.closed ==>
              Handed(r.trace) == if Credentials.Accepted(r.trace) && cfg.onGmcp then FirstFour(post.early) + post.late else []
  {
    var steps := RunIsEvents(cfg, chunks);
    MailIsDeliveredInOrder(cfg, steps);
    Credentials.EntryIsEarned(cfg, chunks);
    hide Run;
    hide After;
    hide Gathered;
    hide Handed;
    hide Credentials.Accepted;
    hide Credentials.Guarded;
    hide Credentials.Earned;
    hide Credentials.Opens;
    hide StepsOf;
    hide TicksOf;
  }
}
