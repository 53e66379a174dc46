/**
 * Lines on their way to the application. What is spoken is read off the calls made to it;
 * what it should be are the lines completed while it was there.
 */
module SpokenLines {
  import opened Bytes
  import opened QMethod
  import opened Dialog
  import opened DialogSafety
  import opened Telnet
  import opened TypedLines
  import Credentials
  import Framing
  import NewEnviron
  import RateWindow

  /** The lines that the application was given. */
  function Spoken(t: seq<Exchange>): seq<seq<byte>> {
    if t == [] then [] else Spoken(t[..|t| - 1]) + if t[|t| - 1].question.Line? then [t[|t| - 1].question.text] else []
  }

  // ----- Calls -----

  lemma {:induction false} AskSpeaks(cfg: Config, d: Session, q: Question)
    ensures Spoken(Ask(cfg, d, q).trace) == Spoken(d.trace) + if q.Line? then [q.text] else []
  {
    assert Ask(cfg, d, q).trace[..|d.trace|] == d.trace;
  }

  lemma {:induction false} AsksSpeak()
    ensures forall cfg: Config, d: Session, q: Question {:trigger Ask(cfg, d, q)} :: !q.Line? ==> Spoken(Ask(cfg, d, q).trace) == Spoken(d.trace)
  {
    hide *;
    forall cfg: Config, d: Session, q: Question ensures !q.Line? ==> Spoken(Ask(cfg, d, q).trace) == Spoken(d.trace) {
      AskSpeaks(cfg, d, q);
    }
  }

  lemma {:induction false} HandAllSpeaksNothing(cfg: Config, d: Session, ms: seq<Message>)
    ensures Spoken(HandAll(cfg, d, ms).trace) == Spoken(d.trace)
    decreases ms
  {
    hide React;
    hide Spoken;
    hide Ask;
    if ms != [] {
      AskSpeaks(cfg, d, Gmcp(ms[0]));
      HandAllSpeaksNothing(cfg, React(cfg, d, Gmcp(ms[0])), ms[1..]);
    }
  }

  lemma {:induction false} EnterSpeaksNothing(cfg: Config, d: Session)
    ensures Spoken(EnterGame(cfg, d).trace) == Spoken(d.trace)
  {
    AsksSpeak();
    hide Spoken;
    hide Ask;
    hide React;
    hide Prompt;
    hide Tell;
    hide Close;
    var d1 := React(cfg, d.(auth := d.auth.(login := InGame)), Open(d.auth.player));
    HandAllSpeaksNothing(cfg, d1.(mail := Mail([], true)), d1.mail.queue);
    hide HandAll;
  }

  // ----- Lines before the game -----

  lemma {:induction false} NameSpeaksNothing(cfg: Config, d: Session)
    requires d.nego.options.Valid() && d.auth.login.AtName?
    ensures Spoken(ProcessName(cfg, d).trace) == Spoken(d.trace)
  {
    Credentials.NameAsks(cfg, d);
    AskSpeaks(cfg, d, Exists(d.input.line));
    hide Spoken;
    hide ProcessName;
  }

  lemma {:induction false} NewSpeaksNothing(cfg: Config, d: Session)
    requires d.nego.options.Valid()
    ensures Spoken(ProcessNew(cfg, d).trace) == Spoken(d.trace)
  {
    AsksSpeak();
    hide Spoken;
    hide Ask;
    hide RequestOption;
    hide EchoMove;
    hide Options.Valid;
    hide Prompt;
    hide Tell;
    hide StartOver;
  }

  lemma {:induction false} PasswordSpeaksNothing(cfg: Config, d: Session)
    requires d.nego.options.Valid()
    ensures Spoken(ProcessPassword(cfg, d).trace) == Spoken(d.trace)
  {
    AsksSpeak();
    hide Spoken;
    hide Ask;
    hide RequestOption;
    hide EchoMove;
    hide Options.Valid;
    hide Prompt;
    hide Tell;
    hide Close;
    hide EchoOn;
    hide EnterGame;
    var name := d.auth.player;
    var verified := Ask(cfg, Ask(cfg, EraseLine(d), AllowAuth(name)), Verify(name, d.input.line));
    EnterSpeaksNothing(cfg, EchoOn(Ask(cfg, verified, NoteSuccess(name))));
  }

  lemma {:induction false} ConfirmSpeaksNothing(cfg: Config, d: Session)
    requires d.nego.options.Valid()
    ensures Spoken(ProcessConfirm(cfg, d).trace) == Spoken(d.trace)
  {
    AsksSpeak();
    hide Spoken;
    hide Ask;
    hide RequestOption;
    hide EchoMove;
    hide Options.Valid;
    hide Prompt;
    hide Tell;
    hide StartOver;
    hide EchoOn;
    hide EnterGame;
    var name, token := d.auth.player, TokenOf(d.auth);
    var matched := Ask(cfg, EraseLine(d), Matches(token, d.input.line));
    var created := Ask(cfg, Ask(cfg, matched, AllowCreation), CreateAccount(name, token));
    EnterSpeaksNothing(cfg, EchoOn(Ask(cfg, created.(auth := d.auth.(token := None)), NoteSuccess(name))));
  }

  // ----- Every event -----

  /** The application takes lines, and is there. */
  predicate Listening(cfg: Config, d: Session) {
    cfg.onLine && d.mail.attached
  }

  /** The lines that an event completed. */
  function Added(d: Session, r: Session): seq<seq<byte>>
    requires d.completed <= r.completed
  {
    r.completed[|d.completed|..]
  }

  /** A listening application is given what was completed, unless the session closes; any other nothing. */
  predicate Passes(cfg: Config, d: Session, r: Session) {
    && d.completed <= r.completed
    && (d.mail.attached ==> r.mail.attached)
    && (|| Spoken(r.trace) == Spoken(d.trace) + (if Listening(cfg, d) then Added(d, r) else [])
        || (Listening(cfg, d) && r.closed && Spoken(r.trace) == Spoken(d.trace)))
  }

  lemma {:induction false} NothingPasses(cfg: Config, d: Session, r: Session)
    requires r.completed == d.completed && (d.mail.attached ==> r.mail.attached) && Spoken(r.trace) == Spoken(d.trace)
    ensures Passes(cfg, d, r)
  {
    assert Added(d, r) == [];
    assert Spoken(d.trace) + [] == Spoken(d.trace);
  }

  /** The calls that a command makes. */
  lemma {:induction false} CommandCalls(cfg: Config, d: Session, now: nat)
    ensures var r := ProcessCommand(cfg, d, now);
            || (r.trace == d.trace && (Listening(cfg, d) ==> r.closed))
            || (Listening(cfg, d) && r.trace == Ask(cfg, d, Line(d.input.line)).trace)
  {
    hide Prompt;
    hide Tell;
    hide Close;
    hide React;
    hide RateWindow.Consume;
    hide SameIgnoringCase;
  }

  /** In the game a line goes to the application as it was typed. */
  lemma {:induction false} CommandSpeaks(cfg: Config, d: Session, now: nat)
    ensures var r := ProcessCommand(cfg, d, now);
            if Listening(cfg, d)
            then Spoken(r.trace) == Spoken(d.trace) + [d.input.line] || (r.closed && Spoken(r.trace) == Spoken(d.trace))
            else Spoken(r.trace) == Spoken(d.trace)
  {
    hide *;
    CommandCalls(cfg, d, now);
    AskSpeaks(cfg, d, Line(d.input.line));
  }

  lemma {:induction false} DispatchSpeaks(cfg: Config, d: Session, now: nat)
    requires d.nego.options.Valid() && (d.mail.attached ==> d.auth.login.InGame?)
    ensures var r := Dispatch(cfg, d, now);
            && (d.mail.attached ==> r.mail.attached)
            && (if Listening(cfg, d)
                then Spoken(r.trace) == Spoken(d.trace) + [d.input.line] || (r.closed && Spoken(r.trace) == Spoken(d.trace))
                else Spoken(r.trace) == Spoken(d.trace))
  {
    hide Spoken;
    hide ProcessName;
    hide ProcessPassword;
    hide ProcessNew;
    hide ProcessConfirm;
    hide ProcessCommand;
    hide RequestOption;
    hide EchoMove;
    hide Options.Valid;
    match d.auth.login
    case AtName => NameSpeaksNothing(cfg, d);
    case AtPassword => PasswordSpeaksNothing(cfg, d);
    case AtNewPassword => NewSpeaksNothing(cfg, d);
    case AtConfirm => ConfirmSpeaksNothing(cfg, d);
    case InGame => CommandSpeaks(cfg, d, now);
  }

  lemma {:induction false} LinePasses(cfg: Config, d: Session, now: nat)
    requires d.nego.options.Valid() && (d.mail.attached ==> d.auth.login.InGame?)
    ensures Passes(cfg, d, ProcessLine(cfg, d, now))
  {
    hide Spoken;
    hide RateWindow.Consume;
    hide Close;
    hide Overlong;
    hide Dispatch;
    hide EchoMove;
    hide Options.Valid;
    var c := RateWindow.Consume(d.lineWindow, 1, LINES_PER_WINDOW, LINES_SPAN, now);
    var r := ProcessLine(cfg, d, now);
    if c.allowed && !d.input.overflow {
      var lined := d.(lineWindow := c.window, completed := d.completed + [d.input.line]);
      DispatchSpeaks(cfg, lined, now);
      assert r.completed == d.completed + [d.input.line];
      assert Added(d, r) == [d.input.line];
      assert Spoken(d.trace) + [] == Spoken(d.trace);
    } else {
      NothingPasses(cfg, d, r);
    }
  }

  lemma {:induction false} BytePasses(cfg: Config, d: Session, b: byte, now: nat)
    requires d.nego.options.Valid() && (d.mail.attached ==> d.auth.login.InGame?)
    ensures Passes(cfg, d, ReceiveByte(cfg, d, b, now))
  {
    hide Spoken;
    hide ProcessLine;
    hide Append;
    hide EchoMove;
    hide Options.Valid;
    var d1 := d.(input := d.input.(pendingCr := false));
    if b == LF {
      LinePasses(cfg, d1, now);
      LinePasses(cfg, Append(d1, CR), now);
    } else {
      NothingPasses(cfg, d, ReceiveByte(cfg, d, b, now));
    }
  }

  lemma {:induction false} MetadataSpeaksNothing(cfg: Config, d: Session)
    requires d.nego.options.Valid()
    ensures Spoken(UpdateMetadata(cfg, d).trace) == Spoken(d.trace)
  {
    AsksSpeak();
    hide Spoken;
    hide Ask;
    hide ReadFlags;
    hide Bit;
    hide React;
    hide RequestTtype;
    hide RequestCharset;
    hide RequestEnviron;
    hide Options.Valid;
  }

  lemma {:induction false} NegotiationSpeaksNothing(cfg: Config, d: Session, command: byte, option: byte)
    requires d.nego.options.Valid()
    ensures Spoken(ReceiveNegotiation(cfg, d, command, option).trace) == Spoken(d.trace)
  {
    hide Spoken;
    hide ReceiveOption;
    hide Accepts;
    hide Forget;
    hide WriteCommands;
    hide UpdateMetadata;
    hide Options.Valid;
    hide Options.Enabled;
    hide Write;
    var step := ReceiveOption(d.nego.options, command, option, Accepts(cfg, d.nego.echo, Concerns(command), option));
    var d1 := WriteCommands(d.(nego := d.nego.(options := step.options)), step.sent);
    var d2 := d1.(probe := Forget(d1.probe, d.nego.options, step.options));
    MetadataSpeaksNothing(cfg, d2);
    AskSpeaks(cfg, UpdateMetadata(cfg, d2), Snapshot);
    hide Ask;
  }

  lemma {:induction false} SubSpeaksNothing(cfg: Config, d: Session, option: byte, payload: seq<byte>)
    requires d.nego.options.Valid()
    ensures Spoken(FinishSub(cfg, d, option, payload).trace) == Spoken(d.trace)
  {
    hide Spoken;
    hide HandleNaws;
    hide HandleTtype;
    hide HandleCharset;
    hide Options.Valid;
    hide Options.Enabled;
    if option == OPT_NEW_ENVIRON {
      hide HandleGmcp;
      EnvironSpeaksNothing(cfg, d, payload);
      hide HandleEnviron;
    } else if option == OPT_GMCP {
      hide HandleEnviron;
      GmcpSpeaksNothing(cfg, d, payload);
      hide HandleGmcp;
    }
  }

  lemma {:induction false} EnvironSpeaksNothing(cfg: Config, d: Session, payload: seq<byte>)
    requires d.nego.options.Valid()
    ensures Spoken(HandleEnviron(cfg, d, payload).trace) == Spoken(d.trace)
  {
    hide Spoken;
    hide NewEnviron.Decode;
    hide ApplyVariables;
    hide UpdateMetadata;
    hide Options.Enabled;
    if payload != [] {
      MetadataSpeaksNothing(cfg, ApplyVariables(d, NewEnviron.Decode(payload[1..]).pairs));
    }
  }

  lemma {:induction false} GmcpSpeaksNothing(cfg: Config, d: Session, payload: seq<byte>)
    requires d.nego.options.Valid()
    ensures Spoken(HandleGmcp(cfg, d, payload).trace) == Spoken(d.trace)
  {
    AsksSpeak();
    hide Spoken;
    hide Ask;
    hide React;
    hide Write;
    hide ParseMessage;
    hide SameIgnoringCase;
    hide Enqueue;
    hide Options.Enabled;
  }

  lemma {:induction false} EventPasses(cfg: Config, d: Session, e: Framing.Event, now: nat)
    requires d.nego.options.Valid() && (d.mail.attached ==> d.auth.login.InGame?)
    ensures Passes(cfg, d, Handle(cfg, d, e, now))
  {
    hide Spoken;
    hide Options.Valid;
    hide ReceiveByte;
    hide ReceiveControl;
    hide ReceiveNegotiation;
    hide FinishSub;
    hide Violation;
    hide Close;
    hide EchoMove;
    hide Passes;
    var r := Handle(cfg, d, e, now);
    match e
    case Plain(b) => BytePasses(cfg, d, b, now);
    case Negotiate(command, option) =>
      NegotiationSpeaksNothing(cfg, d, command, option);
      NothingPasses(cfg, d, r);
    case Sub(option, payload) =>
      SubSpeaksNothing(cfg, d, option, payload);
      Credentials.SubKeepsAttached(cfg, d, option, payload);
      NothingPasses(cfg, d, r);
    case _ => NothingPasses(cfg, d, r);
  }

  // ----- Every run -----

  /** The lines completed while the application was listening. */
  function Uttered(cfg: Config, d: Session, steps: seq<Step>): seq<seq<byte>>
    requires d.nego.options.Valid()
    decreases steps
  {
    if steps == [] || d.closed then []
    else
      var next := Handle(cfg, d, steps[0].event, steps[0].now);
      HandleOnlyAdds(cfg, d, steps[0].event, steps[0].now);
      (if Listening(cfg, d) then Added(d, next) else []) + Uttered(cfg, next, steps[1..])
  }

  lemma {:induction false} SpokenAlongRun(cfg: Config, d: Session, steps: seq<Step>)
    requires Safe(d)
    ensures var r := After(cfg, d, steps);
            var all := Spoken(d.trace) + Uttered(cfg, d, steps);
            && Spoken(r.trace) <= all && (!r.closed ==> Spoken(r.trace) == all)
            && d.completed <= r.completed && (d.mail.attached ==> r.mail.attached)
            && (Listening(cfg, d) ==> Uttered(cfg, d, steps) == Added(d, r))
    decreases steps
  {
    hide Spoken;
    hide Handle;
    if steps == [] || d.closed {
      assert Spoken(d.trace) + [] == Spoken(d.trace);
      assert Added(d, d) == [];
    } else {
      var next, rest := Handle(cfg, d, steps[0].event, steps[0].now), steps[1..];
      EventKeepsSafe(cfg, d, steps[0].event, steps[0].now);
      EventPasses(cfg, d, steps[0].event, steps[0].now);
      hide Safe;
      SpokenAlongRun(cfg, next, rest);
      var r := After(cfg, next, rest);
      if Listening(cfg, d) {
        AddedJoins(d.completed, next.completed, r.completed);
        AssocLines(Spoken(d.trace), Added(d, next), Uttered(cfg, next, rest));
        ClosedEndsThere(cfg, next, rest);
      } else {
        assert [] + Uttered(cfg, next, rest) == Uttered(cfg, next, rest);
      }
    }
  }

  lemma {:induction false} AddedJoins(a: seq<seq<byte>>, b: seq<seq<byte>>, c: seq<seq<byte>>)
    requires a <= b && b <= c
    ensures b[|a|..] + c[|b|..] == c[|a|..]
  {
  }

  lemma {:induction false} ClosedEndsThere(cfg: Config, d: Session, steps: seq<Step>)
    requires d.nego.options.Valid()
    ensures d.closed ==> After(cfg, d, steps) == d && Uttered(cfg, d, steps) == []
  {
  }

  /**
   * Over every sequence of events from the start of a session: the application has been given
   * the first of the lines that were completed while it was listening, once, in order and as
   * typed, and all of them while the session is open.
   */
  lemma {:induction false} LinesAreSpokenInOrder(cfg: Config, steps: seq<Step>)
    ensures var r := After(cfg, Started(cfg), steps);
            var all := Uttered(cfg, Started(cfg), steps);
            Spoken(r.trace) <= all && (!r.closed ==> Spoken(r.trace) == all)
  {
    StartIsSafe(cfg);
    StartSpeaksNothing(cfg);
    SpokenAlongRun(cfg, Started(cfg), steps);
    var all := Uttered(cfg, Started(cfg), steps);
    assert [] + all == all;
    hide Safe;
    hide Started;
    hide After;
    hide Uttered;
    hide Spoken;
  }

  lemma {:induction false} StartSpeaksNothing(cfg: Config)
    ensures Spoken(Started(cfg).trace) == []
  {
    hide Prompt;
    hide Tell;
    hide RequestAll;
    hide AllOff;
    hide OfferedOptions;
  }

  // ----- From the keyboard to the application -----

  /** A line typed in the game keeps the player there, and an overlong one ends the session. */
  lemma {:induction false} LineInGame(cfg: Config, d: Session, line: seq<byte>, now: nat)
    requires d.nego.options.Valid() && d.mail.attached && d.auth.login.InGame?
    ensures var r := DoLine(cfg, d, line, now);
            r.mail.attached && r.auth.login.InGame? && (Peak(line) > Limit(d.auth.login) ==> r.closed)
  {
    hide ProcessCommand;
    hide Close;
    hide RateWindow.Consume;
    hide Options.Valid;
    hide EchoMove;
    hide Edited;
    hide Peak;
  }

  lemma {:induction false} FittingInGame(cfg: Config, d: Session, lines: seq<seq<byte>>, ticks: seq<Tick>)
    requires d.nego.options.Valid() && d.mail.attached && d.auth.login.InGame? && Carries(ticks, lines)
    ensures Fitting(cfg, d, lines, ticks) <= Meant(lines)
    ensures !DoLines(cfg, d, lines, ticks).closed ==> Fitting(cfg, d, lines, ticks) == Meant(lines)
    decreases lines
  {
    hide *;
    if lines != [] && !d.closed {
      FittingSteps(cfg, d, lines, ticks);
      var n := Length(lines[0]);
      var rest, later := lines[1..], ticks[n..];
      var next := DoLine(cfg, d, lines[0], ticks[n - 1].now);
      LineInGame(cfg, d, lines[0], ticks[n - 1].now);
      if next.closed {
        NothingFits(cfg, next, rest, later);
      }
      FittingInGame(cfg, next, rest, later);
      MeantSplits(lines);
    } else {
      NothingFits(cfg, d, lines, ticks);
      MeantNothing(lines);
    }
  }

  /** What a run adds to the lines spoken are the lines it completed, as far as it gets. */
  lemma {:induction false} ChunksAreSpoken(cfg: Config, c: Conn, chunks: seq<Chunk>)
    requires Valid(c) && Safe(c.session) && Listening(cfg, c.session)
    ensures var d, r := c.session, FeedChunks(cfg, c, chunks).session;
            && d.completed <= r.completed
            && Spoken(r.trace) <= Spoken(d.trace) + Added(d, r)
            && (!r.closed ==> Spoken(r.trace) == Spoken(d.trace) + Added(d, r))
  {
    var ticks := ChunksAreTicks(cfg, c, chunks);
    FeedIsReading(cfg, c, ticks);
    SpokenAlongRun(cfg, c.session, StepsOf(c.scan, ticks));
    hide Spoken;
    hide After;
    hide Uttered;
    hide Feed;
    hide FeedChunks;
    hide Close;
    hide StepsOf;
    hide Safe;
    hide TicksOf;
  }

  lemma {:induction false} PrefixJoins(a: seq<seq<byte>>, b: seq<seq<byte>>, c: seq<seq<byte>>, s: seq<seq<byte>>, t: seq<seq<byte>>)
    requires a <= b && b <= a + c && s <= t + b[|a|..]
    ensures s <= t + c
    ensures b == a + c && s == t + b[|a|..] ==> s == t + c
  {
  }

  lemma {:induction false} PrefixExtends(s: seq<seq<byte>>, t: seq<seq<byte>>, b: seq<seq<byte>>, c: seq<seq<byte>>)
    requires s <= t + b && b <= c
    ensures s <= t + c
  {
  }

  /**
   * Lines typed at the client by a player whose application listens, cut into any chunks at
   * any times: the application is given the first of them, in order and as edited, and every
   * one of them while the session stays open.
   */
  lemma {:induction false} TypedLinesAreSpoken(cfg: Config, c: Conn, lines: seq<seq<byte>>, chunks: seq<Chunk>)
    requires Valid(c) && Safe(c.session) && Listening(cfg, c.session)
    requires c.scan == Framing.Data && c.session.input == NO_INPUT
    requires AllTypable(lines) && Carries(TicksOf(chunks), lines)
    ensures var r := FeedChunks(cfg, c, chunks).session;
            && Spoken(r.trace) <= Spoken(c.session.trace) + Meant(lines)
            && (!r.closed ==> Spoken(r.trace) == Spoken(c.session.trace) + Meant(lines))
  {
    var d, r := c.session, FeedChunks(cfg, c, chunks).session;
    var ticks := TicksOf(chunks);
    assert d.auth.login.InGame?;
    hide *;
    ChunksAreSpoken(cfg, c, chunks);
    TypedLinesArrive(cfg, c, lines, chunks);
    FittingInGame(cfg, d, lines, ticks);
    var fit := Fitting(cfg, d, lines, ticks);
    AddedIs(d, r);
    PrefixJoins(d.completed, r.completed, fit, Spoken(r.trace), Spoken(d.trace));
    PrefixExtends(Spoken(r.trace), Spoken(d.trace), fit, Meant(lines));
  }

  lemma {:induction false} AddedIs(d: Session, r: Session)
    requires d.completed <= r.completed
    ensures Added(d, r) == r.completed[|d.completed|..]
  {
  }
}
