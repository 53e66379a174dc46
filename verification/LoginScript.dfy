/**
 * The login dialogue as a script that only the answers drive: where a session is, for which
 * name and with which prepared password, follows from what the account store and the abuse
 * policy have answered so far, and so does whom every further question is about.
 */
module LoginScript {
  import opened Bytes
  import opened QMethod
  import opened Dialog
  import opened DialogSafety
  import opened Telnet
  import opened Credentials
  import Framing
  import PlayerRecord
  import RateWindow

  datatype Place = Place(login: Login, name: seq<byte>, token: seq<byte>)

  const OUTSIDE := Place(AtName, [], [])

  /** Where an answer leads. */
  function Walk(p: Place, x: Exchange): Place {
    var code := x.answer.code;
    match x.question
    case Exists(name) =>
      if code < 0 then OUTSIDE else if code == 1 then Place(AtPassword, name, []) else Place(AtNewPassword, name, [])
    case Verify(_, _) => if code == 1 then Place(InGame, p.name, []) else p
    case Prepare(_) => if code == 0 then Place(AtConfirm, p.name, x.answer.bytes) else OUTSIDE
    case Matches(_, _) => if code == 1 then p else Place(AtNewPassword, p.name, [])
    case AllowCreation => if code == 0 then OUTSIDE else p
    case CreateAccount(_, _) => if code == 0 then Place(InGame, p.name, []) else OUTSIDE
    case _ => p
  }

  function Follow(t: seq<Exchange>): Place {
    if t == [] then OUTSIDE else Walk(Follow(t[..|t| - 1]), t[|t| - 1])
  }

  /** A question about a player is about the one the script has reached, and so is a token. */
  predicate Proper(p: Place, q: Question) {
    match q
    case AllowAuth(name) => name == p.name
    case Verify(name, _) => name == p.name
    case NoteFailure(name) => name == p.name
    case NoteSuccess(name) => name == p.name
    case Suitable(name, _) => name == p.name
    case Open(name) => name == p.name
    case Matches(token, _) => token == p.token
    case CreateAccount(name, token) => name == p.name && token == p.token
    case _ => true
  }

  predicate AllProper(t: seq<Exchange>) {
    t == [] || (AllProper(t[..|t| - 1]) && Proper(Follow(t[..|t| - 1]), t[|t| - 1].question))
  }

  /** A confirmation can be given up without an answer: by an interrupt, or an overlong line. */
  predicate Matching(a: Auth, p: Place) {
    && a.player == p.name
    && (|| (a.login == p.login && (a.login.AtConfirm? ==> a.token == Some(p.token)))
        || (a.login.AtNewPassword? && p.login.AtConfirm?))
  }

  predicate OnScript(d: Session) {
    AllProper(d.trace) && Matching(d.auth, Follow(d.trace))
  }

  // ----- How the script grows -----

  lemma {:induction false} FollowSnoc(t: seq<Exchange>, x: Exchange)
    ensures Follow(t + [x]) == Walk(Follow(t), x)
    ensures AllProper(t + [x]) <==> AllProper(t) && Proper(Follow(t), x.question)
  {
    assert (t + [x])[..|t|] == t;
  }

  lemma {:induction false} NeutralsFollow(a: seq<Exchange>, b: seq<Exchange>)
    requires Neutrals(a, b)
    ensures Follow(b) == Follow(a) && (AllProper(a) ==> AllProper(b))
    decreases b
  {
    if |a| == |b| {
      assert a == b;
    } else {
      var front := b[..|b| - 1];
      assert a <= front;
      NeutralsFollow(a, front);
    }
  }

  lemma {:induction false} NeutralKeeps(d: Session, r: Session)
    requires OnScript(d) && Neutrals(d.trace, r.trace) && r.auth == d.auth
    ensures OnScript(r)
  {
    NeutralsFollow(d.trace, r.trace);
    hide Follow;
    hide AllProper;
    hide Neutrals;
  }

  lemma {:induction false} Same(d: Session, r: Session)
    requires OnScript(d) && r.trace == d.trace && r.auth == d.auth
    ensures OnScript(r)
  {
  }

  // ----- Lines -----

  lemma {:induction false} NameFollows(cfg: Config, d: Session)
    requires OnScript(d) && d.auth.login.AtName? && d.nego.options.Valid()
    ensures OnScript(ProcessName(cfg, d))
  {
    NameLeads(cfg, d);
    FollowSnoc(d.trace, Exchange(Exists(d.input.line), cfg.tape(|d.trace|)));
    hide ProcessName;
    hide Follow;
    hide AllProper;
    hide PlayerRecord.NameValid;
  }

  /** A valid name is asked for: an existing account leads to its password, an unknown one to creation. */
  lemma {:induction false} NameLeads(cfg: Config, d: Session)
    requires d.auth.login.AtName? && d.nego.options.Valid()
    ensures var r := ProcessName(cfg, d);
            var x := Exchange(Exists(d.input.line), cfg.tape(|d.trace|));
            if !PlayerRecord.NameValid(d.input.line) then r.trace == d.trace && r.auth == d.auth
            else
              && r.trace == d.trace + [x]
              && r.auth.login == (if x.answer.code < 0 then AtName else if x.answer.code == 1 then AtPassword else AtNewPassword)
              && r.auth.player == if x.answer.code < 0 then [] else d.input.line
  {
    hide QMethod.RequestOption;
    hide EchoMove;
    hide Options.Valid;
    hide Prompt;
    hide Tell;
    hide EchoOff;
    hide Warn;
    hide PlayerRecord.NameValid;
  }

  lemma {:induction false} NewLeads(cfg: Config, d: Session)
    requires d.auth.login.AtNewPassword? && d.nego.options.Valid()
    ensures var r := ProcessNew(cfg, d);
            var s := Exchange(Suitable(d.auth.player, d.input.line), cfg.tape(|d.trace|));
            var p := Exchange(Prepare(d.input.line), cfg.tape(|d.trace| + 1));
            if |d.input.line| < 8 then r.trace == d.trace && r.auth == d.auth
            else if s.answer.code != 1 then r.trace == d.trace + [s] && r.auth == d.auth
            else
              && r.trace == d.trace + [s] + [p]
              && (if p.answer.code == 0 then r.auth == d.auth.(login := AtConfirm, token := Some(p.answer.bytes))
                  else r.auth.login.AtName? && r.auth.player == [])
  {
    hide QMethod.RequestOption;
    hide EchoMove;
    hide Options.Valid;
    hide Prompt;
    hide Tell;
    hide StartOver;
  }

  lemma {:induction false} NewFollows(cfg: Config, d: Session)
    requires OnScript(d) && d.auth.login.AtNewPassword? && d.nego.options.Valid()
    ensures OnScript(ProcessNew(cfg, d))
  {
    hide ProcessNew;
    hide Follow;
    hide AllProper;
    hide Options.Valid;
    var s := Exchange(Suitable(d.auth.player, d.input.line), cfg.tape(|d.trace|));
    var p := Exchange(Prepare(d.input.line), cfg.tape(|d.trace| + 1));
    NewLeads(cfg, d);
    if |d.input.line| < 8 {
      Same(d, ProcessNew(cfg, d));
    } else {
      FollowSnoc(d.trace, s);
      if s.answer.code == 1 {
        FollowSnoc(d.trace + [s], p);
      }
    }
  }

  /** Entering asks about the player alone. */
  lemma {:induction false} EnterFollows(cfg: Config, d: Session)
    requires AllProper(d.trace) && Follow(d.trace).login.InGame? && Follow(d.trace).name == d.auth.player && !d.mail.attached
    ensures OnScript(EnterGame(cfg, d))
  {
    EnterAsks(cfg, d);
    var r := EnterGame(cfg, d);
    var x := Exchange(Open(d.auth.player), cfg.tape(|d.trace|));
    FollowSnoc(d.trace, x);
    if cfg.open {
      NeutralsFollow(d.trace + [x], r.trace);
    }
    hide EnterGame;
    hide Follow;
    hide AllProper;
    hide Neutrals;
  }

  lemma {:induction false} PasswordFollows(cfg: Config, d: Session)
    requires OnScript(d) && d.auth.login.AtPassword? && d.nego.options.Valid() && !d.mail.attached
    ensures OnScript(ProcessPassword(cfg, d))
  {
    hide ProcessPassword;
    hide EnterGame;
    hide Follow;
    hide AllProper;
    hide Options.Valid;
    var name, n, t := d.auth.player, |d.trace|, d.trace;
    var a := Exchange(AllowAuth(name), cfg.tape(n));
    var b := Exchange(Verify(name, d.input.line), cfg.tape(n + 1));
    FollowSnoc(t, a);
    FollowSnoc(t + [a], b);
    if a.answer.code == 0 || b.answer.code != 1 {
      PasswordFails(cfg, d, a, b);
      var bad, again := Exchange(NoteFailure(name), cfg.tape(n + 2)), Exchange(AllowAuth(name), cfg.tape(n + 3));
      FollowSnoc(t + [a] + [b], bad);
      FollowSnoc(t + [a] + [b] + [bad], again);
      Snoc4(t, a, b, bad, again);
    } else {
      var e := PasswordSucceeds(cfg, d, a, b);
      var ok := Exchange(NoteSuccess(name), cfg.tape(n + 2));
      FollowSnoc(t + [a] + [b], ok);
      Snoc4(t, a, b, ok, ok);
      EnterFollows(cfg, e);
    }
  }

  lemma {:induction false} ConfirmFollows(cfg: Config, d: Session)
    requires OnScript(d) && d.auth.login.AtConfirm? && d.nego.options.Valid() && !d.mail.attached
    ensures OnScript(ProcessConfirm(cfg, d))
  {
    hide ProcessConfirm;
    hide EnterGame;
    hide Follow;
    hide AllProper;
    hide Options.Valid;
    var name, token, n, t := d.auth.player, TokenOf(d.auth), |d.trace|, d.trace;
    var a := Exchange(Matches(token, d.input.line), cfg.tape(n));
    var b := Exchange(AllowCreation, cfg.tape(n + 1));
    var c := Exchange(CreateAccount(name, token), cfg.tape(n + 2));
    FollowSnoc(t, a);
    FollowSnoc(t + [a], b);
    FollowSnoc(t + [a] + [b], c);
    var ok := Exchange(NoteSuccess(name), cfg.tape(n + 3));
    Snoc4(t, a, b, c, ok);
    if a.answer.code != 1 || b.answer.code == 0 || c.answer.code != 0 {
      ConfirmFails(cfg, d, a, b, c);
      ConfirmLeads(cfg, d, a, b, c);
    } else {
      var e := ConfirmSucceeds(cfg, d, a, b, c);
      FollowSnoc(t + [a] + [b] + [c], ok);
      EnterFollows(cfg, e);
    }
  }

  lemma {:induction false} ConfirmLeads(cfg: Config, d: Session, a: Exchange, b: Exchange, c: Exchange)
    requires d.nego.options.Valid() && d.auth.login.AtConfirm?
    requires a == Exchange(Matches(TokenOf(d.auth), d.input.line), cfg.tape(|d.trace|))
    requires b == Exchange(AllowCreation, cfg.tape(|d.trace| + 1))
    requires c == Exchange(CreateAccount(d.auth.player, TokenOf(d.auth)), cfg.tape(|d.trace| + 2))
    requires a.answer.code != 1 || b.answer.code == 0 || c.answer.code != 0
    ensures var r := ProcessConfirm(cfg, d).auth;
            if a.answer.code != 1 then r == Auth(AtNewPassword, d.auth.player, None) else r == Auth(AtName, [], None)
  {
    hide QMethod.RequestOption;
    hide EchoMove;
    hide Options.Valid;
    hide Prompt;
    hide Tell;
    hide StartOver;
    hide EnterGame;
    hide EchoOn;
  }

  lemma {:induction false} DispatchFollows(cfg: Config, d: Session, now: nat)
    requires OnScript(d) && d.nego.options.Valid() && (d.mail.attached ==> d.auth.login.InGame?)
    ensures OnScript(Dispatch(cfg, d, now))
  {
    hide ProcessName;
    hide ProcessPassword;
    hide ProcessNew;
    hide ProcessConfirm;
    hide ProcessCommand;
    hide QMethod.RequestOption;
    hide EchoMove;
    hide Options.Valid;
    hide OnScript;
    hide Neutrals;
    match d.auth.login
    case AtName => NameFollows(cfg, d);
    case AtPassword => PasswordFollows(cfg, d);
    case AtNewPassword => NewFollows(cfg, d);
    case AtConfirm => ConfirmFollows(cfg, d);
    case InGame =>
      CommandAsks(cfg, d, now);
      NeutralKeeps(d, ProcessCommand(cfg, d, now));
  }

  lemma {:induction false} OverlongFollows(d: Session)
    requires OnScript(d)
    ensures OnScript(Overlong(d))
  {
    hide Prompt;
    hide Tell;
    hide Close;
    hide Follow;
    hide AllProper;
  }

  lemma {:induction false} LineFollows(cfg: Config, d: Session, now: nat)
    requires OnScript(d) && d.nego.options.Valid() && (d.mail.attached ==> d.auth.login.InGame?)
    ensures OnScript(ProcessLine(cfg, d, now))
  {
    hide OnScript;
    hide RateWindow.Consume;
    hide Close;
    hide Overlong;
    hide Dispatch;
    hide EchoMove;
    hide Options.Valid;
    var c := RateWindow.Consume(d.lineWindow, 1, LINES_PER_WINDOW, LINES_SPAN, now);
    var r := ProcessLine(cfg, d, now);
    var counted := d.(lineWindow := c.window);
    var cleared := d.input.(line := [], overflow := false);
    if !c.allowed {
      Same(d, r);
    } else if d.input.overflow {
      Same(d, counted.(input := cleared));
      OverlongFollows(counted.(input := cleared));
    } else {
      var lined := counted.(completed := d.completed + [d.input.line]);
      Same(d, lined);
      DispatchFollows(cfg, lined, now);
      Same(Dispatch(cfg, lined, now), r);
    }
  }

  // ----- Every event and every run -----

  lemma {:induction false} ByteFollows(cfg: Config, d: Session, b: byte, now: nat)
    requires OnScript(d) && d.nego.options.Valid() && (d.mail.attached ==> d.auth.login.InGame?)
    ensures OnScript(ReceiveByte(cfg, d, b, now))
  {
    hide OnScript;
    hide ProcessLine;
    hide Append;
    hide EchoMove;
    hide Options.Valid;
    var d1 := d.(input := d.input.(pendingCr := false));
    var d2 := if d.input.pendingCr then Append(d1, CR) else d1;
    if b == LF {
      Same(d, d1);
      Same(d, d2);
      LineFollows(cfg, d1, now);
      LineFollows(cfg, d2, now);
    } else {
      Same(d, ReceiveByte(cfg, d, b, now));
    }
  }

  lemma {:induction false} ControlFollows(d: Session, command: byte)
    requires OnScript(d)
    ensures OnScript(ReceiveControl(d, command))
  {
    hide CurrentPrompt;
    hide Tell;
    hide Violation;
    hide Follow;
    hide AllProper;
  }

  lemma {:induction false} EventFollows(cfg: Config, d: Session, e: Framing.Event, now: nat)
    requires OnScript(d) && d.nego.options.Valid() && (d.mail.attached ==> d.auth.login.InGame?)
    ensures OnScript(Handle(cfg, d, e, now))
  {
    hide OnScript;
    hide Neutrals;
    hide ReceiveByte;
    hide ReceiveControl;
    hide ReceiveNegotiation;
    hide FinishSub;
    hide Violation;
    hide Close;
    hide Options.Valid;
    hide EchoMove;
    match e
    case Plain(b) => ByteFollows(cfg, d, b, now);
    case Control(command) => ControlFollows(d, command);
    case Negotiate(command, option) =>
      NegotiationIsNeutral(cfg, d, command, option);
      NeutralKeeps(d, ReceiveNegotiation(cfg, d, command, option));
    case Sub(option, payload) =>
      SubIsNeutral(cfg, d, option, payload);
      NeutralKeeps(d, FinishSub(cfg, d, option, payload));
    case Quiet =>
    case Malformed => Same(d, Violation(d));
    case Overflow => Same(d, Close(d, Some(ProtocolError)));
  }

  lemma {:induction false} StepsFollow(cfg: Config, d: Session, steps: seq<Step>)
    requires OnScript(d) && Safe(d)
    ensures OnScript(After(cfg, d, steps))
    decreases steps
  {
    hide OnScript;
    hide Handle;
    if steps != [] && !d.closed {
      EventKeepsSafe(cfg, d, steps[0].event, steps[0].now);
      EventFollows(cfg, d, steps[0].event, steps[0].now);
      hide Safe;
      StepsFollow(cfg, Handle(cfg, d, steps[0].event, steps[0].now), steps[1..]);
    }
  }

  lemma {:induction false} StartIsOnScript(cfg: Config)
    ensures OnScript(Started(cfg))
  {
    hide Prompt;
    hide Tell;
    hide RequestAll;
    hide AllOff;
    hide OfferedOptions;
  }

  /**
   * After any byte stream, against any answers: the login state, the name and the prepared
   * password of a session are those that the script reaches with the answers given so far,
   * except that a confirmation may have been given up for a new password; and every question
   * it has asked was about the player and the token that the script had reached by then.
   */
  lemma {:induction false} AnswersDriveTheLogin(cfg: Config, chunks: seq<Chunk>)
    ensures var d := Run(cfg, chunks).session;
            AllProper(d.trace) && Matching(d.auth, Follow(d.trace))
  {
    var steps := RunIsEvents(cfg, chunks);
    StartIsOnScript(cfg);
    StartIsSafe(cfg);
    StepsFollow(cfg, Started(cfg), steps);
    Same(After(cfg, Started(cfg), steps), Run(cfg, chunks).session);
    hide Run;
    hide After;
    hide Close;
    hide Safe;
    hide AllProper;
    hide Follow;
    hide Matching;
  }
}
