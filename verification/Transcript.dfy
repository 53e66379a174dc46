/**
 * What a whole session shows: when it ends and why, what the application wrote, the warning
 * about an insecure transport, and the prompt that is on the screen.
 */
module Transcript {
  import opened Bytes
  import opened QMethod
  import opened Dialog
  import opened DialogSafety
  import opened Telnet
  import Discovery
  import Framing
  import NewEnviron
  import PlayerRecord
  import RateWindow

  // ----- Reading the output and the calls -----

  /** The last word of a session. */
  predicate Final(n: Notice) {
    n.LineFlood? || n.CommandFlood? || n.ByteFlood? || n.ProtocolError? || n.Goodbye? || n.LockedOut?
  }

  predicate IsPrompt(n: Notice) {
    n.NamePrompt? || n.PasswordPrompt? || n.CreatePrompt? || n.ConfirmPrompt? || n.GamePrompt?
  }

  predicate Ordinary(n: Notice) {
    !Final(n) && !n.LineTooLong? && !n.InsecureTransport?
  }

  predicate Farewell(out: seq<Output>) {
    out != [] && (Farewell(out[..|out| - 1]) || (out[|out| - 1].Say? && Final(out[|out| - 1].notice)))
  }

  predicate Told(out: seq<Output>, n: Notice) {
    out != [] && (Told(out[..|out| - 1], n) || out[|out| - 1] == Say(n))
  }

  predicate CutOff(out: seq<Output>) {
    out != [] && out[|out| - 1] == Say(LineTooLong)
  }

  function Warnings(out: seq<Output>): nat {
    if out == [] then 0 else Warnings(out[..|out| - 1]) + if out[|out| - 1] == Say(InsecureTransport) then 1 else 0
  }

  function Texts(out: seq<Output>): seq<seq<byte>> {
    if out == [] then []
    else Texts(out[..|out| - 1]) + if out[|out| - 1].AppText? then [out[|out| - 1].bytes] else []
  }

  /** The prompt on the screen; before the first one, the banner. */
  function LastPrompt(out: seq<Output>): Notice {
    if out == [] then Banner
    else if out[|out| - 1].Say? && IsPrompt(out[|out| - 1].notice) then out[|out| - 1].notice
    else LastPrompt(out[..|out| - 1])
  }

  predicate ToApplication(q: Question) {
    q.Open? || q.Line? || q.Gmcp? || q.Capabilities?
  }

  /** What the application wrote during its calls. */
  function Voiced(trace: seq<Exchange>): seq<seq<byte>> {
    if trace == [] then []
    else
      var x := trace[|trace| - 1];
      Voiced(trace[..|trace| - 1]) + if ToApplication(x.question) && x.answer.bytes != [] then [x.answer.bytes] else []
  }

  /** The latest call reported a failed login. */
  predicate Noted(trace: seq<Exchange>) {
    trace != [] && trace[|trace| - 1].question.NoteFailure?
  }

  /** A call that ends the session, by its place in the calls and its answer. */
  predicate Parting(before: seq<Exchange>, x: Exchange) {
    match x.question
    case Open(_) => x.answer.close || x.answer.code == 0
    case Line(_) => x.answer.close || x.answer.code != 0
    case Gmcp(_) => x.answer.close
    case Capabilities => x.answer.close
    case AllowAuth(_) => x.answer.code == 0 && Noted(before)
    case _ => false
  }

  predicate Dismissed(trace: seq<Exchange>) {
    trace != [] && (Dismissed(trace[..|trace| - 1]) || Parting(trace[..|trace| - 1], trace[|trace| - 1]))
  }

  /** Some name was looked up without an error. */
  predicate Met(trace: seq<Exchange>) {
    trace != [] && (Met(trace[..|trace| - 1]) || (trace[|trace| - 1].question.Exists? && trace[|trace| - 1].answer.code >= 0))
  }

  // ----- The books -----

  /** `over`: some report of the peer overran its buffer. */
  predicate Accounted(secure: bool, over: bool, out: seq<Output>, trace: seq<Exchange>, closed: bool, warned: bool, violations: nat) {
    && (closed <==> Dismissed(trace) || Farewell(out) || CutOff(out))
    && (if closed then Texts(out) <= Voiced(trace) else Texts(out) == Voiced(trace))
    && Warnings(out) == (if warned then 1 else 0) && (warned <==> !secure && Met(trace))
    && (!closed ==> violations < 8) && (Told(out, ProtocolError) ==> violations >= 8 || over)
    && !Noted(trace)
  }

  predicate Fair(secure: bool, over: bool, d: Session) {
    Accounted(secure, over, d.out, d.trace, d.closed, d.warned, d.violations)
  }

  lemma {:induction false} OutSnoc(out: seq<Output>, o: Output)
    ensures Farewell(out + [o]) <==> Farewell(out) || (o.Say? && Final(o.notice))
    ensures Told(out + [o], ProtocolError) <==> Told(out, ProtocolError) || o == Say(ProtocolError)
    ensures CutOff(out + [o]) <==> o == Say(LineTooLong)
    ensures Warnings(out + [o]) == Warnings(out) + if o == Say(InsecureTransport) then 1 else 0
    ensures Texts(out + [o]) == Texts(out) + if o.AppText? then [o.bytes] else []
    ensures LastPrompt(out + [o]) == if o.Say? && IsPrompt(o.notice) then o.notice else LastPrompt(out)
  {
    assert (out + [o])[..|out|] == out;
  }

  lemma {:induction false} TraceSnoc(trace: seq<Exchange>, x: Exchange)
    ensures Dismissed(trace + [x]) <==> Dismissed(trace) || Parting(trace, x)
    ensures Met(trace + [x]) <==> Met(trace) || (x.question.Exists? && x.answer.code >= 0)
    ensures Voiced(trace + [x]) == Voiced(trace) + if ToApplication(x.question) && x.answer.bytes != [] then [x.answer.bytes] else []
    ensures Noted(trace + [x]) <==> x.question.NoteFailure?
  {
    assert (trace + [x])[..|trace|] == trace;
  }

  // ----- Writers -----

  predicate Neutral(o: Output) {
    !o.AppText? && (o.Say? ==> Ordinary(o.notice))
  }

  lemma {:induction false} WriteKeeps(secure: bool, over: bool, d: Session, o: Output)
    requires Fair(secure, over, d) && Neutral(o)
    ensures Fair(secure, over, Write(d, o))
    ensures LastPrompt(Write(d, o).out) == if !d.closed && o.Say? && IsPrompt(o.notice) then o.notice else LastPrompt(d.out)
  {
    OutSnoc(d.out, o);
    hide Farewell;
    hide Told;
    hide CutOff;
    hide Warnings;
    hide Texts;
    hide LastPrompt;
    hide Dismissed;
    hide Voiced;
    hide Met;
    hide Noted;
  }

  lemma {:induction false} PromptKeeps(secure: bool, over: bool, d: Session, n: Notice)
    requires Fair(secure, over, d) && IsPrompt(n)
    ensures Fair(secure, over, Prompt(d, n))
    ensures LastPrompt(Prompt(d, n).out) == if d.closed then LastPrompt(d.out) else n
  {
    hide Fair;
    hide LastPrompt;
    WriteKeeps(secure, over, d, Say(n));
    WriteKeeps(secure, over, Tell(d, n), Mark(EOR));
    WriteKeeps(secure, over, Tell(d, n), Mark(GA));
    hide Write;
  }

  lemma {:induction false} LastWordIsAccounted(secure: bool, over: bool, d: Session, n: Notice, violations: nat)
    requires Fair(secure, over, d) && Final(n) && (n.ProtocolError? ==> violations >= 8 || over) && d.violations <= violations
    ensures Accounted(secure, over, d.out + [Say(n)], d.trace, true, d.warned, violations)
    ensures LastPrompt(d.out + [Say(n)]) == LastPrompt(d.out)
  {
    OutSnoc(d.out, Say(n));
    hide Farewell;
    hide Told;
    hide CutOff;
    hide Warnings;
    hide Texts;
    hide LastPrompt;
    hide Dismissed;
    hide Voiced;
    hide Met;
    hide Noted;
  }

  lemma {:induction false} CloseKeeps(secure: bool, over: bool, d: Session, n: Notice)
    requires Fair(secure, over, d) && Final(n) && (n.ProtocolError? ==> d.violations >= 8 || over)
    ensures Fair(secure, over, Close(d, Some(n)))
    ensures LastPrompt(Close(d, Some(n)).out) == LastPrompt(d.out)
  {
    LastWordIsAccounted(secure, over, d, n, d.violations);
    hide Accounted;
    hide LastPrompt;
    hide Final;
  }

  /** Every call but those to the application, and those about failures. */
  predicate Idle(q: Question) {
    !ToApplication(q) && !q.Exists? && !q.NoteFailure?
  }

  lemma {:induction false} IdleIsAccounted(secure: bool, over: bool, d: Session, x: Exchange)
    requires Fair(secure, over, d) && Idle(x.question)
    ensures Accounted(secure, over, d.out, d.trace + [x], d.closed, d.warned, d.violations)
  {
    TraceSnoc(d.trace, x);
    assert !Parting(d.trace, x);
    hide Parting;
    hide Farewell;
    hide Told;
    hide CutOff;
    hide Warnings;
    hide Texts;
    hide Dismissed;
    hide Voiced;
    hide Met;
    hide Noted;
  }

  lemma {:induction false} AskKeeps(cfg: Config, over: bool, d: Session, q: Question)
    requires Fair(cfg.secure, over, d) && Idle(q)
    ensures Fair(cfg.secure, over, Ask(cfg, d, q))
  {
    IdleIsAccounted(cfg.secure, over, d, Exchange(q, cfg.tape(|d.trace|)));
    hide Accounted;
    hide Idle;
  }

  lemma {:induction false} ReactIs(cfg: Config, d: Session, q: Question, leave: bool)
    ensures var r := React(cfg, d, q);
            var r' := if leave then Close(r, None) else r;
            var a := cfg.tape(|d.trace|);
            && r'.trace == d.trace + [Exchange(q, a)]
            && r'.closed == (d.closed || leave || a.close)
            && r'.out == if d.closed || a.bytes == [] then d.out else d.out + [AppText(a.bytes)]
  {
  }

  lemma {:induction false} CallIsAccounted(secure: bool, over: bool, d: Session, x: Exchange, leave: bool)
    requires Fair(secure, over, d) && ToApplication(x.question)
    requires Parting(d.trace, x) <==> leave || x.answer.close
    ensures var out := if d.closed || x.answer.bytes == [] then d.out else d.out + [AppText(x.answer.bytes)];
            && Accounted(secure, over, out, d.trace + [x], d.closed || leave || x.answer.close, d.warned, d.violations)
            && LastPrompt(out) == LastPrompt(d.out)
  {
    TraceSnoc(d.trace, x);
    OutSnoc(d.out, AppText(x.answer.bytes));
    assert CutOff(d.out) ==> d.closed;
    hide Parting;
    hide Farewell;
    hide Told;
    hide CutOff;
    hide Warnings;
    hide Texts;
    hide LastPrompt;
    hide Dismissed;
    hide Voiced;
    hide Met;
    hide Noted;
  }

  /** A call to the application, after which the session may be closed for what was answered. */
  lemma {:induction false} ReactKeeps(cfg: Config, over: bool, d: Session, q: Question, leave: bool)
    requires Fair(cfg.secure, over, d) && ToApplication(q)
    requires Parting(d.trace, Exchange(q, cfg.tape(|d.trace|))) <==> leave || cfg.tape(|d.trace|).close
    ensures var r := React(cfg, d, q);
            var r' := if leave then Close(r, None) else r;
            Fair(cfg.secure, over, r') && LastPrompt(r'.out) == LastPrompt(d.out)
  {
    ReactIs(cfg, d, q, leave);
    CallIsAccounted(cfg.secure, over, d, Exchange(q, cfg.tape(|d.trace|)), leave);
    hide React;
    hide Close;
    hide Accounted;
    hide LastPrompt;
    hide Parting;
  }

  lemma {:induction false} MoreViolations(secure: bool, over: bool, d: Session, violations: nat)
    requires Fair(secure, over, d) && d.violations <= violations && (!d.closed ==> violations < 8)
    ensures Accounted(secure, over, d.out, d.trace, d.closed, d.warned, violations)
  {
  }

  lemma {:induction false} ViolationKeeps(secure: bool, over: bool, d: Session)
    requires Fair(secure, over, d)
    ensures Fair(secure, over, Violation(d))
    ensures LastPrompt(Violation(d).out) == LastPrompt(d.out)
  {
    if d.closed || d.violations + 1 < 8 {
      MoreViolations(secure, over, d, d.violations + 1);
    } else {
      LastWordIsAccounted(secure, over, d, ProtocolError, d.violations + 1);
    }
    hide Accounted;
    hide LastPrompt;
  }

  /** The pieces that lines are handled with keep the books and, prompts aside, the prompt. */
  lemma {:induction false} PiecesKeep(cfg: Config, over: bool)
    ensures forall d: Session, n: Notice {:trigger Tell(d, n)} | Fair(cfg.secure, over, d) && Ordinary(n) && !IsPrompt(n) ::
              Fair(cfg.secure, over, Tell(d, n)) && LastPrompt(Tell(d, n).out) == LastPrompt(d.out)
    ensures forall d: Session, n: Notice {:trigger Prompt(d, n)} | Fair(cfg.secure, over, d) && IsPrompt(n) ::
              Fair(cfg.secure, over, Prompt(d, n)) && LastPrompt(Prompt(d, n).out) == if d.closed then LastPrompt(d.out) else n
    ensures forall d: Session, n: Notice {:trigger Close(d, Some(n))} | Fair(cfg.secure, over, d) && Final(n) && !n.ProtocolError? ::
              Fair(cfg.secure, over, Close(d, Some(n)))
    ensures forall d: Session, q: Question {:trigger Ask(cfg, d, q)} | Fair(cfg.secure, over, d) && Idle(q) ::
              Fair(cfg.secure, over, Ask(cfg, d, q))
  {
    hide *;
    forall d: Session, n: Notice | Fair(cfg.secure, over, d) && Ordinary(n) && !IsPrompt(n)
      ensures Fair(cfg.secure, over, Tell(d, n)) && LastPrompt(Tell(d, n).out) == LastPrompt(d.out)
    {
      TellKeeps(cfg.secure, over, d, n);
    }
    forall d: Session, n: Notice | Fair(cfg.secure, over, d) && IsPrompt(n)
      ensures Fair(cfg.secure, over, Prompt(d, n)) && LastPrompt(Prompt(d, n).out) == if d.closed then LastPrompt(d.out) else n
    {
      PromptKeeps(cfg.secure, over, d, n);
    }
    forall d: Session, n: Notice | Fair(cfg.secure, over, d) && Final(n) && !n.ProtocolError?
      ensures Fair(cfg.secure, over, Close(d, Some(n)))
    {
      CloseKeeps(cfg.secure, over, d, n);
    }
    forall d: Session, q: Question | Fair(cfg.secure, over, d) && Idle(q) ensures Fair(cfg.secure, over, Ask(cfg, d, q)) {
      AskKeeps(cfg, over, d, q);
    }
  }

  lemma {:induction false} TellKeeps(secure: bool, over: bool, d: Session, n: Notice)
    requires Fair(secure, over, d) && Ordinary(n) && !IsPrompt(n)
    ensures Fair(secure, over, Tell(d, n)) && LastPrompt(Tell(d, n).out) == LastPrompt(d.out)
  {
    hide Fair;
    hide LastPrompt;
    WriteKeeps(secure, over, d, Say(n));
  }

  lemma {:induction false} CommandsKeep(secure: bool, over: bool, d: Session, commands: seq<Command>)
    requires Fair(secure, over, d)
    ensures Fair(secure, over, WriteCommands(d, commands)) && LastPrompt(WriteCommands(d, commands).out) == LastPrompt(d.out)
    decreases commands
  {
    hide Accounted;
    hide LastPrompt;
    if commands != [] {
      var one := Negotiation(commands[0].code, commands[0].option);
      WriteKeeps(secure, over, d, one);
      CommandsKeep(secure, over, Write(d, one), commands[1..]);
      hide Write;
    }
  }

  lemma {:induction false} EchoKeeps(secure: bool, over: bool, d: Session)
    requires d.nego.options.Valid() && Fair(secure, over, d)
    ensures Fair(secure, over, EchoOff(d)) && LastPrompt(EchoOff(d).out) == LastPrompt(d.out)
    ensures Fair(secure, over, EchoOn(d)) && LastPrompt(EchoOn(d).out) == LastPrompt(d.out)
  {
    hide Accounted;
    hide LastPrompt;
    hide RequestOption;
    hide WriteCommands;
    var on := RequestOption(d.nego.options, Local, OPT_ECHO, true);
    var off := RequestOption(d.nego.options, Local, OPT_ECHO, false);
    CommandsKeep(secure, over, d.(nego := Nego(on.options, true)), on.sent);
    CommandsKeep(secure, over, d.(nego := Nego(off.options, false)), off.sent);
  }

  // ----- Lines -----

  /**
   * The prompt that goes with a state of the login; while a name is asked for it can also be
   * the game's, which an overlong line brings up, and in the game the application may rule.
   */
  predicate Fits(cfg: Config, l: Login, n: Notice) {
    match l
    case AtName => n.NamePrompt? || n.GamePrompt?
    case AtPassword => n.PasswordPrompt?
    case AtNewPassword => n.CreatePrompt?
    case AtConfirm => n.ConfirmPrompt?
    case InGame => n.GamePrompt? || cfg.open
  }

  predicate Shown(cfg: Config, d: Session) {
    d.closed || Fits(cfg, d.auth.login, LastPrompt(d.out))
  }

  predicate Good(cfg: Config, over: bool, d: Session) {
    Fair(cfg.secure, over, d) && Shown(cfg, d) && (d.mail.attached ==> cfg.open)
  }

  lemma {:induction false} HandAllKeeps(cfg: Config, over: bool, d: Session, ms: seq<Message>)
    requires Fair(cfg.secure, over, d)
    ensures Fair(cfg.secure, over, HandAll(cfg, d, ms)) && LastPrompt(HandAll(cfg, d, ms).out) == LastPrompt(d.out)
    decreases ms
  {
    hide Accounted;
    hide LastPrompt;
    hide React;
    if ms != [] {
      ReactKeeps(cfg, over, d, Gmcp(ms[0]), false);
      HandAllKeeps(cfg, over, React(cfg, d, Gmcp(ms[0])), ms[1..]);
    }
  }

  lemma {:induction false} EnterKeeps(cfg: Config, over: bool, d: Session)
    requires Fair(cfg.secure, over, d) && !d.closed
    requires d.mail.attached ==> cfg.open
    ensures Good(cfg, over, EnterGame(cfg, d))
  {
    PiecesKeep(cfg, over);
    hide Accounted;
    hide LastPrompt;
    hide Prompt;
    hide Tell;
    var d1 := d.(auth := d.auth.(login := InGame));
    if cfg.open {
      var q := Open(d.auth.player);
      ReactIs(cfg, d1, q, false);
      ReactKeeps(cfg, over, d1, q, cfg.tape(|d.trace|).code == 0);
      var r := React(cfg, d1, q);
      hide React;
      hide Close;
      if Latest(r).code != 0 {
        HandAllKeeps(cfg, over, r.(mail := Mail([], true)), r.mail.queue);
      }
      hide HandAll;
    }
  }

  /** A name is looked up; with an answer the books wait for the warning. */
  lemma {:induction false} LookupKeeps(cfg: Config, over: bool, d: Session, name: seq<byte>)
    requires Fair(cfg.secure, over, d)
    ensures var r := Ask(cfg, d, Exists(name));
            if Latest(r).code < 0 then Fair(cfg.secure, over, r) else Met(r.trace) && Fair(cfg.secure || !d.warned, over, r)
  {
    TraceSnoc(d.trace, Exchange(Exists(name), cfg.tape(|d.trace|)));
    hide Farewell;
    hide Told;
    hide CutOff;
    hide Warnings;
    hide Texts;
    hide Dismissed;
    hide Voiced;
    hide Met;
    hide Noted;
  }

  lemma {:induction false} WarnKeeps(cfg: Config, over: bool, d: Session)
    requires Fair(cfg.secure || !d.warned, over, d) && !d.closed && Met(d.trace)
    ensures Fair(cfg.secure, over, Warn(cfg, d)) && LastPrompt(Warn(cfg, d).out) == LastPrompt(d.out)
  {
    OutSnoc(d.out, Say(InsecureTransport));
    hide Farewell;
    hide Told;
    hide CutOff;
    hide Warnings;
    hide Texts;
    hide LastPrompt;
    hide Dismissed;
    hide Voiced;
    hide Met;
    hide Noted;
  }

  lemma {:induction false} NameKeeps(cfg: Config, over: bool, d: Session)
    requires d.nego.options.Valid() && Good(cfg, over, d) && !d.closed && d.auth.login.AtName?
    ensures Good(cfg, over, ProcessName(cfg, d))
  {
    hide Accounted;
    hide LastPrompt;
    hide RequestOption;
    hide EchoMove;
    hide Options.Valid;
    hide Prompt;
    hide Tell;
    hide EchoOff;
    hide Warn;
    hide PlayerRecord.NameValid;
    var name := d.input.line;
    if !PlayerRecord.NameValid(name) {
      TellAndPrompt(cfg.secure, over, d, NameRule, NamePrompt);
    } else {
      var asked := Ask(cfg, d, Exists(name));
      LookupKeeps(cfg, over, d, name);
      if Latest(asked).code < 0 {
        TellAndPrompt(cfg.secure, over, SetAuth(asked, AtName, [], asked.auth.token), BadRecord, NamePrompt);
      } else {
        AnsweredNameKeeps(cfg, over, d);
        hide ProcessName;
      }
    }
  }

  lemma {:induction false} AnsweredNameKeeps(cfg: Config, over: bool, d: Session)
    requires d.nego.options.Valid() && Good(cfg, over, d) && !d.closed && PlayerRecord.NameValid(d.input.line)
    requires cfg.tape(|d.trace|).code >= 0
    ensures Good(cfg, over, ProcessName(cfg, d))
  {
    hide Accounted;
    hide LastPrompt;
    hide RequestOption;
    hide EchoMove;
    hide Options.Valid;
    hide Prompt;
    hide Tell;
    hide EchoOff;
    hide Warn;
    hide Met;
    hide PlayerRecord.NameValid;
    var name := d.input.line;
    var asked := Ask(cfg, d, Exists(name));
    LookupKeeps(cfg, over, d, name);
    if Latest(asked).code == 1 {
      var known := SetAuth(asked, AtPassword, name, asked.auth.token);
      KnownKeeps(cfg, over, known);
      PromptKeeps(cfg.secure, over, Warn(cfg, EchoOff(known)), PasswordPrompt);
    } else {
      var unknown := SetAuth(asked, AtNewPassword, name, asked.auth.token);
      KnownKeeps(cfg, over, unknown);
      TellAndPrompt(cfg.secure, over, Warn(cfg, EchoOff(unknown)), NewPlayer, CreatePrompt);
    }
  }

  lemma {:induction false} KnownKeeps(cfg: Config, over: bool, d: Session)
    requires d.nego.options.Valid() && Fair(cfg.secure || !d.warned, over, d) && !d.closed && Met(d.trace)
    ensures Fair(cfg.secure, over, Warn(cfg, EchoOff(d)))
  {
    EchoKeeps(cfg.secure || !d.warned, over, d);
    WarnKeeps(cfg, over, EchoOff(d));
    hide Accounted;
    hide LastPrompt;
    hide EchoOff;
    hide Warn;
    hide Met;
  }

  lemma {:induction false} FailureIsAccounted(secure: bool, over: bool, d: Session, x: Exchange, y: Exchange)
    requires Fair(secure, over, d) && !d.closed && x.question.NoteFailure? && y.question.AllowAuth?
    ensures var out := if y.answer.code == 0 then d.out + [Say(LockedOut)] else d.out;
            Accounted(secure, over, out, d.trace + [x] + [y], y.answer.code == 0, d.warned, d.violations)
  {
    TraceSnoc(d.trace, x);
    TraceSnoc(d.trace + [x], y);
    OutSnoc(d.out, Say(LockedOut));
    hide Farewell;
    hide Told;
    hide CutOff;
    hide Warnings;
    hide Texts;
    hide LastPrompt;
    hide Dismissed;
    hide Voiced;
    hide Met;
    hide Noted;
  }

  /** A failure is reported and the policy asked again; a refusal ends the session. */
  lemma {:induction false} FailureKeeps(cfg: Config, over: bool, d: Session, name: seq<byte>)
    requires Fair(cfg.secure, over, d) && !d.closed
    ensures var r := Ask(cfg, Ask(cfg, d, NoteFailure(name)), AllowAuth(name));
            Fair(cfg.secure, over, if Latest(r).code == 0 then Close(r, Some(LockedOut)) else r)
  {
    var x := Exchange(NoteFailure(name), cfg.tape(|d.trace|));
    var y := Exchange(AllowAuth(name), cfg.tape(|d.trace| + 1));
    FailureIsAccounted(cfg.secure, over, d, x, y);
    assert Ask(cfg, Ask(cfg, d, NoteFailure(name)), AllowAuth(name)).trace == d.trace + [x] + [y];
    hide Accounted;
  }

  lemma {:induction false} TellAndPrompt(secure: bool, over: bool, d: Session, n: Notice, p: Notice)
    requires Fair(secure, over, d) && !d.closed && Ordinary(n) && !IsPrompt(n) && IsPrompt(p)
    ensures var r := Prompt(Tell(d, n), p); Fair(secure, over, r) && LastPrompt(r.out) == p
  {
    TellKeeps(secure, over, d, n);
    PromptKeeps(secure, over, Tell(d, n), p);
    hide Accounted;
    hide LastPrompt;
    hide Prompt;
    hide Tell;
  }

  lemma {:induction false} SuccessKeeps(cfg: Config, over: bool, d: Session, name: seq<byte>)
    requires d.nego.options.Valid() && Fair(cfg.secure, over, d) && !d.closed
    requires d.mail.attached ==> cfg.open
    ensures Good(cfg, over, EnterGame(cfg, EchoOn(Ask(cfg, d, NoteSuccess(name)))))
  {
    AskKeeps(cfg, over, d, NoteSuccess(name));
    EchoKeeps(cfg.secure, over, Ask(cfg, d, NoteSuccess(name)));
    EnterKeeps(cfg, over, EchoOn(Ask(cfg, d, NoteSuccess(name))));
    hide Accounted;
    hide LastPrompt;
    hide EnterGame;
    hide EchoOn;
    hide Ask;
  }

  lemma {:induction false} PasswordKeeps(cfg: Config, over: bool, d: Session)
    requires d.nego.options.Valid() && Good(cfg, over, d) && !d.closed && d.auth.login.AtPassword?
    ensures Good(cfg, over, ProcessPassword(cfg, d))
  {
    hide Accounted;
    hide LastPrompt;
    hide RequestOption;
    hide EchoMove;
    hide Options.Valid;
    hide Prompt;
    hide Tell;
    hide Close;
    hide EchoOn;
    hide EnterGame;
    var name := d.auth.player;
    var one := Ask(cfg, EraseLine(d), AllowAuth(name));
    var two := Ask(cfg, one, Verify(name, d.input.line));
    var four := Ask(cfg, Ask(cfg, two, NoteFailure(name)), AllowAuth(name));
    AskKeeps(cfg, over, EraseLine(d), AllowAuth(name));
    AskKeeps(cfg, over, one, Verify(name, d.input.line));
    if Latest(one).code == 0 {
      TellAndPrompt(cfg.secure, over, one, Locked, PasswordPrompt);
    } else if Latest(two).code == 1 {
      SuccessKeeps(cfg, over, two, name);
    } else {
      FailureKeeps(cfg, over, two, name);
      if Latest(four).code != 0 {
        TellAndPrompt(cfg.secure, over, four, WrongPassword, PasswordPrompt);
      }
    }
  }

  lemma {:induction false} StartOverKeeps(cfg: Config, over: bool, d: Session, n: Notice)
    requires d.nego.options.Valid() && Fair(cfg.secure, over, d) && !d.closed && Ordinary(n) && !IsPrompt(n)
    requires d.mail.attached ==> cfg.open
    ensures Good(cfg, over, StartOver(d, n))
  {
    PiecesKeep(cfg, over);
    EchoKeeps(cfg.secure, over, d);
    hide Accounted;
    hide LastPrompt;
    hide RequestOption;
    hide Options.Valid;
    hide Prompt;
    hide Tell;
    hide EchoOn;
    hide Ordinary;
  }

  lemma {:induction false} NewKeeps(cfg: Config, over: bool, d: Session)
    requires d.nego.options.Valid() && Good(cfg, over, d) && !d.closed && d.auth.login.AtNewPassword?
    ensures Good(cfg, over, ProcessNew(cfg, d))
  {
    hide Accounted;
    hide LastPrompt;
    hide RequestOption;
    hide EchoMove;
    hide Options.Valid;
    hide Prompt;
    hide Tell;
    hide StartOver;
    var name, password, erased := d.auth.player, d.input.line, EraseLine(d);
    var one := Ask(cfg, erased, Suitable(name, password));
    if |password| < PASSWORD_MIN {
      TellAndPrompt(cfg.secure, over, erased, TooShort, CreatePrompt);
    } else if Latest(one).code != 1 {
      AskKeeps(cfg, over, erased, Suitable(name, password));
      TellAndPrompt(cfg.secure, over, one, TooCommon, CreatePrompt);
    } else {
      SuitableKeeps(cfg, over, d);
      hide ProcessNew;
    }
  }

  lemma {:induction false} SuitableKeeps(cfg: Config, over: bool, d: Session)
    requires d.nego.options.Valid() && Good(cfg, over, d) && !d.closed
    requires |d.input.line| >= PASSWORD_MIN && cfg.tape(|d.trace|).code == 1
    ensures Good(cfg, over, ProcessNew(cfg, d))
  {
    hide Accounted;
    hide LastPrompt;
    hide RequestOption;
    hide EchoMove;
    hide Options.Valid;
    hide Prompt;
    hide Tell;
    hide StartOver;
    var name, password, erased := d.auth.player, d.input.line, EraseLine(d);
    var one := Ask(cfg, erased, Suitable(name, password));
    var two := Ask(cfg, one, Prepare(password));
    AskKeeps(cfg, over, erased, Suitable(name, password));
    AskKeeps(cfg, over, one, Prepare(password));
    if Latest(two).code != 0 {
      StartOverKeeps(cfg, over, two, PrepareError);
    } else {
      TellAndPrompt(cfg.secure, over, SetAuth(two, AtConfirm, name, Some(Latest(two).bytes)), NewLine, ConfirmPrompt);
    }
  }

  lemma {:induction false} ConfirmKeeps(cfg: Config, over: bool, d: Session)
    requires d.nego.options.Valid() && Good(cfg, over, d) && !d.closed && d.auth.login.AtConfirm?
    ensures Good(cfg, over, ProcessConfirm(cfg, d))
  {
    hide Accounted;
    hide LastPrompt;
    hide RequestOption;
    hide EchoMove;
    hide Options.Valid;
    hide Prompt;
    hide Tell;
    hide StartOver;
    hide EchoOn;
    hide EnterGame;
    var name, token := d.auth.player, TokenOf(d.auth);
    var one := Ask(cfg, EraseLine(d), Matches(token, d.input.line));
    if Latest(one).code != 1 {
      AskKeeps(cfg, over, EraseLine(d), Matches(token, d.input.line));
      TellAndPrompt(cfg.secure, over, SetAuth(one, AtNewPassword, name, None), Mismatch, CreatePrompt);
    } else {
      MatchKeeps(cfg, over, d);
      hide ProcessConfirm;
    }
  }

  lemma {:induction false} MatchKeeps(cfg: Config, over: bool, d: Session)
    requires d.nego.options.Valid() && Good(cfg, over, d) && !d.closed && cfg.tape(|d.trace|).code == 1
    ensures Good(cfg, over, ProcessConfirm(cfg, d))
  {
    hide Accounted;
    hide LastPrompt;
    hide RequestOption;
    hide EchoMove;
    hide Options.Valid;
    hide Prompt;
    hide Tell;
    hide StartOver;
    hide EchoOn;
    hide EnterGame;
    var name, token := d.auth.player, TokenOf(d.auth);
    var one := Ask(cfg, EraseLine(d), Matches(token, d.input.line));
    var two := Ask(cfg, one, AllowCreation);
    var three := Ask(cfg, two, CreateAccount(name, token));
    AskKeeps(cfg, over, EraseLine(d), Matches(token, d.input.line));
    AskKeeps(cfg, over, one, AllowCreation);
    AskKeeps(cfg, over, two, CreateAccount(name, token));
    if Latest(two).code == 0 {
      StartOverKeeps(cfg, over, two, CreationLimited);
    } else if Latest(three).code != 0 {
      StartOverKeeps(cfg, over, three, CreationFailed);
    } else {
      SuccessKeeps(cfg, over, three.(auth := three.auth.(token := None)), name);
    }
  }

  lemma {:induction false} LineIsHeard(cfg: Config, over: bool, d: Session)
    requires Fair(cfg.secure, over, d)
    ensures var r := React(cfg, d, Line(d.input.line));
            var r' := if Latest(r).code != 0 then Close(r, None) else r;
            Fair(cfg.secure, over, r') && LastPrompt(r'.out) == LastPrompt(d.out)
  {
    ReactIs(cfg, d, Line(d.input.line), false);
    ReactKeeps(cfg, over, d, Line(d.input.line), cfg.tape(|d.trace|).code != 0);
    hide React;
    hide Close;
    hide Accounted;
    hide LastPrompt;
  }

  lemma {:induction false} FallbackKeeps(cfg: Config, over: bool, d: Session, n: Notice)
    requires Good(cfg, over, d) && !d.closed && d.auth.login.InGame? && Ordinary(n) && !IsPrompt(n)
    ensures Good(cfg, over, Prompt(d, GamePrompt)) && Good(cfg, over, Prompt(Tell(d, n), GamePrompt))
  {
    hide Accounted;
    hide LastPrompt;
    hide Prompt;
    hide Tell;
    hide Ordinary;
    TellAndPrompt(cfg.secure, over, d, n, GamePrompt);
    PromptKeeps(cfg.secure, over, d, GamePrompt);
  }

  lemma {:induction false} LastWordKeeps(cfg: Config, over: bool, d: Session, n: Notice)
    requires Good(cfg, over, d) && !d.closed && Final(n) && !n.ProtocolError?
    ensures Good(cfg, over, Close(d, Some(n)))
  {
    CloseKeeps(cfg.secure, over, d, n);
    hide Accounted;
    hide LastPrompt;
    hide Close;
    hide Final;
  }

  lemma {:induction false} UnheardKeeps(cfg: Config, over: bool, d: Session, now: nat)
    requires Good(cfg, over, d) && !d.closed && d.auth.login.InGame? && !(d.mail.attached && cfg.onLine)
    ensures Good(cfg, over, ProcessCommand(cfg, d, now))
  {
    hide RateWindow.Consume;
    hide Accounted;
    hide LastPrompt;
    hide Prompt;
    hide Tell;
    hide SameIgnoringCase;
    hide Close;
    var c := RateWindow.Consume(d.commandWindow, 1, COMMANDS_PER_WINDOW, COMMANDS_SPAN, now);
    var d1 := d.(commandWindow := c.window);
    assert Good(cfg, over, d1);
    hide Good;
    LastWordKeeps(cfg, over, d1, CommandFlood);
    LastWordKeeps(cfg, over, d1, Goodbye);
    FallbackKeeps(cfg, over, d1, Pong);
    FallbackKeeps(cfg, over, d1, HelpText);
    FallbackKeeps(cfg, over, d1, UnknownCommand);
  }

  lemma {:induction false} CommandKeeps(cfg: Config, over: bool, d: Session, now: nat)
    requires Good(cfg, over, d) && !d.closed && d.auth.login.InGame?
    ensures Good(cfg, over, ProcessCommand(cfg, d, now))
  {
    hide RateWindow.Consume;
    hide Accounted;
    hide LastPrompt;
    hide React;
    hide Close;
    if d.mail.attached && cfg.onLine {
      hide Prompt;
      hide Tell;
      hide SameIgnoringCase;
      var c := RateWindow.Consume(d.commandWindow, 1, COMMANDS_PER_WINDOW, COMMANDS_SPAN, now);
      var d1 := d.(commandWindow := c.window);
      LineIsHeard(cfg, over, d1);
      LastWordKeeps(cfg, over, d1, CommandFlood);
    } else {
      hide ProcessCommand;
      UnheardKeeps(cfg, over, d, now);
    }
  }

  lemma {:induction false} DispatchKeeps(cfg: Config, over: bool, d: Session, now: nat)
    requires d.nego.options.Valid() && Good(cfg, over, d) && !d.closed
    ensures Good(cfg, over, Dispatch(cfg, d, now))
  {
    hide Good;
    hide ProcessName;
    hide ProcessPassword;
    hide ProcessNew;
    hide ProcessConfirm;
    hide ProcessCommand;
    hide EchoMove;
    hide Options.Valid;
    match d.auth.login
    case AtName => NameKeeps(cfg, over, d);
    case AtPassword => PasswordKeeps(cfg, over, d);
    case AtNewPassword => NewKeeps(cfg, over, d);
    case AtConfirm => ConfirmKeeps(cfg, over, d);
    case InGame => CommandKeeps(cfg, over, d, now);
  }

  /** A line too long: the end for an application, else a word before the next prompt. */
  lemma {:induction false} CutOffKeeps(secure: bool, over: bool, d: Session)
    requires Fair(secure, over, d) && !d.closed
    ensures Fair(secure, over, Close(d, Some(LineTooLong)))
    ensures Accounted(secure, over, d.out + [Say(LineTooLong)] + [Say(GamePrompt)], d.trace, false, d.warned, d.violations)
  {
    OutSnoc(d.out, Say(LineTooLong));
    OutSnoc(d.out + [Say(LineTooLong)], Say(GamePrompt));
    hide Farewell;
    hide Told;
    hide CutOff;
    hide Warnings;
    hide Texts;
    hide LastPrompt;
    hide Dismissed;
    hide Voiced;
    hide Met;
    hide Noted;
  }

  lemma {:induction false} TooLongKeeps(secure: bool, over: bool, d: Session)
    requires Fair(secure, over, d) && !d.closed
    ensures var r := Prompt(Tell(d, LineTooLong), GamePrompt); Fair(secure, over, r) && LastPrompt(r.out) == GamePrompt
  {
    CutOffKeeps(secure, over, d);
    OutSnoc(d.out + [Say(LineTooLong)], Say(GamePrompt));
    hide Accounted;
    hide LastPrompt;
    var told := Tell(Tell(d, LineTooLong), GamePrompt);
    assert told.out == d.out + [Say(LineTooLong)] + [Say(GamePrompt)];
    WriteKeeps(secure, over, told, Mark(EOR));
    WriteKeeps(secure, over, told, Mark(GA));
    hide Tell;
    hide Write;
  }

  lemma {:induction false} OverlongKeeps(cfg: Config, over: bool, d: Session)
    requires Good(cfg, over, d) && !d.closed
    ensures Good(cfg, over, Overlong(d))
  {
    hide Accounted;
    hide LastPrompt;
    hide Prompt;
    hide Tell;
    hide Close;
    TellAndPrompt(cfg.secure, over, d, PasswordTooLong, PasswordPrompt);
    TellKeeps(cfg.secure, over, d, PasswordTooLong);
    PromptKeeps(cfg.secure, over, SetAuth(Tell(d, PasswordTooLong), AtNewPassword, d.auth.player, None), CreatePrompt);
    CutOffKeeps(cfg.secure, over, d);
    TooLongKeeps(cfg.secure, over, d);
  }

  lemma {:induction false} LineKeeps(cfg: Config, over: bool, d: Session, now: nat)
    requires d.nego.options.Valid() && Good(cfg, over, d) && !d.closed
    ensures Good(cfg, over, ProcessLine(cfg, d, now))
  {
    hide Accounted;
    hide LastPrompt;
    hide RateWindow.Consume;
    hide Close;
    hide Overlong;
    hide Dispatch;
    hide EchoMove;
    hide Options.Valid;
    var c := RateWindow.Consume(d.lineWindow, 1, LINES_PER_WINDOW, LINES_SPAN, now);
    var counted := d.(lineWindow := c.window);
    CloseKeeps(cfg.secure, over, EraseLine(counted), LineFlood);
    OverlongKeeps(cfg, over, counted.(input := counted.input.(line := [], overflow := false)));
    DispatchKeeps(cfg, over, counted.(completed := d.completed + [d.input.line]), now);
  }

  lemma {:induction false} ByteKeeps(cfg: Config, over: bool, d: Session, b: byte, now: nat)
    requires d.nego.options.Valid() && Good(cfg, over, d) && !d.closed
    ensures Good(cfg, over, ReceiveByte(cfg, d, b, now))
  {
    hide Accounted;
    hide LastPrompt;
    hide ProcessLine;
    hide Append;
    hide EchoMove;
    hide Options.Valid;
    var d1 := d.(input := d.input.(pendingCr := false));
    LineKeeps(cfg, over, d1, now);
    LineKeeps(cfg, over, Append(d1, CR), now);
  }

  function PromptOf(l: Login): (n: Notice)
    ensures IsPrompt(n)
  {
    match l
    case AtName => NamePrompt
    case AtPassword => PasswordPrompt
    case AtNewPassword => CreatePrompt
    case AtConfirm => ConfirmPrompt
    case InGame => GamePrompt
  }

  lemma {:induction false} CurrentPromptIs(cfg: Config, d: Session)
    ensures CurrentPrompt(d) == Prompt(d, PromptOf(d.auth.login)) && Fits(cfg, d.auth.login, PromptOf(d.auth.login))
  {
    hide Prompt;
  }

  lemma {:induction false} CurrentPromptKeeps(cfg: Config, over: bool, d: Session, n: Notice)
    requires Fair(cfg.secure, over, d) && !d.closed && (d.mail.attached ==> cfg.open) && Ordinary(n) && !IsPrompt(n)
    ensures Good(cfg, over, CurrentPrompt(Tell(d, n)))
  {
    CurrentPromptIs(cfg, Tell(d, n));
    TellAndPrompt(cfg.secure, over, d, n, PromptOf(d.auth.login));
    hide Accounted;
    hide LastPrompt;
    hide Prompt;
    hide Tell;
    hide CurrentPrompt;
    hide PromptOf;
    hide Fits;
    hide IsPrompt;
    hide Ordinary;
  }

  lemma {:induction false} ControlKeeps(cfg: Config, over: bool, d: Session, command: byte)
    requires Good(cfg, over, d) && !d.closed
    ensures Good(cfg, over, ReceiveControl(d, command))
  {
    hide Accounted;
    hide LastPrompt;
    hide CurrentPrompt;
    hide Tell;
    hide Violation;
    CurrentPromptKeeps(cfg, over, d, ServerIsHere);
    var cleared := d.(input := NO_INPUT);
    var dropped := if d.auth.login.AtConfirm? then SetAuth(cleared, AtNewPassword, d.auth.player, None) else cleared;
    CurrentPromptKeeps(cfg, over, dropped, NewLine);
    ViolationKeeps(cfg.secure, over, d);
  }

  // ----- Options and reports -----

  /** The books are kept, and the prompt stays. */
  predicate Calm(secure: bool, over: bool, d: Session, r: Session) {
    Fair(secure, over, r) && LastPrompt(r.out) == LastPrompt(d.out)
  }

  lemma {:induction false} RequestsKeep(secure: bool, over: bool, d: Session)
    requires d.nego.options.Valid() && Fair(secure, over, d)
    ensures Calm(secure, over, d, RequestTtype(d)) && Calm(secure, over, d, RequestCharset(d)) && Calm(secure, over, d, RequestEnviron(d))
  {
    hide Accounted;
    hide LastPrompt;
    var t := d.probe.ttype;
    WriteKeeps(secure, over, d.(probe := d.probe.(ttype := t.(sent := t.sent + 1, waiting := true))), Report(OPT_TERMINAL_TYPE, [1]));
    WriteKeeps(secure, over, d.(probe := d.probe.(charset := d.probe.charset.(sent := true))), Report(OPT_CHARSET, CHARSET_OFFER));
    WriteKeeps(secure, over, d.(probe := d.probe.(environ := d.probe.environ.(sent := true))), Report(OPT_NEW_ENVIRON, [1]));
    hide Write;
    hide Options.Valid;
    hide Options.Enabled;
  }

  lemma {:induction false} MetadataKeeps(cfg: Config, over: bool, d: Session)
    requires d.nego.options.Valid() && Fair(cfg.secure, over, d)
    ensures Calm(cfg.secure, over, d, UpdateMetadata(cfg, d))
  {
    hide Accounted;
    hide LastPrompt;
    hide RequestTtype;
    hide RequestCharset;
    hide RequestEnviron;
    hide React;
    hide Options.Valid;
    hide UpdateMetadata;
    var d1 := Discovery.MetadataIsRequests(cfg, d);
    RequestsKeep(cfg.secure, over, d1);
    RequestsKeep(cfg.secure, over, RequestTtype(d1));
    RequestsKeep(cfg.secure, over, RequestCharset(RequestTtype(d1)));
    ReactKeeps(cfg, over, RequestEnviron(RequestCharset(RequestTtype(d1))), Capabilities, false);
  }

  lemma {:induction false} SnapshotKeeps(cfg: Config, over: bool, d: Session)
    requires d.nego.options.Valid() && Fair(cfg.secure, over, d)
    ensures Calm(cfg.secure, over, d, SendMssp(cfg, d))
  {
    hide Accounted;
    hide LastPrompt;
    var asked := Ask(cfg, d, Snapshot);
    AskKeeps(cfg, over, d, Snapshot);
    WriteKeeps(cfg.secure, over, asked.(probe := d.probe.(mssp := Mssp(true))), Report(OPT_MSSP, Latest(asked).bytes));
    hide Write;
    hide Options.Valid;
    hide Options.Enabled;
  }

  lemma {:induction false} NegotiationKeeps(cfg: Config, over: bool, d: Session, command: byte, option: byte)
    requires d.nego.options.Valid() && Fair(cfg.secure, over, d)
    ensures Calm(cfg.secure, over, d, ReceiveNegotiation(cfg, d, command, option))
  {
    hide Accounted;
    hide LastPrompt;
    hide ReceiveOption;
    hide Accepts;
    hide Forget;
    hide WriteCommands;
    hide UpdateMetadata;
    hide SendMssp;
    hide Options.Valid;
    hide Options.Enabled;
    var t := ReceiveOption(d.nego.options, command, option, Accepts(cfg, d.nego.echo, Concerns(command), option));
    var d0 := d.(nego := d.nego.(options := t.options));
    CommandsKeep(cfg.secure, over, d0, t.sent);
    var d1 := WriteCommands(d0, t.sent);
    var d2 := d1.(probe := Forget(d1.probe, d.nego.options, t.options));
    MetadataKeeps(cfg, over, d2);
    SnapshotKeeps(cfg, over, UpdateMetadata(cfg, d2));
  }

  lemma {:induction false} NoteKeepsBooks(secure: bool, over: bool, d: Session, reported: seq<byte>)
    requires d.nego.options.Valid() && Fair(secure, over, d)
    ensures Calm(secure, over, d, NoteType(d, reported))
  {
    hide Accounted;
    hide LastPrompt;
    hide RequestTtype;
    hide SameIgnoringCase;
    hide ReportedMtts;
    hide Options.Valid;
    hide Bit;
    var flags := ReportedMtts(reported);
    var d1 := if flags.Some? then ApplyMtts(d, flags.value) else d;
    hide ApplyMtts;
    RequestsKeep(secure, over, d1.(probe := d1.probe.(ttype := d.probe.ttype.(last := reported))));
  }

  lemma {:induction false} TypeKeepsBooks(secure: bool, over: bool, d: Session, payload: seq<byte>)
    requires d.nego.options.Valid() && Fair(secure, over, d)
    ensures Calm(secure, over, d, HandleTtype(d, payload))
  {
    hide Accounted;
    hide LastPrompt;
    hide Violation;
    hide NoteType;
    hide Printable;
    hide Options.Valid;
    hide Options.Enabled;
    var heard := d.(probe := d.probe.(ttype := d.probe.ttype.(waiting := false)));
    ViolationKeeps(secure, over, heard);
    if |payload| >= 2 {
      NoteKeepsBooks(secure, over, heard, payload[1..]);
    }
  }

  lemma {:induction false} CharsetKeepsBooks(secure: bool, over: bool, d: Session, payload: seq<byte>)
    requires d.nego.options.Valid() && Fair(secure, over, d)
    ensures Calm(secure, over, d, HandleCharset(d, payload))
  {
    hide Accounted;
    hide LastPrompt;
    WriteKeeps(secure, over, d, Report(OPT_CHARSET, [2] + UTF8_NAME));
    WriteKeeps(secure, over, d, Report(OPT_CHARSET, [3]));
    ViolationKeeps(secure, over, d);
    hide Violation;
    hide Write;
    hide SameIgnoringCase;
    hide OffersUtf8;
    hide Utf8;
    hide Options.Enabled;
    hide Options.Valid;
  }

  lemma {:induction false} EnvironKeepsBooks(cfg: Config, over: bool, d: Session, payload: seq<byte>)
    requires d.nego.options.Valid() && Fair(cfg.secure, over, d)
    ensures Calm(cfg.secure, over, d, HandleEnviron(cfg, d, payload))
  {
    hide Accounted;
    hide LastPrompt;
    hide ApplyVariables;
    hide UpdateMetadata;
    hide NewEnviron.Decode;
    hide Options.Valid;
    hide Options.Enabled;
    if payload != [] {
      MetadataKeeps(cfg, over, ApplyVariables(d, NewEnviron.Decode(payload[1..]).pairs));
    }
  }

  lemma {:induction false} GmcpKeepsBooks(cfg: Config, over: bool, d: Session, payload: seq<byte>)
    requires d.nego.options.Valid() && Fair(cfg.secure, over, d)
    ensures Calm(cfg.secure, over, d, HandleGmcp(cfg, d, payload))
  {
    hide Accounted;
    hide LastPrompt;
    hide Write;
    hide React;
    hide ParseMessage;
    hide SameIgnoringCase;
    hide Enqueue;
    hide Options.Valid;
    hide Options.Enabled;
    if ParseMessage(payload).Some? {
      var m := ParseMessage(payload).value;
      var pinged := SameIgnoringCase(m.package, CORE_PING) && d.term.flags.gmcp;
      var d1 := if pinged then Write(d, Report(OPT_GMCP, CORE_PING)) else d;
      WriteKeeps(cfg.secure, over, d, Report(OPT_GMCP, CORE_PING));
      ReactKeeps(cfg, over, d1, Gmcp(m), false);
    }
  }

  lemma {:induction false} SubKeeps(cfg: Config, over: bool, d: Session, option: byte, payload: seq<byte>)
    requires d.nego.options.Valid() && Fair(cfg.secure, over, d)
    ensures Calm(cfg.secure, over, d, FinishSub(cfg, d, option, payload))
  {
    hide Accounted;
    hide LastPrompt;
    hide Violation;
    hide HandleTtype;
    hide HandleCharset;
    hide HandleEnviron;
    hide HandleGmcp;
    hide Options.Valid;
    hide Options.Enabled;
    hide Clamp;
    if option == OPT_NAWS {
      ViolationKeeps(cfg.secure, over, d);
    } else if option == OPT_TERMINAL_TYPE {
      TypeKeepsBooks(cfg.secure, over, d, payload);
    } else if option == OPT_CHARSET {
      CharsetKeepsBooks(cfg.secure, over, d, payload);
    } else if option == OPT_NEW_ENVIRON {
      EnvironKeepsBooks(cfg, over, d, payload);
    } else if option == OPT_GMCP {
      GmcpKeepsBooks(cfg, over, d, payload);
    }
  }

  // ----- Events and runs -----

  lemma {:induction false} EventKeeps(cfg: Config, over: bool, d: Session, e: Framing.Event, now: nat)
    requires d.nego.options.Valid() && Good(cfg, over, d) && !d.closed && (e.Overflow? ==> over)
    ensures Good(cfg, over, Handle(cfg, d, e, now))
  {
    hide Accounted;
    hide LastPrompt;
    hide ReceiveByte;
    hide ReceiveControl;
    hide ReceiveNegotiation;
    hide FinishSub;
    hide Close;
    hide Violation;
    hide EchoMove;
    hide Options.Valid;
    match e
    case Quiet =>
    case Plain(b) => ByteKeeps(cfg, over, d, b, now);
    case Control(command) => ControlKeeps(cfg, over, d, command);
    case Negotiate(command, option) => NegotiationKeeps(cfg, over, d, command, option);
    case Sub(option, payload) => SubKeeps(cfg, over, d, option, payload); SubKeepsMail(cfg, d, option, payload);
    case Malformed => ViolationKeeps(cfg.secure, over, d);
    case Overflow => CloseKeeps(cfg.secure, over, d, ProtocolError);
  }

  lemma {:induction false} SubKeepsMail(cfg: Config, d: Session, option: byte, payload: seq<byte>)
    requires d.nego.options.Valid()
    ensures FinishSub(cfg, d, option, payload).mail.attached == d.mail.attached
  {
    hide HandleNaws;
    hide HandleTtype;
    hide HandleCharset;
    hide HandleEnviron;
    hide React;
    hide Write;
    hide ParseMessage;
    hide SameIgnoringCase;
    hide IsHandshake;
    hide Options.Valid;
    hide Options.Enabled;
  }

  predicate Overflows(steps: seq<Step>) {
    exists i :: 0 <= i < |steps| && steps[i].event.Overflow?
  }

  lemma {:induction false} StepsKeep(cfg: Config, over: bool, d: Session, steps: seq<Step>)
    requires d.nego.options.Valid() && Good(cfg, over, d) && (Overflows(steps) ==> over)
    ensures Good(cfg, over, After(cfg, d, steps))
    decreases steps
  {
    hide Good;
    hide Handle;
    hide Options.Valid;
    if steps != [] && !d.closed {
      var next := Handle(cfg, d, steps[0].event, steps[0].now);
      EventKeeps(cfg, over, d, steps[0].event, steps[0].now);
      assert Overflows(steps[1..]) ==> Overflows(steps) by {
        if Overflows(steps[1..]) {
          var i :| 0 <= i < |steps[1..]| && steps[1..][i].event.Overflow?;
          assert steps[i + 1].event.Overflow?;
        }
      }
      StepsKeep(cfg, over, next, steps[1..]);
    }
  }

  lemma {:induction false} StartIsGood(cfg: Config, over: bool)
    ensures Good(cfg, over, Started(cfg))
  {
    var d := Fresh();
    assert Fair(cfg.secure, over, d);
    hide Accounted;
    hide LastPrompt;
    RequestAllKeeps(cfg.secure, over, d, OfferedOptions(cfg));
    TellAndPrompt(cfg.secure, over, RequestAll(d, OfferedOptions(cfg)), Banner, NamePrompt);
    hide RequestAll;
    hide OfferedOptions;
    hide Prompt;
    hide Tell;
    hide AllOff;
  }

  lemma {:induction false} RequestAllKeeps(secure: bool, over: bool, d: Session, wanted: seq<Wanted>)
    requires d.nego.options.Valid() && Fair(secure, over, d)
    ensures Fair(secure, over, RequestAll(d, wanted))
    decreases wanted
  {
    hide Accounted;
    hide LastPrompt;
    hide RequestOption;
    hide WriteCommands;
    hide Options.Valid;
    if wanted != [] {
      var w := wanted[0];
      var t := RequestOption(d.nego.options, w.direction, w.option, true);
      CommandsKeep(secure, over, d.(nego := d.nego.(options := t.options)), t.sent);
      RequestAllKeeps(secure, over, AskOption(d, w.direction, w.option, true), wanted[1..]);
    }
  }

  lemma {:induction false} RunIsGood(cfg: Config, chunks: seq<Chunk>)
    ensures Good(cfg, true, Run(cfg, chunks).session)
  {
    var steps := RunIsEvents(cfg, chunks);
    StartIsGood(cfg, true);
    StepsKeep(cfg, true, Started(cfg), steps);
    CloseKeeps(cfg.secure, true, After(cfg, Started(cfg), steps), ByteFlood);
    hide Accounted;
    hide LastPrompt;
    hide Started;
    hide After;
    hide Run;
    hide Close;
    hide Overflows;
  }

  /**
   * A session is closed exactly when it has a reason to be: the application asked for it or
   * left, the policy still refused right after a failed login, one of the notices that end a
   * session was its last word, or an application's line was too long. Before that the peer
   * has broken the protocol fewer than eight times.
   */
  lemma {:induction false} EndsForAReason(cfg: Config, chunks: seq<Chunk>)
    ensures var d := Run(cfg, chunks).session;
            && (d.closed <==> Dismissed(d.trace) || Farewell(d.out) || CutOff(d.out))
            && (!d.closed ==> d.violations < 8)
  {
    hide Run;
    RunIsGood(cfg, chunks);
  }

  /** The protocol-error notice is given for the eighth violation or an overrun report, and then only. */
  lemma {:induction false} ProtocolErrorsAreEight(cfg: Config, steps: seq<Step>)
    ensures var d := After(cfg, Started(cfg), steps);
            && (Told(d.out, ProtocolError) ==> d.violations >= 8 || Overflows(steps))
            && (d.violations >= 8 ==> d.closed)
  {
    StartIsGood(cfg, Overflows(steps));
    StepsKeep(cfg, Overflows(steps), Started(cfg), steps);
    hide Started;
    hide After;
  }

  /**
   * While the session is open the peer has been written exactly what the application wrote,
   * call by call and in order; once it is closed, a beginning of it.
   */
  lemma {:induction false} ApplicationTextIsWritten(cfg: Config, chunks: seq<Chunk>)
    ensures var d := Run(cfg, chunks).session;
            Texts(d.out) <= Voiced(d.trace) && (!d.closed ==> Texts(d.out) == Voiced(d.trace))
  {
    hide Run;
    RunIsGood(cfg, chunks);
  }

  /** The insecure transport is warned of once, and only there: when the first name has been looked up. */
  lemma {:induction false} WarnedOnce(cfg: Config, chunks: seq<Chunk>)
    ensures var d := Run(cfg, chunks).session; Warnings(d.out) == if !cfg.secure && Met(d.trace) then 1 else 0
  {
    hide Run;
    RunIsGood(cfg, chunks);
  }

  /** The prompt on the screen is that of the login state, at every byte boundary of an open session. */
  lemma {:induction false} PromptFitsLogin(cfg: Config, chunks: seq<Chunk>)
    ensures var d := Run(cfg, chunks).session; d.closed || Fits(cfg, d.auth.login, LastPrompt(d.out))
  {
    hide Run;
    RunIsGood(cfg, chunks);
  }

  /** Without an application "ping" is answered, "quit" ends the session, and nothing else does either. */
  lemma {:induction false} FallbackWords(cfg: Config, d: Session, now: nat)
    requires !d.closed && !(d.mail.attached && cfg.onLine)
    requires RateWindow.Consume(d.commandWindow, 1, 25, 5_000, now).allowed
    ensures var r := ProcessCommand(cfg, d, now);
            && d.out < r.out && r.trace == d.trace
            && (r.out[|d.out|] == Say(Pong) <==> SameIgnoringCase(d.input.line, [80, 73, 78, 71]))
            && (r.closed <==> SameIgnoringCase(d.input.line, [81, 85, 73, 84]))
            && (r.closed ==> r.out == d.out + [Say(Goodbye)])
  {
    WordsDiffer(d.input.line);
    hide RateWindow.Consume;
    hide SameIgnoringCase;
    hide React;
  }

  lemma {:induction false} WordsDiffer(line: seq<byte>)
    ensures !(SameIgnoringCase(line, [80, 73, 78, 71]) && SameIgnoringCase(line, [81, 85, 73, 84]))
    ensures !(SameIgnoringCase(line, [72, 69, 76, 80]) && SameIgnoringCase(line, [81, 85, 73, 84]))
    ensures line == [] ==> !SameIgnoringCase(line, [80, 73, 78, 71]) && !SameIgnoringCase(line, [81, 85, 73, 84])
  {
    assert LowerAll([80, 73, 78, 71])[0] == 112 && LowerAll([81, 85, 73, 84])[0] == 113 && LowerAll([72, 69, 76, 80])[0] == 104;
  }

  /** A prompt is followed by EOR when that is on, else by GA unless SUPPRESS-GO-AHEAD is. */
  lemma {:induction false} PromptIsMarked(d: Session, n: Notice)
    requires Safe(d) && !d.closed
    ensures Prompt(d, n).out == d.out + [Say(n)] +
            (if d.nego.options.Enabled(Local, 25) then [Mark(239)]
             else if d.nego.options.Enabled(Local, 3) then [] else [Mark(249)])
  {
    assert d.term.flags == ReadFlags(d.nego.options);
    hide Safe;
  }

  /**
   * The control commands outside line editing: AYT is answered, a stray SE is a violation,
   * and NOP, DM, AO, GA and codes without a meaning change nothing.
   */
  lemma {:induction false} ControlsAre(d: Session, command: byte)
    requires !d.closed
    ensures d.out + [Say(ServerIsHere)] <= ReceiveControl(d, 246).out && ReceiveControl(d, 246) == d.(out := ReceiveControl(d, 246).out)
    ensures ReceiveControl(d, 240).violations == d.violations + 1
    ensures command !in [240, 243, 244, 246, 247, 248] ==> ReceiveControl(d, command) == d
  {
  }
}
