/**
 * Nobody plays without credentials. Statements are about the trace of calls that a session
 * has made to the account store and the abuse policy, with the answers it was given, and the
 * lines that were typed.
 */
module Credentials {
  import opened Bytes
  import opened QMethod
  import opened Dialog
  import opened DialogSafety
  import opened Telnet
  import Framing
  import NewEnviron
  import PlayerRecord
  import RateWindow

  // ----- What a trace can show -----

  predicate IsPrepared(x: Exchange, password: seq<byte>, token: seq<byte>) {
    x.question == Prepare(password) && x.answer.code == 0 && x.answer.bytes == token
  }

  /** The token is what the store made of the password. */
  predicate Prepared(t: seq<Exchange>, password: seq<byte>, token: seq<byte>) {
    exists j :: 0 <= j < |t| && IsPrepared(t[j], password, token)
  }

  /** The policy allowed an attempt for the name, and the typed line verified. */
  predicate LoggedIn(t: seq<Exchange>, lines: seq<seq<byte>>, name: seq<byte>, i: nat, k: nat) {
    && i + 1 < |t| && k < |lines|
    && t[i].question == AllowAuth(name) && t[i].answer.code != 0
    && t[i + 1].question == Verify(name, lines[k]) && t[i + 1].answer.code == 1
  }

  /**
   * A line matched the token prepared from the line typed just before it, the policy allowed
   * a creation, and the store created the account from that token.
   */
  predicate Registered(t: seq<Exchange>, lines: seq<seq<byte>>, name: seq<byte>, i: nat, k: nat) {
    && i + 2 < |t| && 0 < k < |lines|
    && t[i].question.Matches? && t[i].question.password == lines[k] && t[i].answer.code == 1
    && Prepared(t[..i], lines[k - 1], t[i].question.token)
    && t[i + 1].question == AllowCreation && t[i + 1].answer.code != 0
    && t[i + 2].question == CreateAccount(name, t[i].question.token) && t[i + 2].answer.code == 0
  }

  ghost predicate Earned(t: seq<Exchange>, lines: seq<seq<byte>>, name: seq<byte>) {
    exists i: nat, k: nat :: LoggedIn(t, lines, name, i, k) || Registered(t, lines, name, i, k)
  }

  /** No password is checked unasked or uncounted, and no account made without both permissions. */
  predicate GuardedAt(t: seq<Exchange>, i: nat)
    requires i < |t|
  {
    match t[i].question
    case Verify(name, _) =>
      && 0 < i && t[i - 1].question == AllowAuth(name) && t[i - 1].answer.code != 0
      && i + 1 < |t| && t[i + 1].question == if t[i].answer.code == 1 then NoteSuccess(name) else NoteFailure(name)
    case CreateAccount(_, token) =>
      && 2 <= i && t[i - 1].question == AllowCreation && t[i - 1].answer.code != 0
      && t[i - 2].question.Matches? && t[i - 2].question.token == token && t[i - 2].answer.code == 1
    case _ => true
  }

  predicate Guarded(t: seq<Exchange>) {
    forall i :: 0 <= i < |t| ==> GuardedAt(t, i)
  }

  /** The names that the application was opened for. */
  function Opens(t: seq<Exchange>): seq<seq<byte>> {
    if t == [] then [] else Opens(t[..|t| - 1]) + if t[|t| - 1].question.Open? then [t[|t| - 1].question.name] else []
  }

  /** The application accepted. */
  predicate Accepted(t: seq<Exchange>) {
    exists i :: 0 <= i < |t| && t[i].question.Open? && t[i].answer.code != 0
  }

  ghost predicate TraceOk(cfg: Config, d: Session) {
    && Guarded(d.trace)
    && (d.auth.login.AtConfirm? ==> d.completed != [] && Prepared(d.trace, d.completed[|d.completed| - 1], TokenOf(d.auth)))
    && (d.auth.login.InGame? ==> Earned(d.trace, d.completed, d.auth.player))
    && Opens(d.trace) == (if d.auth.login.InGame? && cfg.open then [d.auth.player] else [])
    && (d.mail.attached <==> Accepted(d.trace))
  }

  // ----- How traces grow -----

  /** Calls that prove nothing by themselves. */
  predicate Mild(q: Question) {
    !q.Verify? && !q.CreateAccount? && !q.Open?
  }

  predicate Milds(a: seq<Exchange>, b: seq<Exchange>) {
    a <= b && forall i :: |a| <= i < |b| ==> Mild(b[i].question)
  }

  /** Calls that have nothing to do with logging in. */
  predicate Neutral(q: Question) {
    q.Line? || q.Gmcp? || q.Capabilities? || q.Snapshot?
  }

  predicate Neutrals(a: seq<Exchange>, b: seq<Exchange>) {
    a <= b && forall i :: |a| <= i < |b| ==> Neutral(b[i].question)
  }

  lemma {:induction false} NeutralsAreMild(a: seq<Exchange>, b: seq<Exchange>)
    requires Neutrals(a, b)
    ensures Milds(a, b)
  {
  }

  lemma {:induction false} NeutralsTransitive(a: seq<Exchange>, b: seq<Exchange>, c: seq<Exchange>)
    requires Neutrals(a, b) && Neutrals(b, c)
    ensures Neutrals(a, c)
  {
  }

  lemma {:induction false} NeutralsReflexive(a: seq<Exchange>)
    ensures Neutrals(a, a)
  {
  }

  lemma {:induction false} MildsReflexive(a: seq<Exchange>)
    ensures Milds(a, a)
  {
  }

  lemma {:induction false} MildsSnoc(a: seq<Exchange>, x: Exchange)
    requires Mild(x.question)
    ensures Milds(a, a + [x])
  {
  }

  lemma {:induction false} PreparedGrows(a: seq<Exchange>, b: seq<Exchange>, password: seq<byte>, token: seq<byte>)
    requires a <= b && Prepared(a, password, token)
    ensures Prepared(b, password, token)
  {
    var j :| 0 <= j < |a| && IsPrepared(a[j], password, token);
    assert b[j] == a[j];
  }

  lemma {:induction false} EarnedGrows(a: seq<Exchange>, b: seq<Exchange>, x: seq<seq<byte>>, y: seq<seq<byte>>, name: seq<byte>)
    requires a <= b && x <= y && Earned(a, x, name)
    ensures Earned(b, y, name)
  {
    var i: nat, k: nat :| LoggedIn(a, x, name, i, k) || Registered(a, x, name, i, k);
    if LoggedIn(a, x, name, i, k) {
      assert LoggedIn(b, y, name, i, k);
    } else {
      assert b[..i] == a[..i];
      assert Registered(b, y, name, i, k);
    }
  }

  lemma {:induction false} GuardedConcat(a: seq<Exchange>, b: seq<Exchange>)
    requires Guarded(a) && Guarded(b)
    ensures Guarded(a + b)
  {
    var t := a + b;
    forall i | 0 <= i < |t| ensures GuardedAt(t, i) {
      if i < |a| {
        assert GuardedAt(a, i);
      } else {
        assert GuardedAt(b, i - |a|);
      }
    }
  }

  lemma {:induction false} GuardedGrows(a: seq<Exchange>, b: seq<Exchange>)
    requires Guarded(a) && Milds(a, b)
    ensures Guarded(b)
  {
    forall i | 0 <= i < |b| ensures GuardedAt(b, i) {
      if i < |a| {
        assert GuardedAt(a, i);
      }
    }
  }

  lemma {:induction false} OpensSnoc(a: seq<Exchange>, x: Exchange)
    ensures Opens(a + [x]) == Opens(a) + if x.question.Open? then [x.question.name] else []
  {
    assert (a + [x])[..|a|] == a;
  }

  lemma {:induction false} OpensGrow(a: seq<Exchange>, b: seq<Exchange>)
    requires Milds(a, b)
    ensures Opens(b) == Opens(a) && (Accepted(b) <==> Accepted(a))
    decreases b
  {
    if |a| == |b| {
      assert a == b;
    } else {
      var front := b[..|b| - 1];
      assert a <= front;
      OpensGrow(a, front);
      AcceptedSnoc(front, b[|b| - 1]);
      assert b == front + [b[|b| - 1]];
    }
  }

  lemma {:induction false} UnopenedIsNotAccepted(t: seq<Exchange>)
    requires Opens(t) == []
    ensures !Accepted(t)
  {
    if t != [] {
      var front := t[..|t| - 1];
      assert t == front + [t[|t| - 1]];
      UnopenedIsNotAccepted(front);
      AcceptedSnoc(front, t[|t| - 1]);
    }
  }

  lemma {:induction false} AcceptedSnoc(a: seq<Exchange>, x: Exchange)
    ensures Accepted(a + [x]) <==> Accepted(a) || (x.question.Open? && x.answer.code != 0)
  {
    var t := a + [x];
    if Accepted(a) {
      var i :| 0 <= i < |a| && a[i].question.Open? && a[i].answer.code != 0;
      assert t[i] == a[i];
    }
    assert t[|a|] == x;
  }

  // ----- Handlers that prove nothing -----

  /** Mild calls leave the proofs as they were. */
  lemma {:induction false} MildKeeps(cfg: Config, d: Session, r: Session)
    requires TraceOk(cfg, d) && Milds(d.trace, r.trace) && r.mail.attached == d.mail.attached
    requires r.auth == d.auth && (if d.auth.login.InGame? then d.completed <= r.completed else r.completed == d.completed)
    ensures TraceOk(cfg, r)
  {
    GuardedGrows(d.trace, r.trace);
    OpensGrow(d.trace, r.trace);
    if d.auth.login.AtConfirm? {
      PreparedGrows(d.trace, r.trace, d.completed[|d.completed| - 1], TokenOf(d.auth));
    }
    if d.auth.login.InGame? {
      EarnedGrows(d.trace, r.trace, d.completed, r.completed, d.auth.player);
    }
    hide Guarded;
    hide Milds;
    hide Prepared;
    hide Earned;
    hide Opens;
    hide Accepted;
  }

  /** So do they on the way between the states in which nothing has been shown yet. */
  lemma {:induction false} MildMoves(cfg: Config, d: Session, r: Session)
    requires TraceOk(cfg, d) && Milds(d.trace, r.trace) && r.mail.attached == d.mail.attached
    requires !d.auth.login.InGame? && !r.auth.login.InGame? && !r.auth.login.AtConfirm?
    ensures TraceOk(cfg, r)
  {
    GuardedGrows(d.trace, r.trace);
    OpensGrow(d.trace, r.trace);
    hide Guarded;
    hide Milds;
    hide Prepared;
    hide Earned;
    hide Opens;
    hide Accepted;
  }

  lemma {:induction false} NegotiationIsNeutral(cfg: Config, d: Session, command: byte, option: byte)
    requires d.nego.options.Valid()
    ensures Neutrals(d.trace, ReceiveNegotiation(cfg, d, command, option).trace)
  {
    hide QMethod.ReceiveOption;
    hide Accepts;
    hide Forget;
    hide WriteCommands;
    hide Options.Valid;
    hide Options.Enabled;
    var step := QMethod.ReceiveOption(d.nego.options, command, option, Accepts(cfg, d.nego.echo, Concerns(command), option));
    var d1 := WriteCommands(d.(nego := d.nego.(options := step.options)), step.sent);
    var d2 := d1.(probe := Forget(d1.probe, d.nego.options, step.options));
    hide UpdateMetadata;
    hide SendMssp;
    hide Neutrals;
    MetadataIsNeutral(cfg, d2);
    SnapshotIsNeutral(cfg, UpdateMetadata(cfg, d2));
    NeutralsReflexive(d.trace);
    if Neutrals(UpdateMetadata(cfg, d2).trace, ReceiveNegotiation(cfg, d, command, option).trace) {
      NeutralsTransitive(d.trace, UpdateMetadata(cfg, d2).trace, ReceiveNegotiation(cfg, d, command, option).trace);
    }
  }

  lemma {:induction false} SnapshotIsNeutral(cfg: Config, d: Session)
    requires d.nego.options.Valid()
    ensures Neutrals(d.trace, SendMssp(cfg, d).trace)
  {
    hide Write;
    hide Options.Valid;
    hide Options.Enabled;
  }

  lemma {:induction false} MetadataIsNeutral(cfg: Config, d: Session)
    requires d.nego.options.Valid()
    ensures Neutrals(d.trace, UpdateMetadata(cfg, d).trace)
  {
    hide ReadFlags;
    hide Bit;
    hide React;
    hide RequestTtype;
    hide RequestCharset;
    hide RequestEnviron;
    hide Options.Valid;
  }

  lemma {:induction false} SubIsNeutral(cfg: Config, d: Session, option: byte, payload: seq<byte>)
    requires d.nego.options.Valid()
    ensures Neutrals(d.trace, FinishSub(cfg, d, option, payload).trace)
  {
    hide HandleNaws;
    hide HandleTtype;
    hide HandleCharset;
    hide HandleEnviron;
    hide HandleGmcp;
    hide Neutrals;
    hide Options.Valid;
    EnvironIsNeutral(cfg, d, payload);
    GmcpIsNeutral(cfg, d, payload);
    NeutralsReflexive(d.trace);
  }

  lemma {:induction false} EnvironIsNeutral(cfg: Config, d: Session, payload: seq<byte>)
    requires d.nego.options.Valid()
    ensures Neutrals(d.trace, HandleEnviron(cfg, d, payload).trace)
  {
    hide NewEnviron.Decode;
    hide ApplyVariables;
    hide UpdateMetadata;
    hide Options.Enabled;
    if payload != [] {
      MetadataIsNeutral(cfg, ApplyVariables(d, NewEnviron.Decode(payload[1..]).pairs));
    }
  }

  lemma {:induction false} GmcpIsNeutral(cfg: Config, d: Session, payload: seq<byte>)
    requires d.nego.options.Valid()
    ensures var r := HandleGmcp(cfg, d, payload); Neutrals(d.trace, r.trace) && r.mail.attached == d.mail.attached
  {
    hide ParseMessage;
    hide Write;
    hide React;
    hide SameIgnoringCase;
    hide IsHandshake;
    hide Options.Enabled;
  }

  lemma {:induction false} HandAllIsNeutral(cfg: Config, d: Session, ms: seq<Message>)
    ensures Neutrals(d.trace, HandAll(cfg, d, ms).trace)
    decreases ms
  {
    if ms != [] {
      hide React;
      var next := React(cfg, d, Gmcp(ms[0]));
      HandAllIsNeutral(cfg, next, ms[1..]);
      NeutralsTransitive(d.trace, next.trace, HandAll(cfg, d, ms).trace);
    }
  }

  // ----- Lines -----

  /** What holds when a line is dispatched: the line has just been added to the completed ones. */
  ghost predicate AtLine(cfg: Config, d: Session) {
    d.completed != [] && d.completed[|d.completed| - 1] == d.input.line
    && TraceOk(cfg, d.(completed := d.completed[..|d.completed| - 1]))
  }

  lemma {:induction false} NameAsks(cfg: Config, d: Session)
    requires d.auth.login.AtName? && d.nego.options.Valid()
    ensures var r := ProcessName(cfg, d);
            && !r.auth.login.InGame? && !r.auth.login.AtConfirm?
            && (r.trace == d.trace || r.trace == Ask(cfg, d, Exists(d.input.line)).trace)
  {
    hide QMethod.RequestOption;
    hide EchoMove;
    hide Options.Valid;
    hide Prompt;
    hide Tell;
    hide EchoOff;
    hide Warn;
    hide PlayerRecord.NameValid;
  }

  lemma {:induction false} NameKeepsTrace(cfg: Config, d: Session)
    requires AtLine(cfg, d) && d.auth.login.AtName? && d.nego.options.Valid()
    ensures TraceOk(cfg, ProcessName(cfg, d))
  {
    hide ProcessName;
    hide TraceOk;
    hide Milds;
    hide EchoMove;
    hide Options.Valid;
    NameAsks(cfg, d);
    MildsReflexive(d.trace);
    MildsSnoc(d.trace, Exchange(Exists(d.input.line), cfg.tape(|d.trace|)));
    MildMoves(cfg, d.(completed := d.completed[..|d.completed| - 1]), ProcessName(cfg, d));
  }

  lemma {:induction false} NewAsks(cfg: Config, d: Session)
    requires d.auth.login.AtNewPassword? && d.nego.options.Valid()
    ensures var r := ProcessNew(cfg, d);
            && Milds(d.trace, r.trace) && !r.auth.login.InGame? && r.completed == d.completed && r.mail == d.mail
            && (r.auth.login.AtConfirm? ==> r.trace != [] && IsPrepared(r.trace[|r.trace| - 1], d.input.line, TokenOf(r.auth)))
  {
    hide QMethod.RequestOption;
    hide EchoMove;
    hide Options.Valid;
    hide Prompt;
    hide Tell;
    hide StartOver;
  }

  lemma {:induction false} NewKeepsTrace(cfg: Config, d: Session)
    requires AtLine(cfg, d) && d.auth.login.AtNewPassword? && d.nego.options.Valid()
    ensures TraceOk(cfg, ProcessNew(cfg, d))
  {
    hide ProcessNew;
    hide Guarded;
    hide Opens;
    hide Accepted;
    hide Milds;
    hide Earned;
    var r := ProcessNew(cfg, d);
    NewAsks(cfg, d);
    GuardedGrows(d.trace, r.trace);
    OpensGrow(d.trace, r.trace);
  }

  /** Entering: at most the application's opening is proved, the rest is mild. */
  lemma {:induction false} EnterAsks(cfg: Config, d: Session)
    requires !d.mail.attached
    ensures var r := EnterGame(cfg, d);
            var x := Exchange(Open(d.auth.player), cfg.tape(|d.trace|));
            if cfg.open then Neutrals(d.trace + [x], r.trace) && (r.mail.attached <==> x.answer.code != 0)
            else r.trace == d.trace && !r.mail.attached
  {
    hide React;
    hide Prompt;
    hide Tell;
    hide Close;
    var d1 := React(cfg, d.(auth := d.auth.(login := InGame)), Open(d.auth.player));
    HandAllIsNeutral(cfg, d1.(mail := Mail([], true)), d1.mail.queue);
    hide HandAll;
  }

  /** A session that has earned it may enter. */
  lemma {:induction false} EnteringKeepsTrace(cfg: Config, d: Session)
    requires Guarded(d.trace) && Earned(d.trace, d.completed, d.auth.player) && Opens(d.trace) == []
    requires !Accepted(d.trace) && !d.mail.attached
    ensures TraceOk(cfg, EnterGame(cfg, d))
  {
    EnterAsks(cfg, d);
    var r := EnterGame(cfg, d);
    var x := Exchange(Open(d.auth.player), cfg.tape(|d.trace|));
    var t := d.trace + [x];
    if cfg.open {
      assert Guarded([x]);
      GuardedConcat(d.trace, [x]);
      NeutralsAreMild(t, r.trace);
      GuardedGrows(t, r.trace);
      OpensSnoc(d.trace, x);
      AcceptedSnoc(d.trace, x);
      OpensGrow(t, r.trace);
      EarnedGrows(d.trace, r.trace, d.completed, d.completed, d.auth.player);
    }
    hide EnterGame;
    hide Guarded;
    hide Earned;
    hide Opens;
    hide Accepted;
  }

  /** A block of calls that is guarded in itself and opens nothing. */
  lemma {:induction false} BlockKeeps(a: seq<Exchange>, b: seq<Exchange>)
    requires Guarded(a) && Guarded(b) && forall i :: 0 <= i < |b| ==> !b[i].question.Open?
    ensures Guarded(a + b) && Opens(a + b) == Opens(a) && (Accepted(a + b) <==> Accepted(a))
    decreases b
  {
    GuardedConcat(a, b);
    hide Guarded;
    OpensUnmoved(a, b);
  }

  lemma {:induction false} OpensUnmoved(a: seq<Exchange>, b: seq<Exchange>)
    requires forall i :: 0 <= i < |b| ==> !b[i].question.Open?
    ensures Opens(a + b) == Opens(a) && (Accepted(a + b) <==> Accepted(a))
    decreases b
  {
    if b == [] {
      assert a + b == a;
    } else {
      var front, x := b[..|b| - 1], b[|b| - 1];
      OpensUnmoved(a, front);
      assert a + b == a + front + [x];
      OpensSnoc(a + front, x);
      AcceptedSnoc(a + front, x);
    }
  }

  lemma {:induction false} Snoc4(t: seq<Exchange>, a: Exchange, b: Exchange, c: Exchange, e: Exchange)
    ensures t + [a] + [b] == t + [a, b]
    ensures t + [a] + [b] + [c] == t + [a, b, c]
    ensures t + [a] + [b] + [c] + [e] == t + [a, b, c, e]
  {
  }

  lemma {:induction false} PasswordFails(cfg: Config, d: Session, a: Exchange, b: Exchange)
    requires d.nego.options.Valid()
    requires a == Exchange(AllowAuth(d.auth.player), cfg.tape(|d.trace|))
    requires b == Exchange(Verify(d.auth.player, d.input.line), cfg.tape(|d.trace| + 1))
    requires a.answer.code == 0 || b.answer.code != 1
    ensures var r := ProcessPassword(cfg, d);
            var bad := Exchange(NoteFailure(d.auth.player), cfg.tape(|d.trace| + 2));
            var again := Exchange(AllowAuth(d.auth.player), cfg.tape(|d.trace| + 3));
            && r.mail == d.mail && r.completed == d.completed && r.auth == d.auth
            && r.trace == d.trace + if a.answer.code == 0 then [a] else [a, b, bad, again]
  {
    Snoc4(d.trace, a, b, Exchange(NoteFailure(d.auth.player), cfg.tape(|d.trace| + 2)), Exchange(AllowAuth(d.auth.player), cfg.tape(|d.trace| + 3)));
    hide EchoMove;
    hide Options.Valid;
    hide Prompt;
    hide Tell;
    hide Close;
    hide EnterGame;
    hide EchoOn;
  }

  lemma {:induction false} PasswordSucceeds(cfg: Config, d: Session, a: Exchange, b: Exchange) returns (e: Session)
    requires d.nego.options.Valid()
    requires a == Exchange(AllowAuth(d.auth.player), cfg.tape(|d.trace|))
    requires b == Exchange(Verify(d.auth.player, d.input.line), cfg.tape(|d.trace| + 1))
    requires a.answer.code != 0 && b.answer.code == 1
    ensures ProcessPassword(cfg, d) == EnterGame(cfg, e)
    ensures e.mail == d.mail && e.completed == d.completed && e.auth.player == d.auth.player
    ensures e.trace == d.trace + [a, b, Exchange(NoteSuccess(d.auth.player), cfg.tape(|d.trace| + 2))]
  {
    var ok := Exchange(NoteSuccess(d.auth.player), cfg.tape(|d.trace| + 2));
    Snoc4(d.trace, a, b, ok, ok);
    hide EchoMove;
    hide Options.Valid;
    hide Prompt;
    hide Tell;
    hide Close;
    hide EnterGame;
    hide EchoOn;
    e := EchoOn(EraseLine(d).(trace := d.trace + [a] + [b] + [ok]));
  }

  lemma {:induction false} PasswordKeepsTrace(cfg: Config, d: Session)
    requires AtLine(cfg, d) && d.auth.login.AtPassword? && d.nego.options.Valid()
    ensures TraceOk(cfg, ProcessPassword(cfg, d))
  {
    hide ProcessPassword;
    hide EnterGame;
    hide Opens;
    hide Accepted;
    hide Options.Valid;
    var name, n, t := d.auth.player, |d.trace|, d.trace;
    var a := Exchange(AllowAuth(name), cfg.tape(n));
    var b := Exchange(Verify(name, d.input.line), cfg.tape(n + 1));
    if a.answer.code == 0 || b.answer.code != 1 {
      var bad, again := Exchange(NoteFailure(name), cfg.tape(n + 2)), Exchange(AllowAuth(name), cfg.tape(n + 3));
      PasswordFails(cfg, d, a, b);
      var block := if a.answer.code == 0 then [a] else [a, b, bad, again];
      assert Guarded(block);
      hide Guarded;
      BlockKeeps(t, block);
    } else {
      var e := PasswordSucceeds(cfg, d, a, b);
      var block := [a, b, Exchange(NoteSuccess(name), cfg.tape(n + 2))];
      assert Guarded(block);
      hide Guarded;
      BlockKeeps(t, block);
      assert LoggedIn(t + block, d.completed, name, n, |d.completed| - 1);
      UnopenedIsNotAccepted(t);
      EnteringKeepsTrace(cfg, e);
    }
  }

  lemma {:induction false} ConfirmKeepsTrace(cfg: Config, d: Session)
    requires AtLine(cfg, d) && d.auth.login.AtConfirm? && d.nego.options.Valid()
    ensures TraceOk(cfg, ProcessConfirm(cfg, d))
  {
    hide ProcessConfirm;
    hide EnterGame;
    hide Opens;
    hide Accepted;
    hide Options.Valid;
    hide Prepared;
    var name, token, n, t := d.auth.player, TokenOf(d.auth), |d.trace|, d.trace;
    var a := Exchange(Matches(token, d.input.line), cfg.tape(n));
    var b := Exchange(AllowCreation, cfg.tape(n + 1));
    var c := Exchange(CreateAccount(name, token), cfg.tape(n + 2));
    if a.answer.code != 1 || b.answer.code == 0 || c.answer.code != 0 {
      ConfirmFails(cfg, d, a, b, c);
      var block := if a.answer.code != 1 then [a] else if b.answer.code == 0 then [a, b] else [a, b, c];
      assert Guarded(block);
      hide Guarded;
      BlockKeeps(t, block);
    } else {
      var e := ConfirmSucceeds(cfg, d, a, b, c);
      var block := [a, b, c, Exchange(NoteSuccess(name), cfg.tape(n + 3))];
      assert Guarded(block);
      hide Guarded;
      BlockKeeps(t, block);
      assert (t + block)[..n] == t;
      assert Registered(t + block, d.completed, name, n, |d.completed| - 1);
      UnopenedIsNotAccepted(t);
      EnteringKeepsTrace(cfg, e);
    }
  }

  lemma {:induction false} ConfirmSucceeds(cfg: Config, d: Session, a: Exchange, b: Exchange, c: Exchange) returns (e: Session)
    requires d.nego.options.Valid() && d.auth.login.AtConfirm?
    requires a == Exchange(Matches(TokenOf(d.auth), d.input.line), cfg.tape(|d.trace|))
    requires b == Exchange(AllowCreation, cfg.tape(|d.trace| + 1))
    requires c == Exchange(CreateAccount(d.auth.player, TokenOf(d.auth)), cfg.tape(|d.trace| + 2))
    requires a.answer.code == 1 && b.answer.code != 0 && c.answer.code == 0
    ensures ProcessConfirm(cfg, d) == EnterGame(cfg, e)
    ensures e.mail == d.mail && e.completed == d.completed && e.auth.player == d.auth.player
    ensures e.trace == d.trace + [a, b, c, Exchange(NoteSuccess(d.auth.player), cfg.tape(|d.trace| + 3))]
  {
    var ok := Exchange(NoteSuccess(d.auth.player), cfg.tape(|d.trace| + 3));
    Snoc4(d.trace, a, b, c, ok);
    hide EchoMove;
    hide Options.Valid;
    hide Prompt;
    hide Tell;
    hide StartOver;
    hide EnterGame;
    hide EchoOn;
    e := EchoOn(EraseLine(d).(trace := d.trace + [a] + [b] + [c] + [ok], auth := d.auth.(token := None)));
  }

  lemma {:induction false} ConfirmFails(cfg: Config, d: Session, a: Exchange, b: Exchange, c: Exchange)
    requires d.nego.options.Valid() && d.auth.login.AtConfirm?
    requires a == Exchange(Matches(TokenOf(d.auth), d.input.line), cfg.tape(|d.trace|))
    requires b == Exchange(AllowCreation, cfg.tape(|d.trace| + 1))
    requires c == Exchange(CreateAccount(d.auth.player, TokenOf(d.auth)), cfg.tape(|d.trace| + 2))
    requires a.answer.code != 1 || b.answer.code == 0 || c.answer.code != 0
    ensures var r := ProcessConfirm(cfg, d);
            && r.mail == d.mail && r.completed == d.completed && (r.auth.login.AtName? || r.auth.login.AtNewPassword?)
            && r.trace == d.trace + if a.answer.code != 1 then [a] else if b.answer.code == 0 then [a, b] else [a, b, c]
  {
    Snoc4(d.trace, a, b, c, c);
    hide QMethod.RequestOption;
    hide EchoMove;
    hide Options.Valid;
    hide Prompt;
    hide Tell;
    hide StartOver;
    hide EnterGame;
    hide EchoOn;
  }

  lemma {:induction false} CommandAsks(cfg: Config, d: Session, now: nat)
    ensures Neutrals(d.trace, ProcessCommand(cfg, d, now).trace)
  {
    hide Prompt;
    hide Tell;
    hide Close;
    hide React;
    hide RateWindow.Consume;
    hide SameIgnoringCase;
  }

  lemma {:induction false} CommandKeepsTrace(cfg: Config, d: Session, now: nat)
    requires AtLine(cfg, d) && d.auth.login.InGame?
    ensures TraceOk(cfg, ProcessCommand(cfg, d, now))
  {
    hide ProcessCommand;
    hide TraceOk;
    hide Milds;
    hide Neutrals;
    CommandAsks(cfg, d, now);
    NeutralsAreMild(d.trace, ProcessCommand(cfg, d, now).trace);
    MildKeeps(cfg, d.(completed := d.completed[..|d.completed| - 1]), ProcessCommand(cfg, d, now));
  }

  lemma {:induction false} DispatchKeepsTrace(cfg: Config, d: Session, now: nat)
    requires AtLine(cfg, d) && d.nego.options.Valid()
    ensures TraceOk(cfg, Dispatch(cfg, d, now))
  {
    hide ProcessName;
    hide ProcessPassword;
    hide ProcessNew;
    hide ProcessConfirm;
    hide ProcessCommand;
    hide QMethod.RequestOption;
    hide EchoMove;
    hide Options.Valid;
    hide AtLine;
    hide TraceOk;
    match d.auth.login
    case AtName => NameKeepsTrace(cfg, d);
    case AtPassword => PasswordKeepsTrace(cfg, d);
    case AtNewPassword => NewKeepsTrace(cfg, d);
    case AtConfirm => ConfirmKeepsTrace(cfg, d);
    case InGame => CommandKeepsTrace(cfg, d, now);
  }

  lemma {:induction false} OverlongKeepsTrace(cfg: Config, d: Session)
    requires TraceOk(cfg, d)
    ensures TraceOk(cfg, Overlong(d))
  {
    hide Prompt;
    hide Tell;
    hide Close;
    hide Guarded;
    hide Prepared;
    hide Earned;
    hide Opens;
    hide Accepted;
  }

  /** The invariant does not depend on the input, the output or the windows. */
  lemma {:induction false} TraceOkSame(cfg: Config, d: Session, r: Session)
    requires TraceOk(cfg, d) && r.trace == d.trace && r.auth == d.auth && r.completed == d.completed && r.mail == d.mail
    ensures TraceOk(cfg, r)
  {
    hide Guarded;
    hide Prepared;
    hide Earned;
    hide Opens;
    hide Accepted;
  }

  lemma {:induction false} LineKeepsTrace(cfg: Config, d: Session, now: nat)
    requires TraceOk(cfg, d) && d.nego.options.Valid()
    ensures TraceOk(cfg, ProcessLine(cfg, d, now))
  {
    hide TraceOk;
    hide RateWindow.Consume;
    hide Close;
    hide Overlong;
    hide Dispatch;
    hide EchoMove;
    hide Options.Valid;
    var c := RateWindow.Consume(d.lineWindow, 1, LINES_PER_WINDOW, LINES_SPAN, now);
    var r := ProcessLine(cfg, d, now);
    var counted := d.(lineWindow := c.window);
    var cleared := d.input.(line := [], overflow := false);
    if !c.allowed {
      TraceOkSame(cfg, d, r);
    } else if d.input.overflow {
      TraceOkSame(cfg, d, counted.(input := cleared));
      OverlongKeepsTrace(cfg, counted.(input := cleared));
    } else {
      var lined := counted.(completed := d.completed + [d.input.line]);
      assert lined.completed[..|d.completed|] == d.completed;
      TraceOkSame(cfg, d, lined.(completed := lined.completed[..|lined.completed| - 1]));
      DispatchKeepsTrace(cfg, lined, now);
      assert r == Dispatch(cfg, lined, now).(input := cleared);
      TraceOkSame(cfg, Dispatch(cfg, lined, now), r);
    }
  }

  // ----- Every event and every run -----

  lemma {:induction false} ByteKeepsTrace(cfg: Config, d: Session, b: byte, now: nat)
    requires TraceOk(cfg, d) && d.nego.options.Valid()
    ensures TraceOk(cfg, ReceiveByte(cfg, d, b, now))
  {
    hide TraceOk;
    hide ProcessLine;
    hide Append;
    hide EchoMove;
    hide Options.Valid;
    var d1 := d.(input := d.input.(pendingCr := false));
    var d2 := if d.input.pendingCr then Append(d1, CR) else d1;
    if b == LF {
      TraceOkSame(cfg, d, d1);
      TraceOkSame(cfg, d, d2);
      LineKeepsTrace(cfg, d1, now);
      LineKeepsTrace(cfg, d2, now);
    } else {
      TraceOkSame(cfg, d, ReceiveByte(cfg, d, b, now));
    }
  }

  lemma {:induction false} ControlKeepsTrace(cfg: Config, d: Session, command: byte)
    requires TraceOk(cfg, d)
    ensures TraceOk(cfg, ReceiveControl(d, command))
  {
    hide CurrentPrompt;
    hide Tell;
    hide Violation;
    hide Guarded;
    hide Prepared;
    hide Earned;
    hide Opens;
    hide Accepted;
  }

  lemma {:induction false} SubKeepsAttached(cfg: Config, d: Session, option: byte, payload: seq<byte>)
    requires d.nego.options.Valid()
    ensures FinishSub(cfg, d, option, payload).mail.attached == d.mail.attached
  {
    hide HandleNaws;
    hide HandleTtype;
    hide HandleCharset;
    hide HandleEnviron;
    hide HandleGmcp;
    hide Neutrals;
    hide Options.Valid;
    GmcpIsNeutral(cfg, d, payload);
  }

  lemma {:induction false} EventKeepsTrace(cfg: Config, d: Session, e: Framing.Event, now: nat)
    requires TraceOk(cfg, d) && d.nego.options.Valid()
    ensures TraceOk(cfg, Handle(cfg, d, e, now))
  {
    hide TraceOk;
    hide Milds;
    hide Neutrals;
    hide ReceiveByte;
    hide ReceiveControl;
    hide ReceiveNegotiation;
    hide FinishSub;
    hide Violation;
    hide Close;
    hide Options.Valid;
    hide EchoMove;
    match e
    case Plain(b) => ByteKeepsTrace(cfg, d, b, now);
    case Control(command) => ControlKeepsTrace(cfg, d, command);
    case Negotiate(command, option) =>
      NegotiationIsNeutral(cfg, d, command, option);
      NeutralsAreMild(d.trace, ReceiveNegotiation(cfg, d, command, option).trace);
      MildKeeps(cfg, d, ReceiveNegotiation(cfg, d, command, option));
    case Sub(option, payload) =>
      SubIsNeutral(cfg, d, option, payload);
      NeutralsAreMild(d.trace, FinishSub(cfg, d, option, payload).trace);
      SubKeepsAttached(cfg, d, option, payload);
      MildKeeps(cfg, d, FinishSub(cfg, d, option, payload));
    case Quiet =>
    case Malformed => TraceOkSame(cfg, d, Violation(d));
    case Overflow => TraceOkSame(cfg, d, Close(d, Some(ProtocolError)));
  }

  lemma {:induction false} StepsKeepTrace(cfg: Config, d: Session, steps: seq<Step>)
    requires TraceOk(cfg, d) && d.nego.options.Valid()
    ensures TraceOk(cfg, After(cfg, d, steps))
    decreases steps
  {
    hide TraceOk;
    hide Handle;
    if steps != [] && !d.closed {
      EventKeepsTrace(cfg, d, steps[0].event, steps[0].now);
      StepsKeepTrace(cfg, Handle(cfg, d, steps[0].event, steps[0].now), steps[1..]);
    }
  }

  lemma {:induction false} StartHasNoTrace(cfg: Config)
    ensures TraceOk(cfg, Started(cfg))
  {
    hide Prompt;
    hide Tell;
    hide RequestAll;
    hide AllOff;
    hide OfferedOptions;
  }

  /**
   * After any byte stream, against any answers: a session is in the game only if, for the
   * very name it reports, the policy allowed an attempt and a typed line verified, or a line
   * matched the token prepared from the line before it, the policy allowed a creation and
   * the store created the account from that token. No password was checked without
   * permission or without being counted, no account was made without confirmation and
   * permission, and the application was opened exactly once, for that name, if at all.
   */
  lemma {:induction false} EntryIsEarned(cfg: Config, chunks: seq<Chunk>)
    ensures var d := Run(cfg, chunks).session;
            && (d.auth.login.InGame? ==> Earned(d.trace, d.completed, d.auth.player))
            && Guarded(d.trace)
            && Opens(d.trace) == (if d.auth.login.InGame? && cfg.open then [d.auth.player] else [])
            && (d.mail.attached <==> Accepted(d.trace))
  {
    var steps := RunIsEvents(cfg, chunks);
    StartHasNoTrace(cfg);
    StepsKeepTrace(cfg, Started(cfg), steps);
    hide Run;
    hide After;
    hide Close;
    hide Guarded;
    hide Prepared;
    hide Earned;
    hide Opens;
    hide Accepted;
  }
}
