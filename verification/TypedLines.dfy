/**
 * From a keyboard to a completed line: the development client's conversion of terminal input,
 * and what the server makes of it.
 */
module TypedLines {
  import opened Bytes
  import opened RateWindow
  import opened Dialog
  import opened DialogSafety
  import opened QMethod
  import opened Telnet
  import Framing

  // ----- The client's conversion -----

  /** A line feed becomes CR LF. */
  function Crlf(text: seq<byte>): seq<byte> {
    if text == [] then [] else (if text[0] == LF then [CR, LF] else [text[0]]) + Crlf(text[1..])
  }

  function OnWire(text: seq<byte>): seq<byte> {
    Framing.Encode(Framing.Text(Crlf(text)))
  }

  const CONVERTED := 8192

  lemma {:induction false} CrlfConcat(a: seq<byte>, b: seq<byte>)
    ensures Crlf(a + b) == Crlf(a) + Crlf(b)
  {
    if a == [] {
      assert a + b == b;
    } else {
      assert (a + b)[1..] == a[1..] + b;
      CrlfConcat(a[1..], b);
    }
  }

  lemma {:induction false} OnWireConcat(a: seq<byte>, b: seq<byte>)
    ensures OnWire(a + b) == OnWire(a) + OnWire(b)
  {
    CrlfConcat(a, b);
    Framing.QuotedConcat(Crlf(a), Crlf(b));
    hide Crlf;
    hide Framing.Quoted;
  }

  lemma {:induction false} OnWireByte(b: byte)
    ensures OnWire([b]) == if b == LF then [CR, LF] else if b == IAC then [IAC, IAC] else [b]
  {
    assert Crlf([b]) == (if b == LF then [CR, LF] else [b]) + Crlf([]);
    if b == LF {
      assert Crlf([b]) == [CR, LF];
      Framing.QuotedClean([CR, LF]);
    } else {
      assert Framing.Quoted([b]) == (if b == IAC then [IAC, IAC] else [b]) + Framing.Quoted([]);
    }
  }

  lemma {:induction false} OnWireSnoc(text: seq<byte>, i: nat)
    requires i < |text|
    ensures OnWire(text[..i + 1]) == OnWire(text[..i]) + OnWire([text[i]])
  {
    assert text[..i + 1] == text[..i] + [text[i]];
    OnWireConcat(text[..i], [text[i]]);
  }

  /** send_terminal_input: the conversion buffer is never overrun, and longer input is refused. */
  method SendTerminalInput(input: seq<byte>) returns (wire: Option<seq<byte>>)
    ensures wire == if |input| > CONVERTED / 2 then None else Some(OnWire(input))
    ensures wire.Some? ==> |wire.value| <= CONVERTED
  {
    if |input| > CONVERTED / 2 {
      return None;
    }
    var converted := new byte[CONVERTED](_ => 0);
    var length := 0;
    assert OnWire(input[..0]) == [];
    hide OnWire;
    for i := 0 to |input|
      invariant length <= 2 * i
      invariant converted[..length] == OnWire(input[..i])
    {
      OnWireSnoc(input, i);
      OnWireByte(input[i]);
      ghost var before := converted[..length];
      if input[i] == LF {
        converted[length], converted[length + 1] := CR, LF;
        length := length + 2;
        assert converted[..length] == before + [CR, LF];
      } else if input[i] == IAC {
        converted[length], converted[length + 1] := IAC, IAC;
        length := length + 2;
        assert converted[..length] == before + [IAC, IAC];
      } else {
        converted[length] := input[i];
        length := length + 1;
        assert converted[..length] == before + [input[i]];
      }
    }
    assert input[..|input|] == input;
    wire := Some(converted[..length]);
  }

  // ----- Bytes at times of their own -----

  lemma {:induction false} BytesSplit(ticks: seq<Tick>, a: seq<byte>, b: seq<byte>)
    requires BytesOf(ticks) == a + b
    ensures |ticks| == |a| + |b| && ticks == ticks[..|a|] + ticks[|a|..]
    ensures BytesOf(ticks[..|a|]) == a && BytesOf(ticks[|a|..]) == b
  {
    assert |BytesOf(ticks)| == |ticks|;
    assert BytesOf(ticks[..|a|]) == BytesOf(ticks)[..|a|];
    assert BytesOf(ticks[|a|..]) == BytesOf(ticks)[|a|..];
  }

  lemma {:induction false} HandleOnlyAdds(cfg: Config, d: Session, e: Framing.Event, now: nat)
    requires d.nego.options.Valid()
    ensures d.completed <= Handle(cfg, d, e, now).completed
  {
    hide Close;
    hide ReceiveControl;
    hide ReceiveNegotiation;
    hide FinishSub;
    if e.Plain? {
      var d1 := d.(input := d.input.(pendingCr := false));
      LineOnlyAdds(cfg, d1, now);
      LineOnlyAdds(cfg, Append(d1, CR), now);
      hide ProcessLine;
      hide Append;
    }
    hide Options.Valid;
  }

  lemma {:induction false} LineOnlyAdds(cfg: Config, d: Session, now: nat)
    requires d.nego.options.Valid()
    ensures d.completed <= ProcessLine(cfg, d, now).completed
  {
    hide Dispatch;
    hide Overlong;
    hide Consume;
    hide Close;
  }

  lemma {:induction false} TicksOnlyAdd(cfg: Config, c: Conn, ticks: seq<Tick>)
    requires Valid(c)
    ensures c.session.completed <= Feed(cfg, c, ticks).session.completed
    decreases ticks
  {
    if ticks != [] && !c.session.closed {
      var one := Framing.ScanByte(c.scan, ticks[0].b, Framing.SERVER_ROOM);
      HandleOnlyAdds(cfg, c.session, one.event, ticks[0].now);
      hide Handle;
      hide Framing.ScanByte;
      TicksOnlyAdd(cfg, TakeByte(cfg, c, ticks[0].b, ticks[0].now), ticks[1..]);
    }
  }

  /** A refused chunk cuts the bytes short; what was completed until then stays. */
  lemma {:induction false} ChunksCutShort(cfg: Config, c: Conn, chunks: seq<Chunk>)
    requires Valid(c)
    ensures var r := FeedChunks(cfg, c, chunks);
            var fed := Feed(cfg, c, TicksOf(chunks));
            && r.session.completed <= fed.session.completed
            && (!r.session.closed ==> r.scan == fed.scan && r.session == fed.session)
  {
    var ticks := ChunksAreTicks(cfg, c, chunks);
    var rest := TicksOf(chunks)[|ticks|..];
    assert TicksOf(chunks) == ticks + rest;
    FeedConcat(cfg, c, ticks, rest);
    TicksOnlyAdd(cfg, Feed(cfg, c, ticks), rest);
    hide Feed;
    hide FeedChunks;
    hide TicksOf;
    hide Close;
  }

  // ----- Lines -----

  predicate Erases(b: byte) {
    b == BS || b == DEL
  }

  /** A line as typed: text and backspaces. */
  predicate Typable(line: seq<byte>) {
    forall i :: 0 <= i < |line| ==> LineByte(line[i]) || Erases(line[i])
  }

  predicate AllTypable(lines: seq<seq<byte>>) {
    forall i :: 0 <= i < |lines| ==> Typable(lines[i])
  }

  /** What the typist means: a backspace takes back the last byte, if there is one. */
  function Edited(keys: seq<byte>): seq<byte> {
    if keys == [] then []
    else
      var before, b := Edited(keys[..|keys| - 1]), keys[|keys| - 1];
      if !Erases(b) then before + [b] else if before == [] then [] else before[..|before| - 1]
  }

  /** The length that the text had at its longest. */
  function Peak(keys: seq<byte>): (n: nat)
    ensures n >= |Edited(keys)| && n <= |keys|
  {
    if keys == [] then 0
    else
      var before := Peak(keys[..|keys| - 1]);
      if |Edited(keys)| > before then |Edited(keys)| else before
  }

  function Meant(lines: seq<seq<byte>>): seq<seq<byte>> {
    seq(|lines|, i requires 0 <= i < |lines| => Edited(lines[i]))
  }

  /** Lines as a terminal produces them. */
  function Keyed(lines: seq<seq<byte>>): seq<byte> {
    if lines == [] then [] else lines[0] + [LF] + Keyed(lines[1..])
  }

  /** The buffer holds the edited text, or is known to have overflowed. */
  predicate Shows(i: Input, keys: seq<byte>, limit: nat) {
    !i.pendingCr && if Peak(keys) <= limit then i == Input(Edited(keys), false, false) else i.overflow
  }

  /** What a complete line amounts to at the given limit; the text of an overlong one does not matter. */
  function Entered(line: seq<byte>, limit: nat): Input {
    if Peak(line) <= limit then Input(Edited(line), false, false) else Input([], true, false)
  }

  function DoLine(cfg: Config, d: Session, line: seq<byte>, now: nat): (r: Session)
    requires d.nego.options.Valid()
    ensures r.nego.options.Valid()
  {
    ProcessLine(cfg, d.(input := Entered(line, Limit(d.auth.login))), now)
  }

  /** The typed lines' bytes, each at some time. */
  predicate Carries(ticks: seq<Tick>, lines: seq<seq<byte>>) {
    BytesOf(ticks) == OnWire(Keyed(lines))
  }

  function Length(line: seq<byte>): (n: nat)
    ensures n > 0
  {
    OnWireEnds(line);
    |OnWire(line + [LF])|
  }

  lemma {:induction false} OnWireEnds(line: seq<byte>)
    ensures OnWire(line + [LF]) == OnWire(line) + [CR, LF]
  {
    OnWireConcat(line, [LF]);
    OnWireByte(LF);
    hide OnWire;
  }

  lemma {:induction false} CarriesSplit(ticks: seq<Tick>, lines: seq<seq<byte>>)
    requires Carries(ticks, lines) && lines != []
    ensures var n := Length(lines[0]);
            n <= |ticks| && BytesOf(ticks[..n]) == OnWire(lines[0] + [LF]) && Carries(ticks[n..], lines[1..])
  {
    var n := Length(lines[0]);
    OnWireConcat(lines[0] + [LF], Keyed(lines[1..]));
    hide OnWire;
    BytesSplit(ticks, OnWire(lines[0] + [LF]), OnWire(Keyed(lines[1..])));
  }

  /** Line by line, each when its line feed arrives and under the limit of the login state reached by then. */
  function DoLines(cfg: Config, d: Session, lines: seq<seq<byte>>, ticks: seq<Tick>): (r: Session)
    requires d.nego.options.Valid() && Carries(ticks, lines)
    ensures r.nego.options.Valid()
    decreases lines
  {
    if lines == [] || d.closed then d
    else
      CarriesSplit(ticks, lines);
      var n := Length(lines[0]);
      DoLines(cfg, DoLine(cfg, d, lines[0], ticks[n - 1].now), lines[1..], ticks[n..])
  }

  lemma {:induction false} EditedSnoc(keys: seq<byte>, b: byte)
    ensures Edited(keys + [b]) == if !Erases(b) then Edited(keys) + [b] else if Edited(keys) == [] then [] else Edited(keys)[..|Edited(keys)| - 1]
    ensures Peak(keys + [b]) == if |Edited(keys + [b])| > Peak(keys) then |Edited(keys + [b])| else Peak(keys)
  {
    assert (keys + [b])[..|keys|] == keys;
  }

  lemma {:induction false} PlainIsAppended(cfg: Config, d: Session, b: byte, now: nat)
    requires d.nego.options.Valid() && !d.input.pendingCr && (LineByte(b) || Erases(b))
    ensures Handle(cfg, d, Framing.Plain(b), now) == Append(d, b)
  {
    hide ProcessLine;
    hide Append;
    hide EchoMove;
    assert d.(input := d.input.(pendingCr := false)) == d;
  }

  lemma {:induction false} AppendShows(cfg: Config, d: Session, keys: seq<byte>, b: byte, now: nat)
    requires d.nego.options.Valid() && Shows(d.input, keys, Limit(d.auth.login)) && (LineByte(b) || Erases(b))
    ensures var r := Handle(cfg, d, Framing.Plain(b), now);
            r == d.(input := r.input) && Shows(r.input, keys + [b], Limit(d.auth.login))
  {
    PlainIsAppended(cfg, d, b, now);
    EditedSnoc(keys, b);
    hide Handle;
    hide Edited;
    hide Peak;
    hide Limit;
    hide Options.Valid;
  }

  /** One typed key, in one byte or as a doubled 255. */
  lemma {:induction false} TypeByte(cfg: Config, c: Conn, before: seq<byte>, b: byte, ticks: seq<Tick>)
    requires Valid(c) && !c.session.closed && c.scan == Framing.Data && (LineByte(b) || Erases(b))
    requires Shows(c.session.input, before, Limit(c.session.auth.login)) && BytesOf(ticks) == OnWire([b])
    ensures var r := Feed(cfg, c, ticks);
            r == c.(session := c.session.(input := r.session.input)) && Shows(r.session.input, before + [b], Limit(c.session.auth.login))
  {
    OnWireByte(b);
    hide OnWire;
    hide Shows;
    hide Limit;
    assert |BytesOf(ticks)| == |ticks|;
    assert BytesOf(ticks)[0] == ticks[0].b;
    var last := |ticks| - 1;
    AppendShows(cfg, c.session, before, b, ticks[last].now);
    var next := c.(session := Handle(cfg, c.session, Framing.Plain(b), ticks[last].now));
    FeedFirst(cfg, c, ticks);
    if b == IAC {
      assert BytesOf(ticks)[1] == ticks[1].b;
      assert ticks[1..] == [ticks[1]];
      assert TakeByte(cfg, c, IAC, ticks[0].now) == c.(scan := Framing.Iac);
      FeedFirst(cfg, c.(scan := Framing.Iac), ticks[1..]);
      assert ticks[1..][1..] == [];
    } else {
      assert ticks[1..] == [];
    }
    hide Handle;
    FeedNothing(cfg, next, []);
    hide Feed;
  }

  lemma {:induction false} LineSplits(line: seq<byte>)
    requires Typable(line) && line != []
    ensures (LineByte(line[0]) || Erases(line[0])) && Typable(line[1..])
  {
  }

  lemma {:induction false} TypeLine(cfg: Config, c: Conn, before: seq<byte>, line: seq<byte>, ticks: seq<Tick>)
    requires Valid(c) && !c.session.closed && c.scan == Framing.Data && Typable(line)
    requires Shows(c.session.input, before, Limit(c.session.auth.login)) && BytesOf(ticks) == OnWire(line)
    ensures var r := Feed(cfg, c, ticks);
            r == c.(session := c.session.(input := r.session.input)) && Shows(r.session.input, before + line, Limit(c.session.auth.login))
    decreases line
  {
    hide *;
    if line == [] {
      assert before + line == before;
      EmptyWire(ticks);
      FeedNothing(cfg, c, ticks);
    } else {
      var first, rest := [line[0]], line[1..];
      var n := |OnWire(first)|;
      assert line == first + rest;
      OnWireConcat(first, rest);
      BytesSplit(ticks, OnWire(first), OnWire(rest));
      LineSplits(line);
      TypeByte(cfg, c, before, line[0], ticks[..n]);
      FeedConcat(cfg, c, ticks[..n], ticks[n..]);
      assert before + first + rest == before + line;
      TypeLine(cfg, Feed(cfg, c, ticks[..n]), before + first, rest, ticks[n..]);
    }
  }

  lemma {:induction false} EmptyWire(ticks: seq<Tick>)
    requires BytesOf(ticks) == OnWire([])
    ensures ticks == []
  {
    assert |BytesOf(ticks)| == |ticks|;
  }

  /** CR is held back, and the LF completes the line at its own time. */
  lemma {:induction false} PressEnter(cfg: Config, c: Conn, cr: Tick, lf: Tick)
    requires Valid(c) && !c.session.closed && !c.session.input.pendingCr && c.scan == Framing.Data
    requires cr.b == CR && lf.b == LF
    ensures Feed(cfg, c, [cr, lf]) == c.(session := ProcessLine(cfg, c.session, lf.now))
  {
    var d := c.session;
    var held := d.(input := d.input.(pendingCr := true));
    hide ProcessLine;
    assert TakeByte(cfg, c, CR, cr.now) == c.(session := held);
    assert held.(input := held.input.(pendingCr := false)) == d;
    assert TakeByte(cfg, c.(session := held), LF, lf.now) == c.(session := ProcessLine(cfg, d, lf.now));
    hide TakeByte;
    FeedFirst(cfg, c, [cr, lf]);
    assert [cr, lf][1..] == [lf];
    FeedFirst(cfg, c.(session := held), [lf]);
    assert [lf][1..] == [];
    FeedNothing(cfg, c.(session := ProcessLine(cfg, d, lf.now)), []);
    hide Feed;
  }

  /** Only what the buffer shows matters when a line is complete. */
  lemma {:induction false} ShownIsEntered(cfg: Config, d: Session, line: seq<byte>, now: nat)
    requires d.nego.options.Valid() && Shows(d.input, line, Limit(d.auth.login))
    ensures ProcessLine(cfg, d, now) == DoLine(cfg, d, line, now)
  {
    var e := d.(input := Entered(line, Limit(d.auth.login)));
    if Peak(line) <= Limit(d.auth.login) {
      assert e == d;
    } else {
      hide Dispatch;
      hide Overlong;
      hide Close;
      hide Consume;
      hide Edited;
      hide Peak;
      hide Limit;
      hide Options.Valid;
      hide EchoMove;
      var cleared := Input([], false, false);
      assert d.input.(line := [], overflow := false) == cleared && e.input.(line := [], overflow := false) == cleared;
      assert EraseLine(d) == EraseLine(e);
    }
  }

  lemma {:induction false} LineIsDone(cfg: Config, c: Conn, line: seq<byte>, ticks: seq<Tick>)
    requires Valid(c) && !c.session.closed && c.scan == Framing.Data && c.session.input == NO_INPUT
    requires Typable(line) && BytesOf(ticks) == OnWire(line + [LF]) && |ticks| == Length(line)
    ensures var r := DoLine(cfg, c.session, line, ticks[|ticks| - 1].now);
            Feed(cfg, c, ticks) == c.(session := r) && (!r.closed ==> r.input == NO_INPUT)
  {
    OnWireEnds(line);
    hide OnWire;
    var n := |ticks| - 2;
    BytesSplit(ticks, OnWire(line), [CR, LF]);
    assert BytesOf(ticks)[n] == ticks[n].b && BytesOf(ticks)[n + 1] == ticks[n + 1].b;
    assert ticks == ticks[..n] + [ticks[n], ticks[n + 1]];
    assert Shows(NO_INPUT, [], Limit(c.session.auth.login));
    TypeLine(cfg, c, [], line, ticks[..n]);
    assert [] + line == line;
    hide Shows;
    hide Limit;
    var filled := Feed(cfg, c, ticks[..n]);
    PressEnter(cfg, filled, ticks[n], ticks[n + 1]);
    ShownIsEntered(cfg, filled.session, line, ticks[n + 1].now);
    FeedConcat(cfg, c, ticks[..n], [ticks[n], ticks[n + 1]]);
    hide ProcessLine;
    hide Feed;
  }

  lemma {:induction false} LinesAreDone(cfg: Config, c: Conn, lines: seq<seq<byte>>, ticks: seq<Tick>)
    requires Valid(c) && c.scan == Framing.Data && c.session.input == NO_INPUT
    requires AllTypable(lines) && Carries(ticks, lines)
    ensures var r := DoLines(cfg, c.session, lines, ticks);
            Feed(cfg, c, ticks) == c.(session := r) && (!r.closed ==> r.input == NO_INPUT)
    decreases lines
  {
    hide DoLine;
    hide Length;
    if c.session.closed {
      FeedNothing(cfg, c, ticks);
    } else if lines == [] {
      assert |BytesOf(ticks)| == |ticks|;
      FeedNothing(cfg, c, ticks);
    } else {
      CarriesSplit(ticks, lines);
      hide Carries;
      var n := Length(lines[0]);
      LineIsDone(cfg, c, lines[0], ticks[..n]);
      assert ticks == ticks[..n] + ticks[n..];
      FeedConcat(cfg, c, ticks[..n], ticks[n..]);
      hide Feed;
      var next := c.(session := DoLine(cfg, c.session, lines[0], ticks[n - 1].now));
      assert AllTypable(lines[1..]);
      if next.session.closed {
        FeedNothing(cfg, next, ticks[n..]);
      } else {
        LinesAreDone(cfg, next, lines[1..], ticks[n..]);
      }
    }
  }

  // ----- Which lines are completed -----

  /** The lines that fit the limit at their turn, as far as the session gets. */
  function Fitting(cfg: Config, d: Session, lines: seq<seq<byte>>, ticks: seq<Tick>): (r: seq<seq<byte>>)
    requires d.nego.options.Valid() && Carries(ticks, lines)
    ensures |r| <= |lines|
    decreases lines
  {
    if lines == [] || d.closed then []
    else
      CarriesSplit(ticks, lines);
      var n := Length(lines[0]);
      (if Peak(lines[0]) <= Limit(d.auth.login) then [Edited(lines[0])] else [])
      + Fitting(cfg, DoLine(cfg, d, lines[0], ticks[n - 1].now), lines[1..], ticks[n..])
  }

  lemma {:induction false} LineCompletes(cfg: Config, d: Session, line: seq<byte>, now: nat)
    requires d.nego.options.Valid()
    ensures var r := DoLine(cfg, d, line, now);
            var one := if Peak(line) <= Limit(d.auth.login) then [Edited(line)] else [];
            && (r.completed == d.completed || r.completed == d.completed + one)
            && (!r.closed ==> r.completed == d.completed + one)
  {
    hide Dispatch;
    hide Overlong;
    hide Consume;
  }

  lemma {:induction false} AssocLines(a: seq<seq<byte>>, b: seq<seq<byte>>, c: seq<seq<byte>>)
    ensures a + (b + c) == a + b + c && a <= a + (b + c) && a + b <= a + (b + c)
  {
  }

  /**
   * The completed lines are the first of the typed lines that fit and, while the session is
   * open, all of them: none is lost, doubled or merged, and an overlong line is never cut
   * short and accepted.
   */
  lemma {:induction false} CompletedAreFitting(cfg: Config, d: Session, lines: seq<seq<byte>>, ticks: seq<Tick>)
    requires d.nego.options.Valid() && Carries(ticks, lines)
    ensures var r := DoLines(cfg, d, lines, ticks);
            var all := d.completed + Fitting(cfg, d, lines, ticks);
            r.completed <= all && (!r.closed ==> r.completed == all)
    decreases lines
  {
    hide *;
    if lines != [] && !d.closed {
      FittingSteps(cfg, d, lines, ticks);
      var n := Length(lines[0]);
      var now, rest, later := ticks[n - 1].now, lines[1..], ticks[n..];
      var next := DoLine(cfg, d, lines[0], now);
      LineCompletes(cfg, d, lines[0], now);
      var one := if Peak(lines[0]) <= Limit(d.auth.login) then [Edited(lines[0])] else [];
      if next.closed {
        NothingFits(cfg, next, rest, later);
      }
      CompletedAreFitting(cfg, next, rest, later);
      AssocLines(d.completed, one, Fitting(cfg, next, rest, later));
    } else {
      NothingFits(cfg, d, lines, ticks);
    }
  }

  /**
   * Lines typed at the client, cut into any chunks at any times, under any byte, line and
   * command budgets: the server completes the first of the lines that fit, each under the
   * limit of the login state reached by then, and all of them while it stays open. Then it
   * has handled exactly those lines, and is ready for the next one.
   */
  lemma {:induction false} TypedLinesArrive(cfg: Config, c: Conn, lines: seq<seq<byte>>, chunks: seq<Chunk>)
    requires Valid(c) && c.scan == Framing.Data && c.session.input == NO_INPUT
    requires AllTypable(lines) && Carries(TicksOf(chunks), lines)
    ensures var r := FeedChunks(cfg, c, chunks);
            var all := c.session.completed + Fitting(cfg, c.session, lines, TicksOf(chunks));
            && r.session.completed <= all
            && (!r.session.closed ==>
                  && r.session == DoLines(cfg, c.session, lines, TicksOf(chunks)) && r.session.completed == all
                  && r.scan == Framing.Data && r.session.input == NO_INPUT)
  {
    ChunksCutShort(cfg, c, chunks);
    LinesAreDone(cfg, c, lines, TicksOf(chunks));
    CompletedAreFitting(cfg, c.session, lines, TicksOf(chunks));
    hide FeedChunks;
    hide Feed;
    hide DoLines;
    hide Fitting;
    hide Carries;
  }

  /** Lines that never got longer than 128 bytes fit in every login state. */
  lemma {:induction false} ShortLinesFit(cfg: Config, d: Session, lines: seq<seq<byte>>, ticks: seq<Tick>)
    requires d.nego.options.Valid() && Carries(ticks, lines) && forall i :: 0 <= i < |lines| ==> Peak(lines[i]) <= 128
    ensures Fitting(cfg, d, lines, ticks) <= Meant(lines)
    ensures !DoLines(cfg, d, lines, ticks).closed ==> Fitting(cfg, d, lines, ticks) == Meant(lines)
    decreases lines
  {
    hide *;
    if lines != [] && !d.closed {
      CarriesSplit(ticks, lines);
      FittingSteps(cfg, d, lines, ticks);
      var n := Length(lines[0]);
      var rest, later := lines[1..], ticks[n..];
      var next := DoLine(cfg, d, lines[0], ticks[n - 1].now);
      LimitIs(d.auth.login);
      ShortLinesFit(cfg, next, rest, later);
      MeantSplits(lines);
    } else {
      NothingFits(cfg, d, lines, ticks);
      MeantNothing(lines);
    }
  }

  lemma {:induction false} MeantSplits(lines: seq<seq<byte>>)
    requires lines != []
    ensures Meant(lines) == [Edited(lines[0])] + Meant(lines[1..])
  {
    hide Edited;
  }

  lemma {:induction false} MeantNothing(lines: seq<seq<byte>>)
    ensures [] <= Meant(lines) && (lines == [] ==> Meant(lines) == [])
  {
  }

  lemma {:induction false} LimitIs(l: Login)
    ensures Limit(l) == if l.AtPassword? || l.AtNewPassword? || l.AtConfirm? then 128 else 512
  {
  }

  lemma {:induction false} NothingFits(cfg: Config, d: Session, lines: seq<seq<byte>>, ticks: seq<Tick>)
    requires d.nego.options.Valid() && Carries(ticks, lines) && (lines == [] || d.closed)
    ensures Fitting(cfg, d, lines, ticks) == [] && DoLines(cfg, d, lines, ticks) == d
  {
  }

  lemma {:induction false} FittingSteps(cfg: Config, d: Session, lines: seq<seq<byte>>, ticks: seq<Tick>)
    requires d.nego.options.Valid() && Carries(ticks, lines) && lines != [] && !d.closed
    ensures var n := Length(lines[0]);
            && n <= |ticks| && Carries(ticks[n..], lines[1..])
            && var next := DoLine(cfg, d, lines[0], ticks[n - 1].now);
            && DoLines(cfg, d, lines, ticks) == DoLines(cfg, next, lines[1..], ticks[n..])
            && Fitting(cfg, d, lines, ticks)
               == (if Peak(lines[0]) <= Limit(d.auth.login) then [Edited(lines[0])] else []) + Fitting(cfg, next, lines[1..], ticks[n..])
  {
    CarriesSplit(ticks, lines);
    hide Carries;
    hide Length;
    hide DoLine;
  }

  // ----- Line endings -----

  /** The bytes that matter to a line; the others, CR and NUL among them, leave no trace in it. */
  predicate Matters(b: byte) {
    b == 10 || b == 8 || b >= 32
  }

  function Bare(d: Session): Session {
    d.(input := d.input.(pendingCr := false))
  }

  predicate AllPlain(steps: seq<Step>) {
    forall i :: 0 <= i < |steps| ==> steps[i].event.Plain?
  }

  function Pruned(steps: seq<Step>): (r: seq<Step>)
    requires AllPlain(steps)
    ensures AllPlain(r)
  {
    if steps == [] then [] else (if Matters(steps[0].event.b) then [steps[0]] else []) + Pruned(steps[1..])
  }

  lemma {:induction false} OthersDoNotMatter(cfg: Config, d: Session, b: byte, now: nat)
    requires d.nego.options.Valid()
    ensures Bare(ReceiveByte(cfg, d, b, now)) == if Matters(b) then Bare(ReceiveByte(cfg, Bare(d), b, now)) else Bare(d)
  {
    hide ProcessLine;
    hide EchoMove;
    hide Options.Valid;
  }

  /** An LF completes the line whether or not a CR came before it. */
  lemma {:induction false} EveryLfCompletes(cfg: Config, d: Session, now: nat)
    requires d.nego.options.Valid()
    ensures ReceiveByte(cfg, d, 10, now) == ProcessLine(cfg, Bare(d), now)
  {
    hide ProcessLine;
    hide EchoMove;
    hide Options.Valid;
  }

  lemma {:induction false} PruningIsInvisible(cfg: Config, d: Session, steps: seq<Step>)
    requires d.nego.options.Valid() && AllPlain(steps)
    ensures Bare(After(cfg, d, steps)) == Bare(After(cfg, Bare(d), Pruned(steps)))
    decreases steps
  {
    hide ReceiveByte;
    hide EchoMove;
    hide Options.Valid;
    if steps != [] && !d.closed {
      var e, now, rest := steps[0].event, steps[0].now, steps[1..];
      var next := Handle(cfg, d, e, now);
      OthersDoNotMatter(cfg, d, e.b, now);
      PruningIsInvisible(cfg, next, rest);
      if Matters(e.b) {
        var next' := Handle(cfg, Bare(d), e, now);
        assert Bare(next) == Bare(next');
        BareIsEnough(cfg, next', Pruned(rest));
        assert Pruned(steps)[0] == steps[0] && Pruned(steps)[1..] == Pruned(rest);
        assert After(cfg, Bare(d), Pruned(steps)) == After(cfg, next', Pruned(rest));
      } else {
        assert Pruned(steps) == Pruned(rest);
      }
    }
  }

  lemma {:induction false} BareIsEnough(cfg: Config, d: Session, steps: seq<Step>)
    requires d.nego.options.Valid() && AllPlain(steps)
    ensures Bare(After(cfg, d, steps)) == Bare(After(cfg, Bare(d), steps))
    decreases steps
  {
    hide ReceiveByte;
    hide EchoMove;
    hide Options.Valid;
    if steps != [] && !d.closed {
      var e, now, rest := steps[0].event, steps[0].now, steps[1..];
      OthersDoNotMatter(cfg, d, e.b, now);
      OthersDoNotMatter(cfg, Bare(d), e.b, now);
      BareIsEnough(cfg, Handle(cfg, d, e, now), rest);
      BareIsEnough(cfg, Handle(cfg, Bare(d), e, now), rest);
      hide Matters;
    }
  }

  /**
   * Whatever a line is ended with (LF, CR LF or CR NUL LF) and whatever other control bytes
   * come between: data that agree in their visible bytes, erasures and line feeds lead to the
   * same lines, output and login, and to sessions that differ at most in a CR just seen.
   */
  lemma {:induction false} LineEndingsAgree(cfg: Config, d: Session, a: seq<Step>, b: seq<Step>)
    requires d.nego.options.Valid() && AllPlain(a) && AllPlain(b) && Pruned(a) == Pruned(b)
    ensures Bare(After(cfg, d, a)) == Bare(After(cfg, d, b))
  {
    hide After;
    hide Bare;
    PruningIsInvisible(cfg, d, a);
    PruningIsInvisible(cfg, d, b);
  }

  /** The control command EC is a backspace, and EL leaves nothing of the line. */
  lemma {:induction false} ControlsEditTheLine(cfg: Config, d: Session, now: nat)
    requires d.nego.options.Valid()
    ensures Bare(ReceiveControl(d, 247)) == Bare(ReceiveByte(cfg, d, 8, now))
    ensures ReceiveControl(d, 248) == d.(input := Input([], false, false))
  {
    hide ProcessLine;
    hide EchoMove;
    hide Options.Valid;
    hide CurrentPrompt;
    hide Tell;
  }
}
