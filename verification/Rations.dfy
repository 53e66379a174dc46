/**
 * The budgets of a whole session: how many lines and commands are handled, and how many bytes
 * are read over Telnet and SSH, in any stretch of time.
 */
module Rations {
  import opened Bytes
  import opened QMethod
  import opened RateWindow
  import opened Dialog
  import opened DialogSafety
  import opened Telnet
  import Framing
  import SshEditor

  datatype Ration = Lines | Commands

  function WindowOf(d: Session, k: Ration): Window {
    if k.Lines? then d.lineWindow else d.commandWindow
  }

  function Most(k: Ration): nat {
    if k.Lines? then 30 else 25
  }

  function Span(k: Ration): nat {
    if k.Lines? then 10_000 else 5_000
  }

  /** Every LF asks for a line; one that is granted and fits asks for a command in the game. */
  function Asks(d: Session, e: Framing.Event, now: nat, k: Ration): seq<Use> {
    if e != Framing.Plain(10) then []
    else if k.Lines? then [Use(1, now)]
    else if Consume(d.lineWindow, 1, 30, 10_000, now).allowed && !d.input.overflow && d.auth.login.InGame? then [Use(1, now)]
    else []
  }

  function Charged(w: Window, uses: seq<Use>, k: Ration): Window {
    if uses == [] then w else Consume(w, uses[0].amount, Most(k), Span(k), uses[0].now).window
  }

  lemma {:induction false} LineSpends(cfg: Config, d: Session, now: nat, k: Ration)
    requires d.nego.options.Valid()
    ensures WindowOf(ProcessLine(cfg, d, now), k) == Charged(WindowOf(d, k), Asks(d, Framing.Plain(10), now, k), k)
  {
    hide Consume;
    hide Close;
    hide Overlong;
    hide ProcessName;
    hide ProcessPassword;
    hide ProcessNew;
    hide ProcessConfirm;
    hide React;
    hide Prompt;
    hide Tell;
    hide SameIgnoringCase;
    hide EchoMove;
    hide Options.Valid;
  }

  lemma {:induction false} ByteSpends(cfg: Config, d: Session, b: byte, now: nat, k: Ration)
    requires d.nego.options.Valid()
    ensures WindowOf(ReceiveByte(cfg, d, b, now), k) == Charged(WindowOf(d, k), Asks(d, Framing.Plain(b), now, k), k)
  {
    hide Charged;
    hide ProcessLine;
    hide EchoMove;
    hide Options.Valid;
    var d1 := d.(input := d.input.(pendingCr := false));
    if b == 10 {
      assert ReceiveByte(cfg, d, b, now) == ProcessLine(cfg, d1, now);
      LineSpends(cfg, d1, now, k);
    } else {
      assert WindowOf(ReceiveByte(cfg, d, b, now), k) == WindowOf(d, k);
      NoCharge(WindowOf(d, k), k);
    }
  }

  lemma {:induction false} NoCharge(w: Window, k: Ration)
    ensures Charged(w, [], k) == w
  {
  }

  lemma {:induction false} EventSpends(cfg: Config, d: Session, e: Framing.Event, now: nat, k: Ration)
    requires d.nego.options.Valid()
    ensures WindowOf(Handle(cfg, d, e, now), k) == Charged(WindowOf(d, k), Asks(d, e, now, k), k)
  {
    hide Charged;
    hide Asks;
    hide ReceiveByte;
    hide ReceiveControl;
    hide ReceiveNegotiation;
    hide FinishSub;
    hide Close;
    hide EchoMove;
    hide Options.Valid;
    if e.Plain? {
      ByteSpends(cfg, d, e.b, now, k);
    } else {
      NoAsks(d, e, now, k);
      NoCharge(WindowOf(d, k), k);
    }
  }

  lemma {:induction false} NoAsks(d: Session, e: Framing.Event, now: nat, k: Ration)
    requires !e.Plain?
    ensures Asks(d, e, now, k) == []
  {
  }

  /** What is asked for in the course of a run. */
  function AllAsks(cfg: Config, d: Session, steps: seq<Step>, k: Ration): seq<Use>
    requires d.nego.options.Valid()
    decreases steps
  {
    if steps == [] || d.closed then []
    else Asks(d, steps[0].event, steps[0].now, k) + AllAsks(cfg, Handle(cfg, d, steps[0].event, steps[0].now), steps[1..], k)
  }

  lemma {:induction false} ChargedIsSpent(done: seq<Use>, uses: seq<Use>, k: Ration)
    requires |uses| <= 1
    ensures SpendAll(done + uses, Most(k), Span(k)).window == Charged(SpendAll(done, Most(k), Span(k)).window, uses, k)
  {
    hide Consume;
    if uses == [] {
      assert done + uses == done;
    } else {
      assert (done + uses)[..|done|] == done && (done + uses)[|done|] == uses[0];
    }
  }

  lemma {:induction false} RunSpends(cfg: Config, d: Session, steps: seq<Step>, k: Ration, done: seq<Use>)
    requires d.nego.options.Valid() && WindowOf(d, k) == SpendAll(done, Most(k), Span(k)).window
    ensures WindowOf(After(cfg, d, steps), k) == SpendAll(done + AllAsks(cfg, d, steps, k), Most(k), Span(k)).window
    decreases steps
  {
    hide Handle;
    hide SpendAll;
    hide Consume;
    hide Options.Valid;
    if steps == [] || d.closed {
      assert done + AllAsks(cfg, d, steps, k) == done;
    } else {
      var e, now := steps[0].event, steps[0].now;
      var next, uses := Handle(cfg, d, e, now), Asks(d, e, now, k);
      EventSpends(cfg, d, e, now, k);
      ChargedIsSpent(done, uses, k);
      hide Charged;
      hide Asks;
      RunSpends(cfg, next, steps[1..], k, done + uses);
      assert done + uses + AllAsks(cfg, next, steps[1..], k) == done + (uses + AllAsks(cfg, next, steps[1..], k));
    }
  }

  lemma {:induction false} StartIsUnspent(cfg: Config, k: Ration)
    ensures WindowOf(Started(cfg), k) == FRESH
  {
    hide RequestAll;
    hide OfferedOptions;
    hide Prompt;
    hide Tell;
    hide AllOff;
  }

  /** The grants of a session's line or command budget. */
  function Grants(cfg: Config, steps: seq<Step>, k: Ration): seq<Use> {
    SpendAll(AllAsks(cfg, Started(cfg), steps, k), Most(k), Span(k)).grants
  }

  /**
   * Over a whole session, no ten seconds see more than 60 lines handled and no five seconds
   * more than 50 commands. A line is only refused when 30 were handled in less than ten
   * seconds before it, and a command when 25 were in less than five.
   */
  lemma {:induction false} LinesAreRationed(cfg: Config, steps: seq<Step>, k: Ration, from: int, now: nat)
    requires Clocked(AllAsks(cfg, Started(cfg), steps, k) + [Use(1, now)])
    ensures var d := After(cfg, Started(cfg), steps);
            && Granted(Grants(cfg, steps, k), from, from + Span(k)) <= 2 * Most(k)
            && (!Consume(WindowOf(d, k), 1, Most(k), Span(k), now).allowed ==>
                  Granted(Grants(cfg, steps, k), now - Span(k) + 1, now + 1) >= Most(k))
  {
    hide After;
    hide AllAsks;
    hide Started;
    hide SpendAll;
    hide Consume;
    var uses := AllAsks(cfg, Started(cfg), steps, k);
    StartIsUnspent(cfg, k);
    EmptyIsUnspent(k);
    RunSpends(cfg, Started(cfg), steps, k, []);
    assert [] + uses == uses;
    ClockedPrefix(uses, Use(1, now));
    AtMostTwiceTheLimit(uses, from, Most(k), Span(k));
    RefusedOnlyWhenSpent(uses, Use(1, now), Most(k), Span(k));
  }

  lemma {:induction false} EmptyIsUnspent(k: Ration)
    ensures SpendAll([], Most(k), Span(k)).window == FRESH
  {
  }

  lemma {:induction false} ClockedPrefix(uses: seq<Use>, u: Use)
    requires Clocked(uses + [u])
    ensures Clocked(uses)
  {
    assert forall i :: 0 <= i < |uses| ==> (uses + [u])[i] == uses[i];
  }

  /** What a refused line does: the session ends, and nobody hears of the line. */
  lemma {:induction false} RefusedLineEnds(cfg: Config, d: Session, now: nat)
    requires d.nego.options.Valid() && !d.closed
    ensures var r := Handle(cfg, d, Framing.Plain(10), now);
            if Consume(d.lineWindow, 1, 30, 10_000, now).allowed
            then r.completed == if d.input.overflow then d.completed else d.completed + [d.input.line]
            else r.closed && r.out == d.out + [Say(LineFlood)] && r.trace == d.trace && r.completed == d.completed
  {
    hide Consume;
    hide Overlong;
    hide Dispatch;
    hide EchoMove;
    hide Options.Valid;
  }

  // ----- Bytes -----

  /** The chunks that a Telnet session asks to read: all of them until it is closed. */
  function Reads(cfg: Config, c: Conn, chunks: seq<Chunk>): seq<Use>
    requires Valid(c)
    decreases chunks
  {
    if chunks == [] || c.session.closed then []
    else [Use(|chunks[0].bytes|, chunks[0].now)] + Reads(cfg, FeedAt(cfg, c, chunks[0].bytes, chunks[0].now), chunks[1..])
  }

  lemma {:induction false} ChunksSpend(cfg: Config, c: Conn, chunks: seq<Chunk>, done: seq<Use>)
    requires Valid(c) && c.byteWindow == SpendAll(done, 65_536, 5_000).window
    ensures FeedChunks(cfg, c, chunks).byteWindow == SpendAll(done + Reads(cfg, c, chunks), 65_536, 5_000).window
    decreases chunks
  {
    hide Feed;
    if chunks == [] || c.session.closed {
      DoneChunks(cfg, c, chunks);
      assert done + Reads(cfg, c, chunks) == done;
    } else {
      var u := Use(|chunks[0].bytes|, chunks[0].now);
      var next := FeedAt(cfg, c, chunks[0].bytes, chunks[0].now);
      assert (done + [u])[..|done|] == done;
      assert next.byteWindow == SpendAll(done + [u], 65_536, 5_000).window;
      hide SpendAll;
      hide FeedAt;
      ChunksSpend(cfg, next, chunks[1..], done + [u]);
      assert done + [u] + Reads(cfg, next, chunks[1..]) == done + ([u] + Reads(cfg, next, chunks[1..]));
    }
  }

  lemma {:induction false} DoneChunks(cfg: Config, c: Conn, chunks: seq<Chunk>)
    requires Valid(c) && (chunks == [] || c.session.closed)
    ensures FeedChunks(cfg, c, chunks) == c
  {
    hide FeedAt;
    if chunks != [] {
      ClosedChunks(cfg, c, chunks);
    }
  }

  /** At the end of a run of calls: never more than twice the limit in a span, and no refusal before it is spent. */
  lemma {:induction false} ByteBudget(uses: seq<Use>, u: Use, from: int)
    requires Clocked(uses + [u])
    ensures var l := SpendAll(uses, 65_536, 5_000);
            && Granted(l.grants, from, from + 5_000) <= 131_072
            && (Granted(l.grants, u.now - 4_999, u.now + 1) + u.amount <= 65_536 ==>
                  Consume(l.window, u.amount, 65_536, 5_000, u.now).allowed)
  {
    hide SpendAll;
    hide Consume;
    ClockedPrefix(uses, u);
    AtMostTwiceTheLimit(uses, from, 65_536, 5_000);
    RefusedOnlyWhenSpent(uses, u, 65_536, 5_000);
  }

  /** The bytes that a Telnet session has read, chunk by chunk. */
  function Read(cfg: Config, chunks: seq<Chunk>): seq<Use> {
    SpendAll(Reads(cfg, Conn(Framing.Data, Started(cfg), FRESH), chunks), 65_536, 5_000).grants
  }

  /**
   * Over a whole Telnet session no five seconds see more than 128 KiB read. A chunk is read
   * if, with it, at most 64 KiB arrived in less than five seconds, and a chunk longer than
   * that ends the session unread.
   */
  lemma {:induction false} BytesAreRationed(cfg: Config, chunks: seq<Chunk>, bytes: seq<byte>, now: nat, from: int)
    requires Clocked(Reads(cfg, Conn(Framing.Data, Started(cfg), FRESH), chunks) + [Use(|bytes|, now)])
    requires !Run(cfg, chunks).session.closed
    ensures var c, read := Run(cfg, chunks), Read(cfg, chunks);
            var r := FeedAt(cfg, c, bytes, now).session;
            && Granted(read, from, from + 5_000) <= 131_072
            && (Granted(read, now - 4_999, now + 1) + |bytes| <= 65_536 ==> r == Feed(cfg, c, Stamped(bytes, now)).session)
            && (|bytes| > 65_536 ==> r == Close(c.session, Some(ByteFlood)))
  {
    hide FeedAt;
    hide FeedChunks;
    hide Started;
    hide Reads;
    hide Feed;
    hide Consume;
    hide Stamped;
    hide Close;
    hide Granted;
    var start := Conn(Framing.Data, Started(cfg), FRESH);
    var uses := Reads(cfg, start, chunks);
    NothingSpent();
    hide SpendAll;
    ByteBudget(uses, Use(|bytes|, now), from);
    ChunksSpend(cfg, start, chunks, []);
    assert [] + uses == uses;
    ChunkIsRead(cfg, Run(cfg, chunks), bytes, now);
  }

  lemma {:induction false} NothingSpent()
    ensures SpendAll([], 65_536, 5_000).window == FRESH
  {
  }

  lemma {:induction false} ChunkIsRead(cfg: Config, c: Conn, bytes: seq<byte>, now: nat)
    requires Valid(c) && !c.session.closed
    ensures var allowed := Consume(c.byteWindow, |bytes|, 65_536, 5_000, now).allowed;
            && (|bytes| > 65_536 ==> !allowed)
            && FeedAt(cfg, c, bytes, now).session ==
                 if allowed then Feed(cfg, c, Stamped(bytes, now)).session else Close(c.session, Some(ByteFlood))
  {
    FeedIgnoresWindow(cfg, c, Consume(c.byteWindow, |bytes|, 65_536, 5_000, now).window, Stamped(bytes, now));
    hide Feed;
    hide Stamped;
    hide Close;
  }

  // ----- Bytes over SSH -----

  function SshReads(chunks: seq<SshEditor.Chunk>): seq<Use> {
    seq(|chunks|, i requires 0 <= i < |chunks| => Use(|chunks[i].bytes|, chunks[i].now))
  }

  lemma {:induction false} SshSpends(l: SshEditor.Link, chunks: seq<SshEditor.Chunk>, hangup: nat -> bool, done: seq<Use>)
    requires l.byteWindow == SpendAll(done, 65_536, 5_000).window && forall i :: 0 <= i < |chunks| ==> chunks[i].now > 0
    ensures SshEditor.ArriveAll(l, chunks, hangup).byteWindow == SpendAll(done + SshReads(chunks), 65_536, 5_000).window
    decreases chunks
  {
    if chunks == [] {
      assert done + SshReads(chunks) == done;
    } else {
      var u := Use(|chunks[0].bytes|, chunks[0].now);
      var next := SshEditor.Arrive(l, chunks[0].bytes, chunks[0].now, hangup);
      assert (done + [u])[..|done|] == done;
      assert next.byteWindow == SpendAll(done + [u], 65_536, 5_000).window;
      hide SpendAll;
      hide SshEditor.Arrive;
      SshSpends(next, chunks[1..], hangup, done + [u]);
      assert done + [u] + SshReads(chunks[1..]) == done + SshReads(chunks);
    }
  }

  /** The same budget over SSH; there a clock that reads zero also ends the connection. */
  lemma {:induction false} SshBytesAreRationed(chunks: seq<SshEditor.Chunk>, hangup: nat -> bool, bytes: seq<byte>, now: nat, from: int)
    requires Clocked(SshReads(chunks) + [Use(|bytes|, now)])
    ensures var l := SshEditor.ArriveAll(SshEditor.Link(SshEditor.BLANK, FRESH), chunks, hangup);
            var read := SpendAll(SshReads(chunks), 65_536, 5_000).grants;
            var r := SshEditor.Arrive(l, bytes, now, hangup).editor;
            && Granted(read, from, from + 5_000) <= 131_072
            && (Granted(read, now - 4_999, now + 1) + |bytes| <= 65_536 ==>
                  r == SshEditor.Feed(l.editor, SshEditor.Stamped(bytes, now), hangup))
            && (|bytes| > 65_536 ==> r.closed && r.lines == l.editor.lines)
            && SshEditor.Arrive(l, bytes, 0, hangup).editor.closed
  {
    hide SshEditor.Arrive;
    hide SshEditor.ArriveAll;
    hide SshEditor.Feed;
    hide SshEditor.Stamped;
    hide Consume;
    hide Granted;
    var start := SshEditor.Link(SshEditor.BLANK, FRESH);
    var uses, u := SshReads(chunks), Use(|bytes|, now);
    NothingSpent();
    hide SpendAll;
    assert (uses + [u])[|uses|] == u;
    forall i | 0 <= i < |chunks| ensures chunks[i].now > 0 {
      assert (uses + [u])[i].now == chunks[i].now;
    }
    ByteBudget(uses, u, from);
    SshSpends(start, chunks, hangup, []);
    assert [] + uses == uses;
    var l := SshEditor.ArriveAll(start, chunks, hangup);
    SshChunkIsRead(l, bytes, now, hangup);
  }

  lemma {:induction false} SshChunkIsRead(l: SshEditor.Link, bytes: seq<byte>, now: nat, hangup: nat -> bool)
    requires now > 0
    ensures var allowed := Consume(l.byteWindow, |bytes|, 65_536, 5_000, now).allowed;
            && (|bytes| > 65_536 ==> !allowed)
            && SshEditor.Arrive(l, bytes, now, hangup).editor ==
                 (if allowed then SshEditor.Feed(l.editor, SshEditor.Stamped(bytes, now), hangup) else l.editor.(closed := true))
            && SshEditor.Arrive(l, bytes, 0, hangup).editor.closed
  {
    hide SshEditor.Feed;
    hide SshEditor.Stamped;
  }
}
