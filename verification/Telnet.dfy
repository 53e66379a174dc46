/**
 * The Telnet session as the transport sees it: bytes go in, in any chunks. The scanner turns
 * them into events and the dialogue acts on each event before the next byte is looked at.
 */
module Telnet {
  import opened Bytes
  import opened RateWindow
  import opened Dialog
  import opened DialogSafety
  import Framing
  import opened QMethod

  const BYTES_PER_WINDOW := 65_536
  const BYTES_SPAN := 5_000

  datatype Conn = Conn(scan: Framing.Scan, session: Session, byteWindow: Window)

  predicate Valid(c: Conn) {
    c.session.nego.options.Valid()
  }

  function TakeByte(cfg: Config, c: Conn, b: byte, now: nat): (r: Conn)
    requires Valid(c)
    ensures Valid(r) && r.byteWindow == c.byteWindow
  {
    var one := Framing.ScanByte(c.scan, b, Framing.SERVER_ROOM);
    Conn(one.scan, Handle(cfg, c.session, one.event, now), c.byteWindow)
  }

  /** A byte and the clock reading of the chunk that brought it. */
  datatype Tick = Tick(b: byte, now: nat)

  /** Bytes after a close request are not looked at. */
  function Feed(cfg: Config, c: Conn, ticks: seq<Tick>): (r: Conn)
    requires Valid(c)
    ensures Valid(r) && r.byteWindow == c.byteWindow
    decreases ticks
  {
    if ticks == [] || c.session.closed then c else Feed(cfg, TakeByte(cfg, c, ticks[0].b, ticks[0].now), ticks[1..])
  }

  function Stamped(bytes: seq<byte>, now: nat): seq<Tick> {
    seq(|bytes|, i requires 0 <= i < |bytes| => Tick(bytes[i], now))
  }

  /** telnet_session_feed_at: a chunk beyond the byte budget closes the session unread. */
  function FeedAt(cfg: Config, c: Conn, bytes: seq<byte>, now: nat): (r: Conn)
    requires Valid(c)
    ensures Valid(r)
  {
    if c.session.closed then c
    else
      var w := Consume(c.byteWindow, |bytes|, BYTES_PER_WINDOW, BYTES_SPAN, now);
      if !w.allowed then Conn(c.scan, Close(c.session, Some(ByteFlood)), w.window)
      else Feed(cfg, c.(byteWindow := w.window), Stamped(bytes, now))
  }

  // ----- The session object -----

  datatype Parser = PData | PIac | POption | PSbOption | PSbData | PSbIac

  class TelnetSession {
    var parser: Parser
    var command: byte
    var option: byte
    const buffer: array<byte>
    var length: nat
    var dialog: Session
    var byteWindow: Window

    ghost predicate Ok()
      reads this
    {
      buffer.Length == Framing.SERVER_ROOM && length <= buffer.Length && dialog.nego.options.Valid()
    }

    ghost function View(): (c: Conn)
      requires Ok()
      reads this, buffer
      ensures Valid(c)
    {
      Conn(match parser
           case PData => Framing.Data
           case PIac => Framing.Iac
           case POption => Framing.Option(command)
           case PSbOption => Framing.SbOption
           case PSbData => Framing.SbData(option, buffer[..length])
           case PSbIac => Framing.SbIac(option, buffer[..length]),
           dialog, byteWindow)
    }

    /** A started session. */
    constructor (cfg: Config)
      ensures Ok() && fresh(buffer) && View() == Conn(Framing.Data, Started(cfg), FRESH)
    {
      parser, command, option, length := PData, 0, 0, 0;
      buffer := new byte[Framing.SERVER_ROOM](_ => 0);
      dialog := Started(cfg);
      byteWindow := FRESH;
    }

    /** Adds a payload byte; the buffer is never exceeded. */
    method Collect(b: byte) returns (fits: bool)
      requires Ok()
      modifies this`length, buffer
      ensures Ok() && fits == (old(length) < Framing.SERVER_ROOM)
      ensures buffer[..length] == if fits then old(buffer[..length]) + [b] else old(buffer[..length])
    {
      fits := length < buffer.Length;
      if fits {
        buffer[length] := b;
        length := length + 1;
      }
    }

    /** One turn of the feed loop. */
    method Step(cfg: Config, b: byte, now: nat)
      requires Ok()
      modifies this, buffer
      ensures Ok() && View() == TakeByte(cfg, old(View()), b, now)
    {
      hide Handle;
      match parser
      case PData =>
        if b == IAC {
          parser := PIac;
        } else {
          dialog := Handle(cfg, dialog, Framing.Plain(b), now);
        }
      case PIac =>
        if b == IAC {
          dialog := Handle(cfg, dialog, Framing.Plain(IAC), now);
          parser := PData;
        } else if b == WILL || b == WONT || b == DO || b == DONT {
          command := b;
          parser := POption;
        } else if b == SB {
          parser := PSbOption;
        } else {
          dialog := Handle(cfg, dialog, Framing.Control(b), now);
          parser := PData;
        }
      case POption =>
        dialog := Handle(cfg, dialog, Framing.Negotiate(command, b), now);
        parser := PData;
      case PSbOption =>
        option, length, parser := b, 0, PSbData;
      case PSbData =>
        StepPayload(cfg, b, now);
      case PSbIac =>
        StepPayloadIac(cfg, b, now);
    }

    method StepPayload(cfg: Config, b: byte, now: nat)
      requires Ok() && parser == PSbData
      modifies this, buffer
      ensures Ok() && View() == TakeByte(cfg, old(View()), b, now)
    {
      hide Handle;
      if b == IAC {
        parser := PSbIac;
      } else {
        var fits := Collect(b);
        if !fits {
          dialog := Handle(cfg, dialog, Framing.Overflow, now);
        }
      }
    }

    method StepPayloadIac(cfg: Config, b: byte, now: nat)
      requires Ok() && parser == PSbIac
      modifies this, buffer
      ensures Ok() && View() == TakeByte(cfg, old(View()), b, now)
    {
      hide Handle;
      if b == SE {
        dialog := Handle(cfg, dialog, Framing.Sub(option, buffer[..length]), now);
        length := 0;
        parser := PData;
      } else if b == IAC {
        var fits := Collect(IAC);
        if !fits {
          dialog := Handle(cfg, dialog, Framing.Overflow, now);
        } else {
          parser := PSbData;
        }
      } else {
        dialog := Handle(cfg, dialog, Framing.Malformed, now);
        parser := PSbData;
      }
    }

    /** The result is true while the session stays open. */
    method Receive(cfg: Config, bytes: seq<byte>, now: nat) returns (open: bool)
      requires Ok()
      modifies this, buffer
      ensures Ok() && View() == FeedAt(cfg, old(View()), bytes, now)
      ensures open <==> !dialog.closed
    {
      if dialog.closed {
        return false;
      }
      var w := Consume(byteWindow, |bytes|, BYTES_PER_WINDOW, BYTES_SPAN, now);
      byteWindow := w.window;
      if !w.allowed {
        dialog := Close(dialog, Some(ByteFlood));
        return false;
      }
      hide TakeByte;
      ghost var c := View();
      ghost var ticks := Stamped(bytes, now);
      var i := 0;
      assert ticks[0..] == ticks;
      while i < |bytes| && !dialog.closed
        invariant 0 <= i <= |bytes| && Ok()
        invariant Feed(cfg, View(), ticks[i..]) == Feed(cfg, c, ticks)
        decreases |bytes| - i
      {
        Step(cfg, bytes[i], now);
        assert ticks[i..][1..] == ticks[i + 1..];
        i := i + 1;
      }
      open := !dialog.closed;
    }
  }

  // ----- Bytes at their times -----

  function BytesOf(ticks: seq<Tick>): seq<byte> {
    seq(|ticks|, i requires 0 <= i < |ticks| => ticks[i].b)
  }

  lemma {:induction false} FeedConcat(cfg: Config, c: Conn, a: seq<Tick>, b: seq<Tick>)
    requires Valid(c)
    ensures Feed(cfg, c, a + b) == Feed(cfg, Feed(cfg, c, a), b)
    decreases a
  {
    hide TakeByte;
    if a == [] {
      assert a + b == b;
    } else if !c.session.closed {
      assert (a + b)[1..] == a[1..] + b;
      FeedConcat(cfg, TakeByte(cfg, c, a[0].b, a[0].now), a[1..], b);
    }
  }

  lemma {:induction false} FeedFirst(cfg: Config, c: Conn, ticks: seq<Tick>)
    requires Valid(c) && !c.session.closed && ticks != []
    ensures Feed(cfg, c, ticks) == Feed(cfg, TakeByte(cfg, c, ticks[0].b, ticks[0].now), ticks[1..])
  {
    hide TakeByte;
  }

  lemma {:induction false} FeedNothing(cfg: Config, c: Conn, ticks: seq<Tick>)
    requires Valid(c)
    ensures c.session.closed || ticks == [] ==> Feed(cfg, c, ticks) == c
  {
  }

  /** The byte budget is only asked by whole chunks. */
  lemma {:induction false} FeedIgnoresWindow(cfg: Config, c: Conn, w: Window, ticks: seq<Tick>)
    requires Valid(c)
    ensures Feed(cfg, c.(byteWindow := w), ticks) == Feed(cfg, c, ticks).(byteWindow := w)
    decreases ticks
  {
    if ticks != [] && !c.session.closed {
      var next := TakeByte(cfg, c, ticks[0].b, ticks[0].now);
      assert TakeByte(cfg, c.(byteWindow := w), ticks[0].b, ticks[0].now) == next.(byteWindow := w);
      hide TakeByte;
      FeedIgnoresWindow(cfg, next, w, ticks[1..]);
    }
  }

  // ----- Feeding is reading, then handling -----

  /** The events of a byte stream, each at the time of the byte that completes it. */
  function StepsOf(scan: Framing.Scan, ticks: seq<Tick>): seq<Step>
    decreases ticks
  {
    if ticks == [] then []
    else
      var one := Framing.ScanByte(scan, ticks[0].b, Framing.SERVER_ROOM);
      if one.event.Overflow? then [Step(one.event, ticks[0].now)]
      else (if one.event.Quiet? then [] else [Step(one.event, ticks[0].now)]) + StepsOf(one.scan, ticks[1..])
  }

  function Events(steps: seq<Step>): seq<Framing.Event> {
    seq(|steps|, i requires 0 <= i < |steps| => steps[i].event)
  }

  lemma {:induction false} StepsAreRead(scan: Framing.Scan, ticks: seq<Tick>)
    ensures Events(StepsOf(scan, ticks)) == Framing.Read(scan, BytesOf(ticks), Framing.SERVER_ROOM).events
    decreases ticks
  {
    hide Framing.ScanByte;
    if ticks != [] {
      var one := Framing.ScanByte(scan, ticks[0].b, Framing.SERVER_ROOM);
      assert BytesOf(ticks)[1..] == BytesOf(ticks[1..]);
      if !one.event.Overflow? {
        StepsAreRead(one.scan, ticks[1..]);
        var head := if one.event.Quiet? then [] else [Step(one.event, ticks[0].now)];
        EventsConcat(head, StepsOf(one.scan, ticks[1..]));
      }
    }
  }

  lemma {:induction false} EventsConcat(a: seq<Step>, b: seq<Step>)
    ensures Events(a + b) == Events(a) + Events(b)
    ensures |a| == 1 ==> Events(a) == [a[0].event]
    ensures a == [] ==> Events(a) == []
  {
  }

  lemma {:induction false} OverflowCloses(cfg: Config, d: Session, e: Framing.Event, now: nat)
    requires d.nego.options.Valid()
    ensures e.Overflow? ==> Handle(cfg, d, e, now).closed
  {
  }

  /**
   * The feed loop, which acts in the middle of scanning, does what scanning the whole input
   * first and handling its events afterwards would do.
   */
  lemma {:induction false} FeedIsReading(cfg: Config, c: Conn, ticks: seq<Tick>)
    requires Valid(c)
    ensures Feed(cfg, c, ticks).session == After(cfg, c.session, StepsOf(c.scan, ticks))
    ensures Events(StepsOf(c.scan, ticks)) == Framing.Read(c.scan, BytesOf(ticks), Framing.SERVER_ROOM).events
    decreases ticks
  {
    StepsAreRead(c.scan, ticks);
    if ticks != [] && !c.session.closed {
      hide Events;
      hide Framing.Read;
      var one := Framing.ScanByte(c.scan, ticks[0].b, Framing.SERVER_ROOM);
      OverflowCloses(cfg, c.session, one.event, ticks[0].now);
      hide Framing.ScanByte;
      hide Handle;
      var next := TakeByte(cfg, c, ticks[0].b, ticks[0].now);
      var step, rest := Step(one.event, ticks[0].now), StepsOf(one.scan, ticks[1..]);
      FeedIsReading(cfg, next, ticks[1..]);
      if one.event.Overflow? {
        assert StepsOf(c.scan, ticks) == [step];
        assert [step][1..] == [];
      } else if one.event.Quiet? {
        assert StepsOf(c.scan, ticks) == rest;
      } else {
        assert StepsOf(c.scan, ticks) == [step] + rest;
        assert ([step] + rest)[1..] == rest;
      }
    }
  }

  /** A subnegotiation beyond the buffer ends the session; its payload reaches no handler. */
  lemma {:induction false} LongReportCloses(cfg: Config, c: Conn, option: byte, payload: seq<byte>, tail: seq<byte>, ticks: seq<Tick>)
    requires Valid(c) && c.scan == Framing.Data && !c.session.closed && |payload| > 4096
    requires BytesOf(ticks) == Framing.Encode(Framing.Report(option, payload)) + tail
    ensures Feed(cfg, c, ticks).session == Close(c.session, Some(ProtocolError))
  {
    FeedIsReading(cfg, c, ticks);
    Framing.LongReportOverflows(option, payload, tail, Framing.SERVER_ROOM);
    hide Framing.Read;
    hide Framing.Encode;
    var steps := StepsOf(c.scan, ticks);
    hide StepsOf;
    assert |Events(steps)| == |steps| && Events(steps)[0] == steps[0].event;
    assert steps[1..] == [];
    hide Close;
  }

  // ----- Every run -----

  datatype Chunk = Chunk(bytes: seq<byte>, now: nat)

  function FeedChunks(cfg: Config, c: Conn, chunks: seq<Chunk>): (r: Conn)
    requires Valid(c)
    ensures Valid(r)
    decreases chunks
  {
    if chunks == [] then c else FeedChunks(cfg, FeedAt(cfg, c, chunks[0].bytes, chunks[0].now), chunks[1..])
  }

  /** A session after the given chunks, whatever their sizes and times. */
  function Run(cfg: Config, chunks: seq<Chunk>): (c: Conn)
    ensures Valid(c)
  {
    FeedChunks(cfg, Conn(Framing.Data, Started(cfg), FRESH), chunks)
  }

  function TicksOf(chunks: seq<Chunk>): seq<Tick> {
    if chunks == [] then [] else Stamped(chunks[0].bytes, chunks[0].now) + TicksOf(chunks[1..])
  }

  lemma {:induction false} ClosedChunks(cfg: Config, c: Conn, chunks: seq<Chunk>)
    requires Valid(c) && c.session.closed
    ensures FeedChunks(cfg, c, chunks) == c
    decreases chunks
  {
    hide Feed;
    hide Consume;
    if chunks != [] {
      ClosedChunks(cfg, c, chunks[1..]);
    }
  }

  /** Chunks are bytes at their times, up to a chunk that the byte budget refuses. */
  lemma {:induction false} ChunksAreTicks(cfg: Config, c: Conn, chunks: seq<Chunk>) returns (ticks: seq<Tick>)
    requires Valid(c)
    ensures var r := FeedChunks(cfg, c, chunks);
            var fed := Feed(cfg, c, ticks);
            && ticks <= TicksOf(chunks) && r.scan == fed.scan
            && (|| (ticks == TicksOf(chunks) && r.session == fed.session)
                || (!fed.session.closed && r.session == Close(fed.session, Some(ByteFlood))))
    decreases chunks
  {
    hide Close;
    if c.session.closed {
      ticks := TicksOf(chunks);
      FeedNothing(cfg, c, ticks);
      ClosedChunks(cfg, c, chunks);
    } else if chunks == [] {
      ticks := [];
    } else {
      var now, rest := chunks[0].now, chunks[1..];
      var first := Stamped(chunks[0].bytes, now);
      var w := Consume(c.byteWindow, |chunks[0].bytes|, BYTES_PER_WINDOW, BYTES_SPAN, now);
      var next := FeedAt(cfg, c, chunks[0].bytes, now);
      if w.allowed {
        var more := ChunksAreTicks(cfg, next, rest);
        ticks := first + more;
        FeedIgnoresWindow(cfg, c, w.window, first);
        FeedIgnoresWindow(cfg, Feed(cfg, c, first), w.window, more);
        FeedConcat(cfg, c, first, more);
      } else {
        ticks := [];
        FeedNothing(cfg, c, ticks);
        ClosedChunks(cfg, next, rest);
      }
      hide Feed;
      hide Consume;
      hide Stamped;
    }
  }

  /** So every run is a sequence of events from the start, possibly cut off by the byte budget. */
  lemma {:induction false} RunIsEvents(cfg: Config, chunks: seq<Chunk>) returns (steps: seq<Step>)
    ensures var d := After(cfg, Started(cfg), steps);
            Run(cfg, chunks).session == d || Run(cfg, chunks).session == Close(d, Some(ByteFlood))
    ensures !Run(cfg, chunks).session.closed ==> steps == StepsOf(Framing.Data, TicksOf(chunks))
  {
    var c := Conn(Framing.Data, Started(cfg), FRESH);
    var ticks := ChunksAreTicks(cfg, c, chunks);
    FeedIsReading(cfg, c, ticks);
    steps := StepsOf(Framing.Data, ticks);
    hide Feed;
    hide FeedChunks;
    hide After;
    hide StepsOf;
    hide TicksOf;
  }

  lemma {:induction false} ScanStaysBounded(cfg: Config, c: Conn, ticks: seq<Tick>)
    requires Valid(c) && Framing.Bounded(c.scan, Framing.SERVER_ROOM)
    ensures Framing.Bounded(Feed(cfg, c, ticks).scan, Framing.SERVER_ROOM)
    decreases ticks
  {
    hide Handle;
    if ticks != [] && !c.session.closed {
      ScanStaysBounded(cfg, TakeByte(cfg, c, ticks[0].b, ticks[0].now), ticks[1..]);
    }
  }

  lemma {:induction false} CloseKeepsSafe(d: Session, n: Option<Notice>)
    requires Safe(d)
    ensures Safe(Close(d, n))
  {
    hide Close;
  }

  /** Every run leads to a session that satisfies the invariant. */
  lemma {:induction false} RunIsSafe(cfg: Config, chunks: seq<Chunk>)
    ensures Safe(Run(cfg, chunks).session) && Framing.Bounded(Run(cfg, chunks).scan, Framing.SERVER_ROOM)
  {
    var steps := RunIsEvents(cfg, chunks);
    StartIsSafe(cfg);
    StepsKeepSafe(cfg, Started(cfg), steps);
    CloseKeepsSafe(After(cfg, Started(cfg), steps), Some(ByteFlood));
    var c := Conn(Framing.Data, Started(cfg), FRESH);
    var ticks := ChunksAreTicks(cfg, c, chunks);
    ScanStaysBounded(cfg, c, ticks);
    hide After;
    hide Safe;
    hide Close;
    hide Feed;
    hide FeedChunks;
  }

  /**
   * At every byte boundary, against any peer, any clock and any behaviour of store, policy
   * and application: server echo is wished exactly while a password is typed and is on only
   * then; a prepared password exists only while it is being confirmed; input lines and
   * reports stay within their buffers.
   */
  lemma {:induction false} EchoAndSecretsFollowLogin(cfg: Config, chunks: seq<Chunk>)
    ensures var c := Run(cfg, chunks);
            var d := c.session;
            && (d.nego.echo <==> Secret(d.auth.login))
            && (d.nego.options.Enabled(Local, OPT_ECHO) ==> Secret(d.auth.login))
            && (d.auth.token.Some? <==> d.auth.login.AtConfirm?)
            && |d.input.line| <= (if Secret(d.auth.login) then 128 else 512)
            && (forall i :: 0 <= i < |d.input.line| ==> d.input.line[i] >= 32 && d.input.line[i] != DEL)
            && Framing.Bounded(c.scan, 4096)
  {
    RunIsSafe(cfg, chunks);
    hide Run;
  }

  /** Each cached capability is what the option table says, at every byte boundary. */
  lemma {:induction false} CapabilitiesAreCoherent(cfg: Config, chunks: seq<Chunk>)
    ensures var d := Run(cfg, chunks).session;
            var o, f := d.nego.options, d.term.flags;
            && (f.localBinary <==> o.Enabled(Local, OPT_BINARY)) && (f.remoteBinary <==> o.Enabled(Remote, OPT_BINARY))
            && (f.localSga <==> o.Enabled(Local, OPT_SGA)) && (f.remoteSga <==> o.Enabled(Remote, OPT_SGA))
            && (f.localEor <==> o.Enabled(Local, OPT_EOR)) && (f.newEnviron <==> o.Enabled(Remote, OPT_NEW_ENVIRON))
            && (f.mssp <==> o.Enabled(Local, OPT_MSSP)) && (f.gmcp <==> o.Enabled(Local, OPT_GMCP))
            && (d.term.utf8 <==> d.probe.charset.utf8 || d.term.mtts / 4 % 2 == 1)
  {
    RunIsSafe(cfg, chunks);
    hide Run;
    hide Options.Enabled;
  }

  // ----- Chunking -----

  /**
   * Chunk boundaries are invisible: as long as the byte budget admits the whole input, feeding
   * it in two pieces at one moment leaves the same scanner and session (hence the same output,
   * line and login state) as feeding it at once, and the same budget unless the first piece
   * closed the session or the clock read zero.
   */
  lemma {:induction false} ChunksAreInvisible(cfg: Config, c: Conn, a: seq<byte>, b: seq<byte>, now: nat)
    requires Valid(c) && !c.session.closed
    requires Consume(c.byteWindow, |a| + |b|, BYTES_PER_WINDOW, BYTES_SPAN, now).allowed
    ensures var first := FeedAt(cfg, c, a, now);
            var split := FeedAt(cfg, first, b, now);
            var whole := FeedAt(cfg, c, a + b, now);
            && split.scan == whole.scan && split.session == whole.session
            && (now > 0 && !first.session.closed ==> split == whole)
  {
    ConsumeSplits(c.byteWindow, |a|, |b|, BYTES_PER_WINDOW, BYTES_SPAN, now);
    var once := Consume(c.byteWindow, |a| + |b|, BYTES_PER_WINDOW, BYTES_SPAN, now);
    var one := Consume(c.byteWindow, |a|, BYTES_PER_WINDOW, BYTES_SPAN, now);
    var two := Consume(one.window, |b|, BYTES_PER_WINDOW, BYTES_SPAN, now);
    var x, y := Stamped(a, now), Stamped(b, now);
    assert Stamped(a + b, now) == x + y;
    FeedConcat(cfg, c, x, y);
    FeedIgnoresWindow(cfg, c, once.window, x + y);
    FeedIgnoresWindow(cfg, c, one.window, x);
    FeedIgnoresWindow(cfg, Feed(cfg, c, x), two.window, y);
    FeedIgnoresWindow(cfg, Feed(cfg, c, x), one.window, y);
    FeedNothing(cfg, Feed(cfg, c, x), y);
    hide Consume;
    hide Close;
    hide Feed;
    hide Stamped;
  }
}
