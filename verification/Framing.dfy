/**
 * The Telnet byte grammar: the six-state scanner that both the server and the development
 * client run (they differ in the room for a subnegotiation), and the writers' framing.
 */
module Framing {
  import opened Bytes

  const SERVER_ROOM := 4096
  const CLIENT_ROOM := 256

  /** Parser state together with the command, option and payload collected so far. */
  datatype Scan =
    | Data
    | Iac
    | Option(command: byte)
    | SbOption
    | SbData(option: byte, payload: seq<byte>)
    | SbIac(option: byte, payload: seq<byte>)

  datatype Event =
    | Quiet                                      // the byte completed nothing
    | Plain(b: byte)                             // a data byte
    | Control(command: byte)                     // IAC and a command without an argument
    | Negotiate(command: byte, option: byte)     // WILL, WONT, DO or DONT
    | Sub(option: byte, payload: seq<byte>)      // a complete subnegotiation
    | Malformed                                  // IAC and neither SE nor IAC inside one
    | Overflow                                   // a payload byte beyond the room

  datatype Scanned = Scanned(scan: Scan, event: Event)

  predicate TakesOption(command: byte) {
    command == WILL || command == WONT || command == DO || command == DONT
  }

  function ScanByte(s: Scan, b: byte, room: nat): Scanned {
    match s
    case Data => if b == IAC then Scanned(Iac, Quiet) else Scanned(Data, Plain(b))
    case Iac =>
      if b == IAC then Scanned(Data, Plain(IAC))
      else if TakesOption(b) then Scanned(Option(b), Quiet)
      else if b == SB then Scanned(SbOption, Quiet)
      else Scanned(Data, Control(b))
    case Option(command) => Scanned(Data, Negotiate(command, b))
    case SbOption => Scanned(SbData(b, []), Quiet)
    case SbData(option, payload) =>
      if b == IAC then Scanned(SbIac(option, payload), Quiet)
      else if |payload| >= room then Scanned(s, Overflow)
      else Scanned(SbData(option, payload + [b]), Quiet)
    case SbIac(option, payload) =>
      if b == SE then Scanned(Data, Sub(option, payload))
      else if b != IAC then Scanned(SbData(option, payload), Malformed)
      else if |payload| >= room then Scanned(s, Overflow)
      else Scanned(SbData(option, payload + [IAC]), Quiet)
  }

  /** A payload never outgrows the buffer. */
  predicate Bounded(s: Scan, room: nat) {
    (s.SbData? || s.SbIac?) ==> |s.payload| <= room
  }

  // ----- Frames and their writers -----

  datatype Frame =
    | Text(bytes: seq<byte>)
    | Command(command: byte)                     // GA, EOR and the like
    | Offer(command: byte, option: byte)
    | Report(option: byte, payload: seq<byte>)

  predicate WellFormed(f: Frame, room: nat) {
    match f
    case Text(_) => true
    case Command(command) => command != IAC && command != SB && !TakesOption(command)
    case Offer(command, _) => TakesOption(command)
    case Report(_, payload) => |payload| <= room
  }

  /** IAC is doubled, in text and in payloads. */
  function Quoted(bytes: seq<byte>): seq<byte> {
    if bytes == [] then [] else (if bytes[0] == IAC then [IAC, IAC] else [bytes[0]]) + Quoted(bytes[1..])
  }

  function Encode(f: Frame): seq<byte> {
    match f
    case Text(bytes) => Quoted(bytes)
    case Command(command) => [IAC, command]
    case Offer(command, option) => [IAC, command, option]
    case Report(option, payload) => [IAC, SB, option] + Quoted(payload) + [IAC, SE]
  }

  function EncodeAll(frames: seq<Frame>): seq<byte> {
    if frames == [] then [] else Encode(frames[0]) + EncodeAll(frames[1..])
  }

  lemma {:induction false} QuotedConcat(a: seq<byte>, b: seq<byte>)
    ensures Quoted(a + b) == Quoted(a) + Quoted(b)
  {
    if a == [] {
      assert a + b == b;
    } else {
      assert (a + b)[1..] == a[1..] + b;
      QuotedConcat(a[1..], b);
    }
  }

  lemma {:induction false} QuotedClean(s: seq<byte>)
    requires forall i :: 0 <= i < |s| ==> s[i] != IAC
    ensures Quoted(s) == s
  {
    if s != [] {
      QuotedClean(s[1..]);
    }
  }

  /** A run without IAC, then an IAC. */
  lemma {:induction false} QuotedRun(data: seq<byte>, start: nat, i: nat)
    requires start <= i < |data| && data[i] == IAC
    requires forall j :: start <= j < i ==> data[j] != IAC
    ensures Quoted(data[..i + 1]) == Quoted(data[..start]) + data[start..i] + [IAC, IAC]
  {
    var run := data[start..i];
    QuotedClean(run);
    assert Quoted([IAC]) == [IAC, IAC] + Quoted([]);
    QuotedConcat(run, [IAC]);
    assert data[..i + 1] == data[..start] + (run + [IAC]);
    QuotedConcat(data[..start], run + [IAC]);
    hide Quoted;
  }

  /** write_telnet_data: runs without IAC are written as they are, each IAC as a pair. */
  method WriteData(data: seq<byte>) returns (wire: seq<byte>)
    ensures wire == Encode(Text(data))
  {
    wire := [];
    var start := 0;
    assert Quoted(data[..0]) == [];
    hide Quoted;
    for i := 0 to |data|
      invariant 0 <= start <= i
      invariant wire == Quoted(data[..start])
      invariant forall j :: start <= j < i ==> data[j] != IAC
    {
      if data[i] == IAC {
        QuotedRun(data, start, i);
        if i > start {
          wire := wire + data[start..i];
        }
        wire := wire + [IAC, IAC];
        start := i + 1;
      }
    }
    QuotedClean(data[start..]);
    assert data == data[..start] + data[start..];
    QuotedConcat(data[..start], data[start..]);
    if start < |data| {
      wire := wire + data[start..];
    }
  }

  /** send_subnegotiation, which the client shares in substance. */
  method WriteReport(option: byte, payload: seq<byte>) returns (wire: seq<byte>)
    ensures wire == Encode(Report(option, payload))
  {
    wire := [IAC, SB, option];
    for i := 0 to |payload|
      invariant wire == [IAC, SB, option] + Quoted(payload[..i])
    {
      assert payload[..i + 1] == payload[..i] + [payload[i]];
      QuotedConcat(payload[..i], [payload[i]]);
      assert Quoted([payload[i]]) == (if payload[i] == IAC then [IAC, IAC] else [payload[i]]) + Quoted([]);
      if payload[i] == IAC {
        wire := wire + [IAC, IAC];
      } else {
        wire := wire + [payload[i]];
      }
    }
    assert payload[..|payload|] == payload;
    wire := wire + [IAC, SE];
  }

  // ----- Round trip -----

  /** The events of a byte stream; scanning stops at an overflow, which closes the connection. */
  datatype Reading = Reading(scan: Scan, events: seq<Event>)

  function Read(s: Scan, bytes: seq<byte>, room: nat): Reading
    decreases bytes
  {
    if bytes == [] then Reading(s, [])
    else
      var one := ScanByte(s, bytes[0], room);
      if one.event.Overflow? then Reading(one.scan, [Overflow])
      else
        var rest := Read(one.scan, bytes[1..], room);
        Reading(rest.scan, (if one.event.Quiet? then [] else [one.event]) + rest.events)
  }

  /** What a frame means to its reader: text arrives byte by byte. */
  function Meaning(f: Frame): seq<Event> {
    match f
    case Text(bytes) => seq(|bytes|, i requires 0 <= i < |bytes| => Plain(bytes[i]))
    case Command(command) => [Control(command)]
    case Offer(command, option) => [Negotiate(command, option)]
    case Report(option, payload) => [Sub(option, payload)]
  }

  function MeaningAll(frames: seq<Frame>): seq<Event> {
    if frames == [] then [] else Meaning(frames[0]) + MeaningAll(frames[1..])
  }

  predicate Overflows(events: seq<Event>) {
    Overflow in events
  }

  lemma {:induction false} AssocEvents(a: seq<Event>, b: seq<Event>, c: seq<Event>)
    ensures a + (b + c) == a + b + c
  {
  }

  lemma {:induction false} ReadConcat(s: Scan, a: seq<byte>, b: seq<byte>, room: nat)
    requires !Overflows(Read(s, a, room).events)
    ensures var one := Read(s, a, room);
            var two := Read(one.scan, b, room);
            Read(s, a + b, room) == Reading(two.scan, one.events + two.events)
    decreases a
  {
    hide ScanByte;
    if a == [] {
      assert a + b == b;
    } else {
      assert (a + b)[1..] == a[1..] + b;
      var first := ScanByte(s, a[0], room);
      var head := if first.event.Quiet? then [] else [first.event];
      var rest := Read(first.scan, a[1..], room);
      assert Read(s, a, room).events == if first.event.Overflow? then [Overflow] else head + rest.events;
      assert !Overflows(rest.events);
      ReadConcat(first.scan, a[1..], b, room);
      var two := Read(rest.scan, b, room);
      AssocEvents(head, rest.events, two.events);
    }
  }

  /** Text is read back byte by byte, IAC included. */
  lemma {:induction false} ReadText(bytes: seq<byte>, room: nat)
    ensures Read(Data, Quoted(bytes), room) == Reading(Data, Meaning(Text(bytes)))
  {
    if bytes != [] {
      var head := if bytes[0] == IAC then [IAC, IAC] else [bytes[0]];
      ReadText(bytes[1..], room);
      if bytes[0] == IAC {
        assert [IAC, IAC][1..] == [IAC];
        assert Read(Iac, [IAC], room) == Reading(Data, [Plain(IAC)] + Read(Data, [], room).events);
        assert Read(Data, [IAC, IAC], room) == Reading(Data, [Plain(IAC)]);
      } else {
        assert Read(Data, [bytes[0]], room) == Reading(Data, [Plain(bytes[0])] + Read(Data, [], room).events);
      }
      assert Read(Data, head, room) == Reading(Data, [Plain(bytes[0])]);
      ReadConcat(Data, head, Quoted(bytes[1..]), room);
      assert Meaning(Text(bytes)) == [Plain(bytes[0])] + Meaning(Text(bytes[1..]));
    } else {
      assert Meaning(Text(bytes)) == [];
    }
  }

  /** A payload that fits is collected unchanged; the first byte beyond the room overflows. */
  lemma {:induction false} ReadPayload(option: byte, before: seq<byte>, payload: seq<byte>, room: nat)
    requires |before| <= room
    ensures var r := Read(SbData(option, before), Quoted(payload), room);
            if |before| + |payload| <= room then r == Reading(SbData(option, before + payload), [])
            else r.events == [Overflow]
    decreases payload
  {
    if payload == [] {
      assert before + payload == before;
    } else {
      var s := SbData(option, before);
      var b, rest := payload[0], payload[1..];
      var head := if b == IAC then [IAC, IAC] else [b];
      assert Quoted(payload) == head + Quoted(rest);
      if b == IAC {
        assert (head + Quoted(rest))[1..] == [IAC] + Quoted(rest);
        assert ([IAC] + Quoted(rest))[1..] == Quoted(rest);
        assert Read(s, head + Quoted(rest), room).events == Read(SbIac(option, before), [IAC] + Quoted(rest), room).events;
      } else {
        assert (head + Quoted(rest))[1..] == Quoted(rest);
      }
      if |before| < room {
        ReadPayload(option, before + [b], rest, room);
        assert before + [b] + rest == before + payload;
        assert Read(s, head + Quoted(rest), room) == Read(SbData(option, before + [b]), Quoted(rest), room);
      }
    }
  }

  lemma {:induction false} ReadReportStart(option: byte, tail: seq<byte>, room: nat)
    ensures Read(Data, [IAC, SB, option] + tail, room) == Read(SbData(option, []), tail, room)
  {
    var bytes := [IAC, SB, option] + tail;
    assert bytes[1..] == [SB, option] + tail;
    assert bytes[1..][1..] == [option] + tail;
    assert bytes[1..][1..][1..] == tail;
    assert Read(SbOption, [option] + tail, room) == Read(SbData(option, []), tail, room);
    assert Read(Iac, [SB, option] + tail, room) == Read(SbOption, [option] + tail, room);
  }

  lemma {:induction false} ReadReportEnd(option: byte, payload: seq<byte>, room: nat)
    ensures Read(SbData(option, payload), [IAC, SE], room) == Reading(Data, [Sub(option, payload)])
  {
    assert [IAC, SE][1..] == [SE];
    assert [SE][1..] == [];
    assert Read(SbIac(option, payload), [SE], room) == Reading(Data, [Sub(option, payload)] + Read(Data, [], room).events);
  }

  lemma {:induction false} ReadFrame(f: Frame, room: nat)
    requires WellFormed(f, room)
    ensures Read(Data, Encode(f), room) == Reading(Data, Meaning(f))
  {
    match f
    case Text(bytes) => ReadText(bytes, room);
    case Command(command) =>
      assert [IAC, command][1..] == [command];
      assert [command][1..] == [];
      assert Read(Iac, [command], room) == Reading(Data, [Control(command)] + Read(Data, [], room).events);
    case Offer(command, option) =>
      assert [IAC, command, option][1..] == [command, option];
      assert [command, option][1..] == [option];
      assert [option][1..] == [];
      assert Read(Option(command), [option], room) == Reading(Data, [Negotiate(command, option)] + Read(Data, [], room).events);
      assert Read(Iac, [command, option], room) == Read(Option(command), [option], room);
    case Report(option, payload) =>
      var body := Quoted(payload);
      assert Encode(f) == [IAC, SB, option] + (body + [IAC, SE]);
      ReadReportStart(option, body + [IAC, SE], room);
      ReadPayload(option, [], payload, room);
      assert [] + payload == payload;
      ReadConcat(SbData(option, []), body, [IAC, SE], room);
      ReadReportEnd(option, payload, room);
      hide Read;
      hide Quoted;
  }

  lemma {:induction false} MeaningNeverOverflows(f: Frame)
    ensures !Overflows(Meaning(f))
  {
  }

  /**
   * Whatever frames the writers emit, the scanner recovers exactly their meanings, in order,
   * and is back between frames after each of them.
   */
  lemma {:induction false} FramingRoundTrip(frames: seq<Frame>, room: nat)
    requires forall i :: 0 <= i < |frames| ==> WellFormed(frames[i], room)
    ensures Read(Data, EncodeAll(frames), room) == Reading(Data, MeaningAll(frames))
    decreases frames
  {
    hide Encode;
    hide Meaning;
    hide ScanByte;
    if frames != [] {
      ReadFrame(frames[0], room);
      MeaningNeverOverflows(frames[0]);
      FramingRoundTrip(frames[1..], room);
      ReadConcat(Data, Encode(frames[0]), EncodeAll(frames[1..]), room);
    }
  }

  /** A report beyond the reader's room is never delivered: reading it ends in an overflow. */
  lemma {:induction false} LongReportOverflows(option: byte, payload: seq<byte>, tail: seq<byte>, room: nat)
    requires |payload| > room
    ensures Read(Data, Encode(Report(option, payload)) + tail, room).events == [Overflow]
  {
    var body := Quoted(payload);
    assert Encode(Report(option, payload)) + tail == [IAC, SB, option] + (body + ([IAC, SE] + tail));
    ReadReportStart(option, body + ([IAC, SE] + tail), room);
    ReadPayload(option, [], payload, room);
    OverflowEnds(SbData(option, []), body, [IAC, SE] + tail, room);
    hide Read;
  }

  /** What the server takes in one report is more than the client does. */
  lemma {:induction false} RoomsDiffer(option: byte, payload: seq<byte>)
    requires 256 < |payload| <= 4096
    ensures Read(Data, Encode(Report(option, payload)), SERVER_ROOM) == Reading(Data, [Sub(option, payload)])
    ensures Read(Data, Encode(Report(option, payload)), CLIENT_ROOM).events == [Overflow]
  {
    ReadFrame(Report(option, payload), SERVER_ROOM);
    LongReportOverflows(option, payload, [], CLIENT_ROOM);
    assert Encode(Report(option, payload)) + [] == Encode(Report(option, payload));
    hide Read;
    hide Encode;
  }

  lemma {:induction false} OverflowEnds(s: Scan, a: seq<byte>, b: seq<byte>, room: nat)
    requires Overflows(Read(s, a, room).events)
    ensures Read(s, a + b, room).events == Read(s, a, room).events
    decreases a
  {
    hide ScanByte;
    if a != [] {
      assert (a + b)[1..] == a[1..] + b;
      var first := ScanByte(s, a[0], room);
      if !first.event.Overflow? {
        OverflowEnds(first.scan, a[1..], b, room);
      }
    }
  }
}
