/**
 * The line editor behind an SSH channel. Bytes arrive in any chunks; complete lines go to
 * the application. Channel writes (the echo) are taken to succeed.
 */
module SshEditor {
  import opened Bytes
  import opened RateWindow
  import opened TerminalText

  const LINE_MAX := 512
  const LINES_PER_WINDOW := 30
  const LINES_SPAN := 10_000
  const BYTES_PER_WINDOW := 65_536
  const BYTES_SPAN := 5_000

  const EOT: byte := 4

  datatype Escape = Off | Begun | Inside

  /** `lines` are the lines delivered so far; `hangup(i)` is the application's wish to close after line i. */
  datatype Editor = Editor(line: seq<byte>, pendingCr: bool, escape: Escape, closed: bool, lines: seq<seq<byte>>, window: Window)

  // ----- handle_input_byte, on values -----

  function Complete(e: Editor, now: nat, hangup: nat -> bool): Editor {
    var c := Consume(e.window, 1, LINES_PER_WINDOW, LINES_SPAN, now);
    if !c.allowed then e.(window := c.window, closed := true)
    else e.(window := c.window, line := [], lines := e.lines + [e.line], closed := e.closed || hangup(|e.lines|))
  }

  /** Where the last character of the line begins: the scan over continuation bytes. */
  function LastStart(line: seq<byte>, from: nat): (p: nat)
    requires from < |line|
    ensures p <= from
  {
    if from > 0 && Continuation(line[from]) then LastStart(line, from - 1) else from
  }

  function Input(e: Editor, b: byte, now: nat, hangup: nat -> bool): Editor {
    if e.pendingCr && b == LF then e.(pendingCr := false)
    else
      var e := e.(pendingCr := false);
      if b == CR || b == LF then
        var c := Consume(e.window, 1, LINES_PER_WINDOW, LINES_SPAN, now);
        Complete(e, now, hangup).(pendingCr := c.allowed && b == CR)
      else if b == EOT then e.(closed := true)
      else if e.escape.Begun? then e.(escape := if b == 91 || b == 79 then Inside else Off)
      else if e.escape.Inside? then if 0x40 <= b <= 0x7E then e.(escape := Off) else e
      else if b == ESC then e.(escape := Begun)
      else if b == BS || b == DEL then
        if e.line == [] then e else e.(line := e.line[..LastStart(e.line, |e.line| - 1)])
      else if b < 0x20 then e
      else if |e.line| >= LINE_MAX then e.(closed := true)
      else e.(line := e.line + [b])
  }

  /** A byte and the clock reading of the chunk that brought it. */
  datatype Tick = Tick(b: byte, now: nat)

  function Feed(e: Editor, ticks: seq<Tick>, hangup: nat -> bool): Editor
    decreases ticks
  {
    if ticks == [] || e.closed then e else Feed(Input(e, ticks[0].b, ticks[0].now, hangup), ticks[1..], hangup)
  }

  function Stamped(bytes: seq<byte>, now: nat): seq<Tick> {
    seq(|bytes|, i requires 0 <= i < |bytes| => Tick(bytes[i], now))
  }

  datatype Link = Link(editor: Editor, byteWindow: Window)

  /** channel_data_callback: a chunk beyond the byte budget closes the connection unread. */
  function Arrive(l: Link, bytes: seq<byte>, now: nat, hangup: nat -> bool): Link {
    var c := Consume(l.byteWindow, |bytes|, BYTES_PER_WINDOW, BYTES_SPAN, now);
    if now == 0 then l.(editor := l.editor.(closed := true))
    else if !c.allowed then Link(l.editor.(closed := true), c.window)
    else Link(Feed(l.editor, Stamped(bytes, now), hangup), c.window)
  }

  // ----- The connection -----

  class Connection {
    const line: array<byte>
    var length: nat
    var pendingCr: bool
    var escape: Escape
    var closed: bool
    var lines: seq<seq<byte>>
    var byteWindow: Window
    var lineWindow: Window

    ghost predicate Valid()
      reads this
    {
      line.Length == LINE_MAX + 1 && length <= LINE_MAX
    }

    ghost function View(): Editor
      requires Valid()
      reads this, line
    {
      Editor(line[..length], pendingCr, escape, closed, lines, lineWindow)
    }

    constructor ()
      ensures Valid() && fresh(line)
      ensures View() == Editor([], false, Off, false, [], FRESH) && byteWindow == FRESH
    {
      line := new byte[LINE_MAX + 1](_ => NUL);
      length, pendingCr, escape, closed, lines := 0, false, Off, false, [];
      byteWindow, lineWindow := FRESH, FRESH;
    }

    method CompleteLine(now: nat, hangup: nat -> bool) returns (ok: bool)
      requires Valid()
      modifies this, line
      ensures Valid() && byteWindow == old(byteWindow)
      ensures View() == Complete(old(View()), now, hangup)
      ensures ok <==> Consume(old(lineWindow), 1, LINES_PER_WINDOW, LINES_SPAN, now).allowed
    {
      var c := Consume(lineWindow, 1, LINES_PER_WINDOW, LINES_SPAN, now);
      lineWindow := c.window;
      if !c.allowed {
        closed := true;
        return false;
      }
      line[length] := NUL;
      var close := hangup(|lines|);
      lines := lines + [line[..length]];
      length := 0;
      if close {
        closed := true;
      }
      return true;
    }

    /** The backspace scan: steps over the continuation bytes of the last character. */
    method EraseLast()
      requires Valid() && length > 0
      modifies this`length, line
      ensures Valid()
      ensures old(length) > 0 && line[..length] == old(line[..length])[..LastStart(old(line[..length]), old(length) - 1)]
    {
      var previous := length - 1;
      ghost var was := line[..length];
      while previous > 0 && 0x80 <= line[previous] < 0xC0
        invariant 0 <= previous < length
        invariant LastStart(was, length - 1) == LastStart(was, previous)
      {
        previous := previous - 1;
      }
      length := previous;
      line[length] := NUL;
    }

    method HandleByte(b: byte, now: nat, hangup: nat -> bool)
      requires Valid()
      modifies this, line
      ensures Valid() && byteWindow == old(byteWindow)
      ensures View() == Input(old(View()), b, now, hangup)
    {
      if pendingCr {
        pendingCr := false;
        if b == LF {
          return;
        }
      }
      if b == CR || b == LF {
        var ok := CompleteLine(now, hangup);
        if ok && b == CR {
          pendingCr := true;
        }
      } else if b == EOT {
        closed := true;
      } else if escape.Begun? {
        escape := if b == 91 || b == 79 then Inside else Off;
      } else if escape.Inside? {
        if 0x40 <= b <= 0x7E {
          escape := Off;
        }
      } else if b == ESC {
        escape := Begun;
      } else if b == BS || b == DEL {
        if length > 0 {
          EraseLast();
        }
      } else if b >= 0x20 {
        if length >= LINE_MAX {
          closed := true;
        } else {
          line[length] := b;
          length := length + 1;
        }
      }
    }

    method Receive(bytes: seq<byte>, now: nat, hangup: nat -> bool)
      requires Valid()
      modifies this, line
      ensures Valid() && Link(View(), byteWindow) == Arrive(old(Link(View(), byteWindow)), bytes, now, hangup)
    {
      if now == 0 {
        closed := true;
        return;
      }
      var c := Consume(byteWindow, |bytes|, BYTES_PER_WINDOW, BYTES_SPAN, now);
      byteWindow := c.window;
      if !c.allowed {
        closed := true;
        return;
      }
      var i := 0;
      ghost var ticks := Stamped(bytes, now);
      assert ticks[0..] == ticks;
      while i < |bytes| && !closed
        invariant 0 <= i <= |bytes| && Valid() && byteWindow == c.window
        invariant Feed(View(), ticks[i..], hangup) == Feed(old(View()), ticks, hangup)
        decreases |bytes| - i
      {
        HandleByte(bytes[i], now, hangup);
        assert ticks[i..][1..] == ticks[i + 1..];
        i := i + 1;
      }
    }
  }

  // ----- Keys -----

  datatype LineEnd = Cr | Lf | CrLf

  /** What a person at the terminal types. */
  datatype Key =
    | Char(c: Scalar)
    | Erase(code: byte)
    | Sequence(intro: byte, parameters: seq<byte>, final: byte)   // CSI or SS3: arrows and the like
    | Enter(end: LineEnd)
    | Leave                                                       // control D

  predicate Typable(k: Key) {
    match k
    case Char(c) => c >= 0x20 && c != 0x7F
    case Erase(code) => code == BS || code == DEL
    case Sequence(intro, parameters, final) =>
      && (intro == 91 || intro == 79) && 0x40 <= final <= 0x7E
      && forall i :: 0 <= i < |parameters| ==> Parameter(parameters[i])
    case Enter(_) => true
    case Leave => true
  }

  predicate Parameter(b: byte) {
    !(0x40 <= b <= 0x7E) && b != CR && b != LF && b != EOT
  }

  function Typed(k: Key): seq<byte> {
    match k
    case Char(c) => Encode(c)
    case Erase(code) => [code]
    case Sequence(intro, parameters, final) => [ESC, intro] + parameters + [final]
    case Enter(Cr) => [CR]
    case Enter(Lf) => [LF]
    case Enter(CrLf) => [CR, LF]
    case Leave => [4]
  }

  function TypedAll(keys: seq<Key>): seq<byte> {
    if keys == [] then [] else Typed(keys[0]) + TypedAll(keys[1..])
  }

  /** A lone CR is not followed by a lone LF: those two bytes are one line end. */
  predicate Spelled(keys: seq<Key>) {
    && (forall i :: 0 <= i < |keys| ==> Typable(keys[i]))
    && (forall i :: 0 <= i < |keys| - 1 ==> !(keys[i] == Enter(Cr) && keys[i + 1] == Enter(Lf)))
  }

  function BytesOf(ticks: seq<Tick>): seq<byte> {
    seq(|ticks|, i requires 0 <= i < |ticks| => ticks[i].b)
  }

  /** The keys' bytes, each at some time of its own. */
  predicate Spells(ticks: seq<Tick>, keys: seq<Key>) {
    BytesOf(ticks) == TypedAll(keys)
  }

  lemma {:induction false} SpellsSplit(ticks: seq<Tick>, keys: seq<Key>)
    requires Spells(ticks, keys) && keys != []
    ensures var n := |Typed(keys[0])|;
            && 0 < n <= |ticks| && BytesOf(ticks[..n]) == Typed(keys[0]) && Spells(ticks[n..], keys[1..])
  {
    var n := |Typed(keys[0])|;
    assert |BytesOf(ticks)| == n + |TypedAll(keys[1..])|;
    assert BytesOf(ticks[..n]) == BytesOf(ticks)[..n];
    assert BytesOf(ticks[n..]) == BytesOf(ticks)[n..];
  }

  // ----- The reference: code points, edited one at a time -----

  /** What a person means by the keys, limits aside. */
  datatype Draft = Draft(text: seq<Scalar>, done: seq<seq<Scalar>>)

  function Edit(d: Draft, k: Key): Draft {
    match k
    case Char(c) => d.(text := d.text + [c])
    case Erase(_) => if d.text == [] then d else d.(text := d.text[..|d.text| - 1])
    case Sequence(_, _, _) => d
    case Enter(_) => Draft([], d.done + [d.text])
    case Leave => d
  }

  function EditAll(d: Draft, keys: seq<Key>): Draft
    decreases keys
  {
    if keys == [] then d else EditAll(Edit(d, keys[0]), keys[1..])
  }

  /** The same under the limits: length of the line, line budget, and the application's wish to close. */
  datatype Desk = Desk(draft: Draft, window: Window, open: bool)

  function Press(d: Desk, k: Key, now: nat, hangup: nat -> bool): Desk {
    var next := Edit(d.draft, k);
    if k.Enter? then
      var c := Consume(d.window, 1, 30, 10_000, now);
      if c.allowed then Desk(next, c.window, !hangup(|d.draft.done|)) else Desk(d.draft, c.window, false)
    else if k.Leave? || |EncodeAll(next.text)| > 512 then d.(open := false)
    else d.(draft := next)
  }

  /** A key counts at the time of its first byte; after closing none does. */
  function PressAll(d: Desk, keys: seq<Key>, ticks: seq<Tick>, hangup: nat -> bool): Desk
    requires Spells(ticks, keys)
    decreases keys
  {
    if keys == [] || !d.open then d
    else
      SpellsSplit(ticks, keys);
      PressAll(Press(d, keys[0], ticks[0].now, hangup), keys[1..], ticks[|Typed(keys[0])|..], hangup)
  }

  function EncodeLines(done: seq<seq<Scalar>>): seq<seq<byte>> {
    seq(|done|, i requires 0 <= i < |done| => EncodeAll(done[i]))
  }

  /** The editor has delivered the encodings of the desk's lines and, while open, holds that of its text. */
  ghost predicate Shows(e: Editor, d: Desk) {
    && e.closed == !d.open && e.window == d.window && e.lines == EncodeLines(d.draft.done)
    && (d.open ==> e.escape.Off? && e.line == EncodeAll(d.draft.text) && |e.line| <= LINE_MAX)
  }

  // ----- Each key -----

  lemma {:induction false} FeedConcat(e: Editor, a: seq<Tick>, b: seq<Tick>, hangup: nat -> bool)
    ensures Feed(e, a + b, hangup) == Feed(Feed(e, a, hangup), b, hangup)
    decreases a
  {
    hide Input;
    if a == [] {
      assert a + b == b;
    } else if !e.closed {
      assert (a + b)[1..] == a[1..] + b;
      FeedConcat(Input(e, a[0].b, a[0].now, hangup), a[1..], b, hangup);
    }
  }

  lemma {:induction false} FeedFirst(e: Editor, ticks: seq<Tick>, hangup: nat -> bool)
    requires !e.closed && ticks != []
    ensures Feed(e, ticks, hangup) == Feed(Input(e, ticks[0].b, ticks[0].now, hangup), ticks[1..], hangup)
  {
    hide Input;
  }

  lemma {:induction false} FeedOne(e: Editor, t: Tick, hangup: nat -> bool)
    requires !e.closed
    ensures Feed(e, [t], hangup) == Input(e, t.b, t.now, hangup)
  {
    hide Input;
    assert Feed(Input(e, t.b, t.now, hangup), [], hangup) == Input(e, t.b, t.now, hangup);
  }

  /** Bytes without a special meaning are appended as long as they fit. */
  lemma {:induction false} FeedPlain(e: Editor, ticks: seq<Tick>, hangup: nat -> bool)
    requires e.escape.Off? && !e.closed && |e.line| <= LINE_MAX
    requires forall i :: 0 <= i < |ticks| ==> ticks[i].b >= 0x20 && ticks[i].b != DEL
    ensures var r := Feed(e, ticks, hangup);
            if |e.line| + |ticks| <= LINE_MAX
            then r == e.(line := e.line + BytesOf(ticks), pendingCr := e.pendingCr && ticks == [])
            else r.closed && r.lines == e.lines && r.window == e.window
    decreases ticks
  {
    if ticks == [] {
      assert e.line + BytesOf(ticks) == e.line;
    } else {
      var next := Input(e, ticks[0].b, ticks[0].now, hangup);
      if !next.closed {
        FeedPlain(next, ticks[1..], hangup);
        assert e.line + [ticks[0].b] + BytesOf(ticks[1..]) == e.line + BytesOf(ticks);
      }
    }
  }

  /** Parameter bytes of a key sequence are dropped. */
  lemma {:induction false} FeedParameters(e: Editor, ticks: seq<Tick>, hangup: nat -> bool)
    requires e.escape.Inside? && !e.closed && !e.pendingCr
    requires forall i :: 0 <= i < |ticks| ==> Parameter(ticks[i].b)
    ensures Feed(e, ticks, hangup) == e
    decreases ticks
  {
    if ticks != [] {
      FeedParameters(Input(e, ticks[0].b, ticks[0].now, hangup), ticks[1..], hangup);
    }
  }

  lemma {:induction false} FeedSequence(e: Editor, k: Key, ticks: seq<Tick>, hangup: nat -> bool)
    requires k.Sequence? && Typable(k) && e.escape.Off? && !e.closed && BytesOf(ticks) == Typed(k)
    ensures Feed(e, ticks, hangup) == e.(pendingCr := false)
  {
    var begun := e.(pendingCr := false, escape := Begun);
    var inside := begun.(escape := Inside);
    var n := |ticks| - 1;
    forall i | 0 <= i < |ticks| ensures ticks[i].b == Typed(k)[i] {
      assert BytesOf(ticks)[i] == ticks[i].b;
    }
    FeedFirst(e, ticks, hangup);
    FeedFirst(begun, ticks[1..], hangup);
    assert ticks[1..][1..] == ticks[2..n] + [ticks[n]];
    FeedConcat(inside, ticks[2..n], [ticks[n]], hangup);
    FeedParameters(inside, ticks[2..n], hangup);
    FeedOne(inside, ticks[n], hangup);
    hide Feed;
  }

  /** An encoding begins with a byte that is not a continuation and goes on with bytes that are. */
  lemma {:induction false} EncodingShape(c: Scalar)
    ensures !Continuation(Encode(c)[0])
    ensures forall i :: 1 <= i < |Encode(c)| ==> Continuation(Encode(c)[i])
    ensures c >= 0x20 && c != 0x7F ==> forall i :: 0 <= i < |Encode(c)| ==> Encode(c)[i] >= 0x20 && Encode(c)[i] != DEL
  {
  }

  lemma {:induction false} LastStartScans(line: seq<byte>, start: nat, from: nat)
    requires start <= from < |line| && !Continuation(line[start])
    requires forall i :: start < i <= from ==> Continuation(line[i])
    ensures LastStart(line, from) == start
    decreases from
  {
    if from > start {
      LastStartScans(line, start, from - 1);
    }
  }

  /** Backspace removes exactly the last code point. */
  lemma {:induction false} EraseRemovesOne(text: seq<Scalar>)
    requires text != []
    ensures var line := EncodeAll(text);
            line != [] && line[..LastStart(line, |line| - 1)] == EncodeAll(text[..|text| - 1])
  {
    hide *;
    var front, c := text[..|text| - 1], text[|text| - 1];
    assert text == front + [c];
    EncodeSnoc(front, c);
    EncodingShape(c);
    var line := EncodeAll(text);
    var start := |EncodeAll(front)|;
    assert line[start] == Encode(c)[0];
    forall i | start < i < |line| ensures Continuation(line[i]) {
      assert line[i] == Encode(c)[i - start];
    }
    LastStartScans(line, start, |line| - 1);
  }

  lemma {:induction false} PressChar(e: Editor, d: Desk, k: Key, ticks: seq<Tick>, hangup: nat -> bool)
    requires Shows(e, d) && d.open && k.Char? && Typable(k) && BytesOf(ticks) == Typed(k)
    ensures var r := Feed(e, ticks, hangup);
            Shows(r, Press(d, k, ticks[0].now, hangup)) && (!r.closed ==> !r.pendingCr)
  {
    EncodeSnoc(d.draft.text, k.c);
    EncodingShape(k.c);
    hide Encode;
    assert |BytesOf(ticks)| == |ticks|;
    forall i | 0 <= i < |ticks| ensures ticks[i].b == Encode(k.c)[i] {
      assert BytesOf(ticks)[i] == ticks[i].b;
    }
    FeedPlain(e, ticks, hangup);
    hide Feed;
    hide EncodeAll;
  }

  lemma {:induction false} PressErase(e: Editor, d: Desk, k: Key, t: Tick, hangup: nat -> bool)
    requires Shows(e, d) && d.open && k.Erase? && Typable(k) && t.b == k.code
    ensures var r := Feed(e, [t], hangup);
            Shows(r, Press(d, k, t.now, hangup)) && !r.closed && !r.pendingCr
  {
    hide Encode;
    FeedOne(e, t, hangup);
    hide Feed;
    assert d.draft.text == [] ==> EncodeAll(d.draft.text) == [];
    hide EncodeAll;
    if d.draft.text != [] {
      EraseRemovesOne(d.draft.text);
    }
  }

  lemma {:induction false} PressEnter(e: Editor, d: Desk, k: Key, ticks: seq<Tick>, hangup: nat -> bool)
    requires Shows(e, d) && d.open && k.Enter? && BytesOf(ticks) == Typed(k)
    requires e.pendingCr ==> k.end != Lf
    ensures var r := Feed(e, ticks, hangup);
            Shows(r, Press(d, k, ticks[0].now, hangup)) && (!r.closed ==> (r.pendingCr <==> k.end == Cr))
  {
    hide Consume;
    forall i | 0 <= i < |ticks| ensures ticks[i].b == Typed(k)[i] {
      assert BytesOf(ticks)[i] == ticks[i].b;
    }
    assert |BytesOf(ticks)| == |ticks|;
    FeedFirst(e, ticks, hangup);
    var r := Input(e, ticks[0].b, ticks[0].now, hangup);
    assert EncodeLines(d.draft.done + [d.draft.text]) == EncodeLines(d.draft.done) + [EncodeAll(d.draft.text)];
    assert EncodeAll([]) == [];
    if k.end.CrLf? {
      assert ticks[1..] == [ticks[1]];
      if !r.closed {
        FeedOne(r, ticks[1], hangup);
      }
    } else {
      assert ticks[1..] == [];
    }
    hide EncodeAll;
  }

  lemma {:induction false} PressLeave(e: Editor, d: Desk, k: Key, ticks: seq<Tick>, hangup: nat -> bool)
    requires Shows(e, d) && d.open && k.Leave? && BytesOf(ticks) == Typed(k) && ticks != []
    ensures var r := Feed(e, ticks, hangup); r.closed && Shows(r, Press(d, k, ticks[0].now, hangup))
  {
    assert BytesOf(ticks)[0] == ticks[0].b && |BytesOf(ticks)| == |ticks|;
    assert ticks == [ticks[0]];
    FeedOne(e, ticks[0], hangup);
    hide Feed;
    hide EncodeAll;
    hide Consume;
  }

  /** A key may follow the editor's state: a lone LF right after a lone CR would end no line. */
  predicate Follows(e: Editor, keys: seq<Key>) {
    e.pendingCr && keys != [] ==> keys[0] != Enter(Lf)
  }

  lemma {:induction false} PressKey(e: Editor, d: Desk, k: Key, ticks: seq<Tick>, hangup: nat -> bool)
    requires Shows(e, d) && d.open && Typable(k) && Follows(e, [k]) && BytesOf(ticks) == Typed(k) && ticks != []
    ensures var r := Feed(e, ticks, hangup);
            Shows(r, Press(d, k, ticks[0].now, hangup)) && (!r.closed ==> (r.pendingCr <==> k == Enter(Cr)))
  {
    assert |BytesOf(ticks)| == |ticks|;
    match k
    case Char(_) => PressChar(e, d, k, ticks, hangup);
    case Erase(_) =>
      assert BytesOf(ticks)[0] == ticks[0].b;
      assert ticks == [ticks[0]];
      PressErase(e, d, k, ticks[0], hangup);
    case Sequence(_, _, _) => FeedSequence(e, k, ticks, hangup);
    case Enter(_) => PressEnter(e, d, k, ticks, hangup);
    case Leave => PressLeave(e, d, k, ticks, hangup);
    hide Feed;
    hide Consume;
    hide EncodeAll;
    hide Encode;
  }

  // ----- Every key sequence -----

  lemma {:induction false} ClosedFeed(e: Editor, ticks: seq<Tick>, hangup: nat -> bool)
    ensures e.closed ==> Feed(e, ticks, hangup) == e
  {
  }

  /**
   * Editing bytes is editing code points: for every sequence of whole characters,
   * backspaces, key sequences, CR, LF or CRLF line ends and control D, each byte at a time of its own,
   * the editor closes exactly when the code-point desk does, delivers exactly the encodings
   * of its lines and, while open, holds the encoding of its text.
   */
  lemma {:induction false} EditingIsByCodePoint(e: Editor, d: Desk, keys: seq<Key>, ticks: seq<Tick>, hangup: nat -> bool)
    requires Shows(e, d) && Spelled(keys) && Follows(e, keys) && Spells(ticks, keys)
    ensures Shows(Feed(e, ticks, hangup), PressAll(d, keys, ticks, hangup))
    decreases keys
  {
    hide Typed;
    hide EncodeAll;
    if !d.open {
      ClosedFeed(e, ticks, hangup);
    } else if keys == [] {
      assert |BytesOf(ticks)| == |ticks|;
    } else {
      var k, rest, n := keys[0], keys[1..], |Typed(keys[0])|;
      SpellsSplit(ticks, keys);
      PressKey(e, d, k, ticks[..n], hangup);
      assert ticks == ticks[..n] + ticks[n..];
      FeedConcat(e, ticks[..n], ticks[n..], hangup);
      hide Feed;
      hide Press;
      hide Spells;
      assert Spelled(rest);
      assert rest != [] && k == Enter(Cr) ==> rest[0] != Enter(Lf);
      var r, next := Feed(e, ticks[..n], hangup), Press(d, k, ticks[0].now, hangup);
      if next.open {
        EditingIsByCodePoint(r, next, rest, ticks[n..], hangup);
      } else {
        ClosedFeed(r, ticks[n..], hangup);
      }
    }
  }

  /** The limits only cut an edit short: an open desk has edited every key, a closed one has the first lines. */
  lemma {:induction false} DeskIsCutEdit(d: Desk, keys: seq<Key>, ticks: seq<Tick>, hangup: nat -> bool)
    requires Spells(ticks, keys)
    ensures var r := PressAll(d, keys, ticks, hangup);
            && r.draft.done <= EditAll(d.draft, keys).done
            && (r.open ==> r.draft == EditAll(d.draft, keys))
    decreases keys
  {
    hide Typed;
    hide EncodeAll;
    hide Consume;
    EditOnlyAdds(d.draft, keys);
    if keys != [] && d.open {
      SpellsSplit(ticks, keys);
      EditOnlyAdds(Edit(d.draft, keys[0]), keys[1..]);
      DeskIsCutEdit(Press(d, keys[0], ticks[0].now, hangup), keys[1..], ticks[|Typed(keys[0])|..], hangup);
    }
  }

  lemma {:induction false} EditOnlyAdds(d: Draft, keys: seq<Key>)
    ensures d.done <= EditAll(d, keys).done
    decreases keys
  {
    if keys != [] {
      EditOnlyAdds(Edit(d, keys[0]), keys[1..]);
    }
  }

  datatype Chunk = Chunk(bytes: seq<byte>, now: nat)

  function ArriveAll(l: Link, chunks: seq<Chunk>, hangup: nat -> bool): Link
    decreases chunks
  {
    if chunks == [] then l else ArriveAll(Arrive(l, chunks[0].bytes, chunks[0].now, hangup), chunks[1..], hangup)
  }

  function TicksOf(chunks: seq<Chunk>): seq<Tick> {
    if chunks == [] then [] else Stamped(chunks[0].bytes, chunks[0].now) + TicksOf(chunks[1..])
  }

  lemma {:induction false} FeedOnlyAdds(e: Editor, ticks: seq<Tick>, hangup: nat -> bool)
    ensures e.lines <= Feed(e, ticks, hangup).lines
    decreases ticks
  {
    if ticks != [] && !e.closed {
      InputOnlyAdds(e, ticks[0].b, ticks[0].now, hangup);
      hide Input;
      FeedOnlyAdds(Input(e, ticks[0].b, ticks[0].now, hangup), ticks[1..], hangup);
    }
  }

  lemma {:induction false} InputOnlyAdds(e: Editor, b: byte, now: nat, hangup: nat -> bool)
    ensures e.lines <= Input(e, b, now, hangup).lines
  {
    hide Consume;
    hide LastStart;
  }

  /** Chunking only matters where a chunk is refused. */
  lemma {:induction false} ChunksAreTicks(l: Link, chunks: seq<Chunk>, hangup: nat -> bool)
    ensures var r := ArriveAll(l, chunks, hangup).editor;
            var fed := Feed(l.editor, TicksOf(chunks), hangup);
            r.lines <= fed.lines && (!r.closed ==> r == fed)
    decreases chunks
  {
    FeedOnlyAdds(l.editor, TicksOf(chunks), hangup);
    if chunks != [] {
      var ticks, rest := Stamped(chunks[0].bytes, chunks[0].now), chunks[1..];
      var next := Arrive(l, chunks[0].bytes, chunks[0].now, hangup);
      ChunksAreTicks(next, rest, hangup);
      FeedConcat(l.editor, ticks, TicksOf(rest), hangup);
      ClosedFeed(next.editor, TicksOf(rest), hangup);
      hide Feed;
      hide Consume;
      hide Stamped;
    }
  }

  const BLANK := Editor([], false, Off, false, [], FRESH)

  /**
   * From a new connection, for every typing of keys, cut into any chunks at any times, with
   * any line and byte budgets spent and any wish of the application to close: the delivered
   * lines are the encodings of the first lines that were meant and, while the connection is
   * open, of all of them, the rest being in the buffer.
   */
  lemma {:induction false} TypedIsDelivered(keys: seq<Key>, chunks: seq<Chunk>, hangup: nat -> bool)
    requires Spelled(keys) && Spells(TicksOf(chunks), keys)
    ensures var r := ArriveAll(Link(BLANK, FRESH), chunks, hangup).editor;
            var meant := EditAll(Draft([], []), keys);
            && r.lines <= EncodeLines(meant.done)
            && (!r.closed ==> r.lines == EncodeLines(meant.done) && r.line == EncodeAll(meant.text))
  {
    var desk := Desk(Draft([], []), FRESH, true);
    var ticks := TicksOf(chunks);
    assert Shows(BLANK, desk);
    EditingIsByCodePoint(BLANK, desk, keys, ticks, hangup);
    DeskIsCutEdit(desk, keys, ticks, hangup);
    ChunksAreTicks(Link(BLANK, FRESH), chunks, hangup);
    hide Feed;
    hide PressAll;
    hide EditAll;
    hide ArriveAll;
    hide EncodeAll;
    hide Spells;
  }

  /** The line buffer is never exceeded, whatever the bytes. */
  lemma {:induction false} LineStaysBounded(e: Editor, ticks: seq<Tick>, hangup: nat -> bool)
    requires |e.line| <= LINE_MAX && forall i :: 0 <= i < |e.lines| ==> |e.lines[i]| <= LINE_MAX
    ensures var r := Feed(e, ticks, hangup);
            |r.line| <= LINE_MAX && forall i :: 0 <= i < |r.lines| ==> |r.lines[i]| <= LINE_MAX
    decreases ticks
  {
    if ticks != [] && !e.closed {
      LineStaysBounded(Input(e, ticks[0].b, ticks[0].now, hangup), ticks[1..], hangup);
    }
  }
}
