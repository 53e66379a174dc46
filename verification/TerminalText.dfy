/**
 * UTF-8 validation and sanitising of terminal text, against an encoder written from
 * RFC 3629 section 3. Bit masks and shifts of the source are written as the subtraction,
 * multiplication and division they amount to in the ranges where they are applied.
 */
module TerminalText {
  import opened Bytes

  /** A Unicode scalar value: any code point but a surrogate. */
  type Scalar = c: int | 0 <= c <= 0x10FFFF && !(0xD800 <= c <= 0xDFFF)

  const QUESTION: Scalar := 0x3F

  // ----- The reference encoding (RFC 3629 section 3) -----

  function Encode(c: Scalar): (r: seq<byte>)
    ensures 1 <= |r| <= 4
  {
    if c <= 0x7F then [c]
    else if c <= 0x7FF then [0xC0 + c / 64, 0x80 + c % 64]
    else if c <= 0xFFFF then [0xE0 + c / 64 / 64, 0x80 + c / 64 % 64, 0x80 + c % 64]
    else [0xF0 + c / 64 / 64 / 64, 0x80 + c / 64 / 64 % 64, 0x80 + c / 64 % 64, 0x80 + c % 64]
  }

  function EncodeAll(cs: seq<Scalar>): seq<byte> {
    if cs == [] then [] else Encode(cs[0]) + EncodeAll(cs[1..])
  }

  ghost predicate IsUtf8(s: seq<byte>) {
    exists cs: seq<Scalar> :: EncodeAll(cs) == s
  }

  // ----- decode_utf8 -----

  datatype Decoded = Decoded(consumed: nat, codepoint: int)

  predicate Continuation(b: byte) {
    0x80 <= b < 0xC0
  }

  /** Appends the six payload bits of a continuation byte. */
  function Join(high: int, b: byte): int {
    high * 64 + (b - 0x80)
  }

  function Decode(s: seq<byte>): Option<Decoded> {
    if s == [] then None
    else if s[0] <= 0x7F then Some(Decoded(1, s[0]))
    else if 0xC2 <= s[0] <= 0xDF then
      if |s| < 2 || !Continuation(s[1]) then None
      else Some(Decoded(2, Join(s[0] - 0xC0, s[1])))
    else if 0xE0 <= s[0] <= 0xEF then
      if |s| < 3 || !Continuation(s[1]) || !Continuation(s[2]) then None
      else if (s[0] == 0xE0 && s[1] < 0xA0) || (s[0] == 0xED && s[1] >= 0xA0) then None
      else Some(Decoded(3, Join(Join(s[0] - 0xE0, s[1]), s[2])))
    else if 0xF0 <= s[0] <= 0xF4 then
      if |s| < 4 || !Continuation(s[1]) || !Continuation(s[2]) || !Continuation(s[3]) then None
      else if (s[0] == 0xF0 && s[1] < 0x90) || (s[0] == 0xF4 && s[1] > 0x8F) then None
      else Some(Decoded(4, Join(Join(Join(s[0] - 0xF0, s[1]), s[2]), s[3])))
    else None
  }

  /** Splitting off six bits and joining them again are inverse. */
  lemma SixBits(high: int, b: byte, value: int)
    requires Continuation(b)
    ensures Join(high, b) / 64 == high && 0x80 + Join(high, b) % 64 == b
    ensures 0x80 <= 0x80 + value % 64 < 0xC0 && Join(value / 64, 0x80 + value % 64) == value
  {
  }

  /** The decoder inverts the encoder, whatever follows. */
  lemma DecodeInvertsEncode(c: Scalar, rest: seq<byte>)
    ensures Decode(Encode(c) + rest) == Some(Decoded(|Encode(c)|, c))
  {
    var e := Encode(c);
    var s := e + rest;
    assert forall i :: 0 <= i < |e| ==> s[i] == e[i];
    SixBits(0, 0x80, c);
    SixBits(0, 0x80, c / 64);
    SixBits(0, 0x80, c / 64 / 64);
  }

  /** What the decoder accepts is an encoding: no overlong form, surrogate or truncation passes. */
  lemma DecodeOnlyEncodings(s: seq<byte>)
    requires Decode(s).Some?
    ensures var d := Decode(s).value;
            && 0 <= d.codepoint <= 0x10FFFF && !(0xD800 <= d.codepoint <= 0xDFFF)
            && 1 <= d.consumed <= |s|
            && s[..d.consumed] == Encode(d.codepoint)
            && s == Encode(d.codepoint) + s[d.consumed..]
  {
    var d := Decode(s).value;
    assert s == s[..d.consumed] + s[d.consumed..];
    if d.consumed == 1 {
      assert s[..1] == [s[0]];
    } else if d.consumed == 2 {
      SixBits(s[0] - 0xC0, s[1], 0);
      assert s[..2] == [s[0], s[1]];
    } else if d.consumed == 3 {
      var m := Join(s[0] - 0xE0, s[1]);
      SixBits(s[0] - 0xE0, s[1], 0);
      SixBits(m, s[2], 0);
      assert s[..3] == [s[0], s[1], s[2]];
    } else {
      var m := Join(s[0] - 0xF0, s[1]);
      SixBits(s[0] - 0xF0, s[1], 0);
      SixBits(m, s[2], 0);
      SixBits(Join(m, s[2]), s[3], 0);
      assert s[..4] == [s[0], s[1], s[2], s[3]];
    }
  }

  lemma {:induction false} EncodeAllConcat(a: seq<Scalar>, b: seq<Scalar>)
    ensures EncodeAll(a + b) == EncodeAll(a) + EncodeAll(b)
  {
    if a == [] {
      assert a + b == b;
    } else {
      assert (a + b)[0] == a[0] && (a + b)[1..] == a[1..] + b;
      EncodeAllConcat(a[1..], b);
    }
  }

  /** A non-empty encoding starts with a decodable character, and its tail is an encoding. */
  lemma Utf8Step(s: seq<byte>)
    ensures IsUtf8([])
    ensures s != [] ==> (IsUtf8(s) <==> Decode(s).Some? && IsUtf8(s[Decode(s).value.consumed..]))
  {
    assert EncodeAll([]) == [];
    if s != [] {
      if IsUtf8(s) {
        var cs: seq<Scalar> :| EncodeAll(cs) == s;
        DecodeInvertsEncode(cs[0], EncodeAll(cs[1..]));
        assert s[|Encode(cs[0])|..] == EncodeAll(cs[1..]);
      }
      if Decode(s).Some? && IsUtf8(s[Decode(s).value.consumed..]) {
        DecodeOnlyEncodings(s);
        var d := Decode(s).value;
        var cs: seq<Scalar> :| EncodeAll(cs) == s[d.consumed..];
        var c: Scalar := d.codepoint;
        assert ([c] + cs)[1..] == cs;
        assert EncodeAll([c] + cs) == s;
      }
    }
  }

  /** Validity as a recursion over the decoder, for use by other components. */
  predicate ValidUtf8(s: seq<byte>) {
    s == [] || (Decode(s).Some? && 0 < Decode(s).value.consumed <= |s| && ValidUtf8(s[Decode(s).value.consumed..]))
  }

  lemma {:induction false} ValidIsUtf8(s: seq<byte>)
    ensures ValidUtf8(s) <==> IsUtf8(s)
  {
    Utf8Step(s);
    if s != [] && Decode(s).Some? {
      DecodeOnlyEncodings(s);
      hide Decode;
      ValidIsUtf8(s[Decode(s).value.consumed..]);
    }
  }

  /** terminal_text_utf8_valid: accepts exactly the concatenations of encoded scalar values. */
  method Utf8Valid(input: seq<byte>) returns (ok: bool)
    ensures ok <==> IsUtf8(input)
  {
    var offset := 0;
    Utf8Step([]);
    hide IsUtf8;
    while offset < |input|
      invariant 0 <= offset <= |input|
      invariant IsUtf8(input) <==> IsUtf8(input[offset..])
    {
      hide Decode;
      Utf8Step(input[offset..]);
      var d := Decode(input[offset..]);
      if d.None? {
        return false;
      }
      DecodeOnlyEncodings(input[offset..]);
      assert input[offset..][d.value.consumed..] == input[offset + d.value.consumed..];
      offset := offset + d.value.consumed;
    }
    assert input[offset..] == [];
    ok := true;
  }

  // ----- terminal_text_sanitize_utf8 -----

  predicate Safe(c: int) {
    c == 13 || c == 10 || c == 9 ||
    !(c < 0x20 || 0x7F <= c <= 0x9F || c == 0x2028 || c == 0x2029 || 0x202A <= c <= 0x202E || 0x2066 <= c <= 0x2069)
  }

  predicate AllSafe(cs: seq<Scalar>) {
    forall i :: 0 <= i < |cs| ==> Safe(cs[i])
  }

  datatype Emission = Emission(consumed: nat, codepoint: Scalar)

  /** One sanitising step: the code point emitted and the input bytes it accounts for. */
  function Emit(s: seq<byte>): (r: Emission)
    requires s != []
    ensures 1 <= r.consumed <= |s| && Safe(r.codepoint)
  {
    match Decode(s)
    case None => Emission(1, QUESTION)
    case Some(d) =>
      DecodeOnlyEncodings(s);
      Emission(d.consumed, if Safe(d.codepoint) then d.codepoint else QUESTION)
  }

  /** The code points that sanitising would emit with unlimited room. */
  function Clean(s: seq<byte>): (cs: seq<Scalar>) {
    if s == [] then [] else [Emit(s).codepoint] + Clean(s[Emit(s).consumed..])
  }

  /** The code points emitted when `room` bytes are available. */
  function Kept(s: seq<byte>, room: nat): (cs: seq<Scalar>) {
    if s == [] then []
    else
      var e := Emit(s);
      if |Encode(e.codepoint)| > room then []
      else [e.codepoint] + Kept(s[e.consumed..], room - |Encode(e.codepoint)|)
  }

  function Sanitized(s: seq<byte>, size: nat): seq<byte> {
    if size == 0 then [] else EncodeAll(Kept(s, size - 1))
  }

  lemma EncodeQuestion()
    ensures Encode(QUESTION) == [63]
  {
  }

  lemma EncodeSnoc(done: seq<Scalar>, c: Scalar)
    ensures EncodeAll(done + [c]) == EncodeAll(done) + Encode(c)
  {
    hide Encode;
    EncodeAllConcat(done, [c]);
    assert EncodeAll([c]) == Encode(c) + EncodeAll([]);
  }

  /** After `index` input bytes the code points `done` have been emitted; `room` bytes are left. */
  ghost predicate Progress(input: seq<byte>, total: nat, index: nat, done: seq<Scalar>, room: nat) {
    index <= |input| && Kept(input, total) == done + Kept(input[index..], room)
  }

  lemma Advance(input: seq<byte>, total: nat, index: nat, done: seq<Scalar>, room: nat)
    requires Progress(input, total, index, done, room) && index < |input|
    ensures var e := Emit(input[index..]);
            if |Encode(e.codepoint)| <= room
            then Progress(input, total, index + e.consumed, done + [e.codepoint], room - |Encode(e.codepoint)|)
            else Kept(input, total) == done
  {
    hide Encode;
    hide Decode;
    hide Safe;
    var rest := input[index..];
    assert rest[Emit(rest).consumed..] == input[index + Emit(rest).consumed..];
  }

  lemma NothingLeft(input: seq<byte>, room: nat)
    requires input == [] || room == 0
    ensures Kept(input, room) == []
  {
  }

  /** One turn of the sanitising loop: emits the next code point, or reports that it does not fit. */
  method EmitNext(input: seq<byte>, index: nat, output: array<byte>, written: nat) returns (consumed: nat, added: nat)
    requires index < |input| && written + 1 < output.Length
    modifies output
    ensures var e := Emit(input[index..]);
            if |Encode(e.codepoint)| < output.Length - written
            then consumed == e.consumed && added == |Encode(e.codepoint)|
                 && output[..written + added] == old(output[..written]) + Encode(e.codepoint)
                 && forall i :: written + added < i < output.Length ==> output[i] == old(output[i])
            else added == 0 && output[..] == old(output[..])
  {
    var d := Decode(input[index..]);
    EncodeQuestion();
    hide Encode;
    hide Decode;
    if d.None? || !Safe(d.value.codepoint) {
      Store(output, written, [63]);
      added := 1;
      consumed := if d.None? then 1 else d.value.consumed;
    } else {
      DecodeOnlyEncodings(input[index..]);
      consumed, added := d.value.consumed, 0;
      if written + consumed < output.Length {
        assert input[index..index + consumed] == input[index..][..consumed];
        Store(output, written, input[index..index + consumed]);
        added := consumed;
      }
    }
  }

  method SanitizeUtf8(input: seq<byte>, output: array<byte>) returns (written: nat)
    modifies output
    ensures output.Length == 0 ==> written == 0
    ensures output.Length > 0 ==> written < output.Length && output[written] == NUL
    ensures written <= output.Length && output[..written] == Sanitized(input, output.Length)
    ensures forall i :: written < i < output.Length ==> output[i] == old(output[i])
  {
    hide Encode;
    hide Decode;
    hide Emit;
    written := 0;
    if output.Length == 0 {
      return;
    }
    var index := 0;
    ghost var room := output.Length - 1;
    ghost var done: seq<Scalar> := [];
    assert input[0..] == input;
    assert Progress(input, room, 0, done, room);
    while index < |input| && written + 1 < output.Length
      invariant 0 <= index <= |input| && 0 <= written < output.Length
      invariant Progress(input, room, index, done, room - written)
      invariant output[..written] == EncodeAll(done)
      invariant forall i :: written < i < output.Length ==> output[i] == old(output[i])
      decreases |input| - index
    {
      Advance(input, room, index, done, room - written);
      ghost var c := Emit(input[index..]).codepoint;
      EncodeSnoc(done, c);
      var consumed, added := EmitNext(input, index, output, written);
      if added == 0 {
        break;
      }
      index, written, done := index + consumed, written + added, done + [c];
    }
    if index == |input| || written == room {
      NothingLeft(input[index..], room - written);
    }
    assert Kept(input, room) == done;
    output[written] := NUL;
  }

  /** The copy loop of the sanitiser. */
  method Store(output: array<byte>, at: nat, bytes: seq<byte>)
    requires at + |bytes| < output.Length
    modifies output
    ensures output[..at + |bytes|] == old(output[..at]) + bytes
    ensures forall i :: at + |bytes| <= i < output.Length ==> output[i] == old(output[i])
  {
    for k := 0 to |bytes|
      invariant output[..at + k] == old(output[..at]) + bytes[..k]
      invariant forall i :: at + k <= i < output.Length ==> output[i] == old(output[i])
    {
      output[at + k] := bytes[k];
    }
  }

  // ----- What the sanitiser promises -----

  /** Decoding an encoding emits its code points, the unsafe ones replaced. */
  lemma {:induction false} CleanOfEncoding(cs: seq<Scalar>)
    ensures |Clean(EncodeAll(cs))| == |cs|
    ensures forall i :: 0 <= i < |cs| ==> Clean(EncodeAll(cs))[i] == if Safe(cs[i]) then cs[i] else QUESTION
  {
    if cs != [] {
      var s := EncodeAll(cs);
      DecodeInvertsEncode(cs[0], EncodeAll(cs[1..]));
      hide Encode;
      hide Decode;
      assert s[|Encode(cs[0])|..] == EncodeAll(cs[1..]);
      CleanOfEncoding(cs[1..]);
    }
  }

  lemma {:induction false} CleanIsSafe(s: seq<byte>)
    ensures AllSafe(Clean(s))
  {
    if s != [] {
      CleanIsSafe(s[Emit(s).consumed..]);
    }
  }

  /** How many leading code points fit, encoded, into `room` bytes. */
  function Fitting(cs: seq<Scalar>, room: nat): (k: nat)
    ensures k <= |cs|
  {
    if cs == [] || |Encode(cs[0])| > room then 0 else 1 + Fitting(cs[1..], room - |Encode(cs[0])|)
  }

  lemma {:induction false} KeptIsFitting(s: seq<byte>, room: nat)
    ensures Kept(s, room) == Clean(s)[..Fitting(Clean(s), room)]
  {
    hide Encode;
    hide Decode;
    hide Safe;
    if s != [] {
      var e := Emit(s);
      assert Clean(s)[0] == e.codepoint && Clean(s)[1..] == Clean(s[e.consumed..]);
      if |Encode(e.codepoint)| <= room {
        KeptIsFitting(s[e.consumed..], room - |Encode(e.codepoint)|);
      }
    }
  }

  /** `Fitting` is the longest prefix of whole code points whose encoding fits. */
  lemma {:induction false} FittingIsLongest(cs: seq<Scalar>, room: nat)
    ensures var k := Fitting(cs, room);
            && |EncodeAll(cs[..k])| <= room
            && (forall j :: k < j <= |cs| ==> |EncodeAll(cs[..j])| > room)
  {
    hide Encode;
    var k := Fitting(cs, room);
    if cs != [] {
      if |Encode(cs[0])| <= room {
        FittingIsLongest(cs[1..], room - |Encode(cs[0])|);
      }
      if k > 0 {
        assert cs[..k][1..] == cs[1..][..k - 1];
      }
      forall j | k < j <= |cs|
        ensures |EncodeAll(cs[..j])| > room
      {
        assert cs[..j][1..] == cs[1..][..j - 1];
      }
    }
  }

  /** Whatever fits as a whole fits as far as `Fitting` is concerned. */
  lemma FittingWhole(cs: seq<Scalar>, room: nat)
    requires |EncodeAll(cs)| <= room
    ensures Fitting(cs, room) == |cs|
  {
    FittingIsLongest(cs, room);
    assert cs[..|cs|] == cs;
  }

  /**
   * Every output is the encoding of safe scalar values: it decodes, contains no control
   * but CR, LF and TAB, no DEL and no byte that UTF-8 excludes (in particular neither NUL,
   * ESC nor the Telnet IAC byte).
   */
  lemma OutputIsSafe(s: seq<byte>, size: nat)
    ensures exists cs: seq<Scalar> :: EncodeAll(cs) == Sanitized(s, size) && AllSafe(cs)
    ensures forall b :: b in Sanitized(s, size) ==> (b >= 0x20 || b == 13 || b == 10 || b == 9) && b != DEL && b < 0xF5
  {
    hide Encode;
    hide Decode;
    hide Safe;
    CleanIsSafe(s);
    assert EncodeAll([]) == [];
    if size > 0 {
      KeptIsFitting(s, size - 1);
    }
    var cs := if size == 0 then [] else Kept(s, size - 1);
    assert EncodeAll(cs) == Sanitized(s, size) && AllSafe(cs);
    SafeBytes(cs);
  }

  lemma {:induction false} SafeBytes(cs: seq<Scalar>)
    requires AllSafe(cs)
    ensures forall b :: b in EncodeAll(cs) ==> (b >= 0x20 || b == 13 || b == 10 || b == 9) && b != DEL && b < 0xF5
  {
    if cs != [] {
      SafeBytes(cs[1..]);
    }
  }

  /** The unsafe scalar values are the controls but TAB, LF and CR, and three short ranges. */
  lemma {:induction false} UnsafeExactly(c: Scalar)
    ensures !Safe(c) <==>
              || (c <= 31 && c != 9 && c != 10 && c != 13) || 127 <= c <= 159     // C0 controls, DEL, C1 controls
              || 0x2028 <= c <= 0x202E                                            // separators, embeddings, overrides
              || 0x2066 <= c <= 0x2069                                            // isolates
  {
  }

  /** Text of ordinary characters, of any script, passes through unchanged if it fits. */
  lemma {:induction false} OrdinaryTextIsKept(cs: seq<Scalar>, size: nat)
    requires forall i :: 0 <= i < |cs| ==> 0x20 <= cs[i] <= 0x7E || 0xA0 <= cs[i] <= 0x2027 || 0x202F <= cs[i] <= 0x2065 || 0x206A <= cs[i]
    requires |EncodeAll(cs)| < size
    ensures Sanitized(EncodeAll(cs), size) == EncodeAll(cs)
  {
    assert AllSafe(cs);
    hide EncodeAll;
    hide Sanitized;
    SafeTextIsKept(cs, size);
  }

  /** Safe text that fits passes through unchanged. */
  lemma SafeTextIsKept(cs: seq<Scalar>, size: nat)
    requires AllSafe(cs) && |EncodeAll(cs)| < size
    ensures Sanitized(EncodeAll(cs), size) == EncodeAll(cs)
  {
    hide Encode;
    hide Decode;
    CleanOfEncoding(cs);
    assert Clean(EncodeAll(cs)) == cs;
    FittingWhole(cs, size - 1);
    KeptIsFitting(EncodeAll(cs), size - 1);
    assert cs[..|cs|] == cs;
  }

  /** Sanitising again, with no less room, changes nothing. */
  lemma SanitizingIsIdempotent(s: seq<byte>, size: nat, again: nat)
    requires 0 < size <= again
    ensures Sanitized(Sanitized(s, size), again) == Sanitized(s, size)
  {
    hide Encode;
    hide Decode;
    CleanIsSafe(s);
    FittingIsLongest(Clean(s), size - 1);
    KeptIsFitting(s, size - 1);
    SafeTextIsKept(Clean(s)[..Fitting(Clean(s), size - 1)], again);
  }

  /**
   * With a smaller buffer the result is the longest prefix of the larger result that
   * consists of whole code points and fits.
   */
  lemma SmallerBufferIsLongestPrefix(s: seq<byte>, small: nat, large: nat, longer: nat)
    requires 0 < small <= large
    ensures var cs := Kept(s, large - 1);
            var k := |Kept(s, small - 1)|;
            && EncodeAll(cs) == Sanitized(s, large)
            && k <= |cs| && EncodeAll(cs[..k]) == Sanitized(s, small)
            && (k < longer <= |cs| ==> |EncodeAll(cs[..longer])| >= small)
  {
    hide Encode;
    hide Decode;
    hide Fitting;
    var all := Clean(s);
    KeptIsFitting(s, large - 1);
    KeptIsFitting(s, small - 1);
    hide Kept;
    hide Clean;
    var m, k := Fitting(all, large - 1), Fitting(all, small - 1);
    FittingIsLongest(all, large - 1);
    FittingIsLongest(all, small - 1);
    assert k <= m;
    assert all[..m][..k] == all[..k];
    if k < longer <= m {
      assert all[..m][..longer] == all[..longer];
    }
  }
}
