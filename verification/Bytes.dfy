/** Bytes and the few wire constants that several components share. */
module Bytes {

  type byte = b: int | 0 <= b < 256

  datatype Option<+T> = None | Some(value: T)

  // Telnet command codes (src/telnet_internal.h).
  const EOR: byte := 239
  const SE: byte := 240
  const BRK: byte := 243
  const IP: byte := 244
  const AYT: byte := 246
  const EC: byte := 247
  const EL: byte := 248
  const GA: byte := 249
  const SB: byte := 250
  const WILL: byte := 251
  const WONT: byte := 252
  const DO: byte := 253
  const DONT: byte := 254
  const IAC: byte := 255

  // Telnet option codes (src/telnet_internal.h).
  const OPT_BINARY: byte := 0
  const OPT_ECHO: byte := 1
  const OPT_SGA: byte := 3
  const OPT_TERMINAL_TYPE: byte := 24
  const OPT_EOR: byte := 25
  const OPT_NAWS: byte := 31
  const OPT_NEW_ENVIRON: byte := 39
  const OPT_CHARSET: byte := 42
  const OPT_MSSP: byte := 70
  const OPT_GMCP: byte := 201

  const NUL: byte := 0
  const BS: byte := 8
  const LF: byte := 10
  const CR: byte := 13
  const ESC: byte := 27
  const DEL: byte := 127

  /** ASCII lower case; every other byte is left alone. */
  function Lower(b: byte): byte {
    if 65 <= b <= 90 then b + 32 else b
  }

  function LowerAll(s: seq<byte>): (r: seq<byte>)
    ensures |r| == |s|
    ensures forall i :: 0 <= i < |s| ==> r[i] == Lower(s[i])
  {
    seq(|s|, i requires 0 <= i < |s| => Lower(s[i]))
  }

  predicate SameIgnoringCase(a: seq<byte>, b: seq<byte>) {
    LowerAll(a) == LowerAll(b)
  }

  /** The C string that a byte buffer holds. */
  function CString(s: seq<byte>): seq<byte> {
    if s == [] || s[0] == NUL then [] else [s[0]] + CString(s[1..])
  }
}
