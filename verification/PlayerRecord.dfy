/** The three-line account record: its printer, and the line reader that loads it back. */
module PlayerRecord {
  import opened Bytes

  const NAME_MIN := 3
  const NAME_MAX := 15
  const HASH_BYTES := 128

  /** "player-record-v1" */
  const VERSION: seq<byte> := [112, 108, 97, 121, 101, 114, 45, 114, 101, 99, 111, 114, 100, 45, 118, 49]
  /** "name=" and "hash=" */
  const NAME_TAG: seq<byte> := [110, 97, 109, 101, 61]
  const HASH_TAG: seq<byte> := [104, 97, 115, 104, 61]

  predicate NameByte(b: byte) {
    65 <= b <= 90 || 97 <= b <= 122 || 48 <= b <= 57 || b == 95 || b == 45
  }

  predicate NameValid(name: seq<byte>) {
    NAME_MIN <= |name| <= NAME_MAX && forall i :: 0 <= i < |name| ==> NameByte(name[i])
  }

  /** player_store_name_valid. */
  method CheckName(name: seq<byte>) returns (ok: bool)
    ensures ok <==> NameValid(name)
  {
    if |name| < NAME_MIN || |name| > NAME_MAX {
      return false;
    }
    for i := 0 to |name|
      invariant forall j :: 0 <= j < i ==> NameByte(name[j])
    {
      var letter := 65 <= name[i] <= 90 || 97 <= name[i] <= 122;
      var digit := 48 <= name[i] <= 57;
      if !letter && !digit && name[i] != 95 && name[i] != 45 {
        return false;
      }
    }
    return true;
  }

  /** A password verifier that fits the record: no terminator, no line ending, short enough. */
  predicate HashValid(hash: seq<byte>) {
    |hash| < HASH_BYTES && forall i :: 0 <= i < |hash| ==> hash[i] != NUL && hash[i] != CR && hash[i] != LF
  }

  // ----- build_record_text -----

  function Print(name: seq<byte>, hash: seq<byte>): seq<byte> {
    VERSION + [LF] + NAME_TAG + name + [LF] + HASH_TAG + hash + [LF]
  }

  // ----- load_record -----

  datatype Line = Line(text: seq<byte>, rest: seq<byte>)

  /** fgets: at most `size - 1` bytes, up to and including the first newline; nothing at end of file. */
  function ReadLine(s: seq<byte>, size: nat): (r: Option<Line>)
    requires size > 1
  {
    if s == [] then None
    else
      var n := LineLength(s, size - 1);
      Some(Line(s[..n], s[n..]))
  }

  function LineLength(s: seq<byte>, most: nat): (n: nat)
    ensures n <= |s| && n <= most
  {
    if s == [] || most == 0 then 0 else if s[0] == LF then 1 else 1 + LineLength(s[1..], most - 1)
  }

  /** strip_line_ending. */
  function Stripped(s: seq<byte>): seq<byte> {
    if s != [] && (s[|s| - 1] == LF || s[|s| - 1] == CR) then Stripped(s[..|s| - 1]) else s
  }

  /** The loop of strip_line_ending over the buffer; the result is the new length. */
  method StripLineEnding(line: array<byte>, length: nat) returns (kept: nat)
    requires length < line.Length
    modifies line
    ensures kept <= length && old(line[..length])[..kept] == Stripped(old(line[..length]))
    ensures line[..kept] == old(line[..kept])
    ensures kept < length ==> line[kept] == NUL
  {
    kept := length;
    ghost var was := line[..length];
    while kept > 0 && (line[kept - 1] == LF || line[kept - 1] == CR)
      invariant 0 <= kept <= length
      invariant line[..kept] == was[..kept]
      invariant Stripped(was[..kept]) == Stripped(was)
      invariant kept < length ==> line[kept] == NUL
    {
      assert was[..kept][..kept - 1] == was[..kept - 1];
      kept := kept - 1;
      line[kept] := NUL;
    }
    assert was[..length] == was;
  }

  datatype Loaded = Loaded(name: seq<byte>, hash: seq<byte>)

  /** The record of `name` in a file with these bytes; `None` is every way to be rejected. */
  function Parse(file: seq<byte>, name: seq<byte>): Option<Loaded> {
    var one := ReadLine(file, 64);
    if one.None? then None else
    var two := ReadLine(one.value.rest, 64);
    if two.None? then None else
    var three := ReadLine(two.value.rest, HASH_BYTES + 16);
    if three.None? then None else
    Check(Stripped(CString(one.value.text)), Stripped(CString(two.value.text)), Stripped(CString(three.value.text)), name)
  }

  function Check(version: seq<byte>, nameLine: seq<byte>, hashLine: seq<byte>, name: seq<byte>): Option<Loaded> {
    if version == VERSION && NAME_TAG <= nameLine && HASH_TAG <= hashLine
       && NameValid(nameLine[5..]) && SameIgnoringCase(nameLine[5..], name) && |hashLine[5..]| < HASH_BYTES
    then Some(Loaded(nameLine[5..], hashLine[5..]))
    else None
  }

  // ----- Round trip -----

  /** Bytes that survive a line: no terminator and no line ending among them. */
  predicate Plain(s: seq<byte>) {
    forall i :: 0 <= i < |s| ==> s[i] != NUL && s[i] != CR && s[i] != LF
  }

  lemma {:induction false} LineOf(text: seq<byte>, rest: seq<byte>, most: nat)
    requires Plain(text) && |text| < most
    ensures LineLength(text + [LF] + rest, most) == |text| + 1
  {
    var s := text + [LF] + rest;
    if text != [] {
      LineOf(text[1..], rest, most - 1);
      assert s[1..] == text[1..] + [LF] + rest;
    }
  }

  lemma {:induction false} LineAtEnd(text: seq<byte>, most: nat)
    requires Plain(text) && |text| <= most
    ensures LineLength(text, most) == |text|
  {
    if text != [] {
      LineAtEnd(text[1..], most - 1);
    }
  }

  lemma {:induction false} CStringKeeps(s: seq<byte>)
    requires forall i :: 0 <= i < |s| ==> s[i] != NUL
    ensures CString(s) == s
  {
    if s != [] {
      CStringKeeps(s[1..]);
    }
  }

  lemma {:induction false} StripsOneEnding(text: seq<byte>)
    requires Plain(text)
    ensures Stripped(CString(text + [LF])) == text && Stripped(CString(text)) == text
  {
    CStringKeeps(text + [LF]);
    CStringKeeps(text);
    assert (text + [LF])[..|text|] == text;
    assert Stripped(text) == text;
  }

  /** Reading a printed line gives its text back and leaves the rest of the file. */
  lemma {:induction false} ReadPrinted(text: seq<byte>, rest: seq<byte>, size: nat)
    requires Plain(text) && |text| + 1 < size
    ensures var r := ReadLine(text + [LF] + rest, size);
            r.Some? && Stripped(CString(r.value.text)) == text && r.value.rest == rest
  {
    var s := text + [LF] + rest;
    LineOf(text, rest, size - 1);
    assert s[..|text| + 1] == text + [LF];
    assert s[|text| + 1..] == rest;
    StripsOneEnding(text);
    hide Stripped;
    hide CString;
    hide LineLength;
  }

  lemma {:induction false} NameIsPlain(name: seq<byte>)
    requires NameValid(name)
    ensures Plain(NAME_TAG + name) && (NAME_TAG + name)[5..] == name && NAME_TAG <= NAME_TAG + name
  {
  }

  lemma {:induction false} HashIsPlain(hash: seq<byte>)
    requires HashValid(hash)
    ensures Plain(HASH_TAG + hash) && (HASH_TAG + hash)[5..] == hash && HASH_TAG <= HASH_TAG + hash
  {
  }

  /** Reading the first two lines of a record, whatever follows. */
  lemma {:induction false} ReadHeader(name: seq<byte>, tail: seq<byte>)
    requires NameValid(name)
    ensures var one := ReadLine(VERSION + [LF] + NAME_TAG + name + [LF] + tail, 64);
            && one.Some? && Stripped(CString(one.value.text)) == VERSION
            && var two := ReadLine(one.value.rest, 64);
            two.Some? && Stripped(CString(two.value.text)) == NAME_TAG + name && two.value.rest == tail
  {
    var second := (NAME_TAG + name) + [LF] + tail;
    assert VERSION + [LF] + NAME_TAG + name + [LF] + tail == VERSION + [LF] + second;
    NameIsPlain(name);
    ReadPrinted(VERSION, second, 64);
    ReadPrinted(NAME_TAG + name, tail, 64);
  }

  /** A printed record fits the 512-byte buffer. */
  lemma {:induction false} PrintFits(name: seq<byte>, hash: seq<byte>)
    requires NameValid(name) && HashValid(hash)
    ensures |Print(name, hash)| < 512
  {
  }

  /** A file that begins with a record's first two lines is judged by those and its third line. */
  lemma {:induction false} ParseIsCheck(name: seq<byte>, tail: seq<byte>, hashLine: seq<byte>, asked: seq<byte>)
    requires NameValid(name)
    requires var three := ReadLine(tail, HASH_BYTES + 16); three.Some? && Stripped(CString(three.value.text)) == hashLine
    ensures Parse(VERSION + [LF] + NAME_TAG + name + [LF] + tail, asked) == Check(VERSION, NAME_TAG + name, hashLine, asked)
  {
    hide ReadLine;
    hide Stripped;
    hide CString;
    hide Check;
    hide NameValid;
    ReadHeader(name, tail);
  }

  lemma {:induction false} CheckLoads(name: seq<byte>, hash: seq<byte>, asked: seq<byte>)
    requires NameValid(name) && HashValid(hash)
    ensures Check(VERSION, NAME_TAG + name, HASH_TAG + hash, asked) == if SameIgnoringCase(name, asked) then Some(Loaded(name, hash)) else None
  {
    NameIsPlain(name);
    HashIsPlain(hash);
    hide Plain;
    hide NameValid;
    hide SameIgnoringCase;
  }

  lemma {:induction false} PrintText(name: seq<byte>, hash: seq<byte>)
    ensures Print(name, hash) == VERSION + [LF] + NAME_TAG + name + [LF] + ((HASH_TAG + hash) + [LF] + [])
  {
  }

  /** A printed record loads back, under exactly the names that differ from its own in case only. */
  lemma {:induction false} ParseInvertsPrint(name: seq<byte>, hash: seq<byte>, asked: seq<byte>)
    requires NameValid(name) && HashValid(hash)
    ensures Parse(Print(name, hash), asked) == if SameIgnoringCase(name, asked) then Some(Loaded(name, hash)) else None
  {
    HashIsPlain(hash);
    PrintFits(name, hash);
    assert |HASH_TAG + hash| + 1 < HASH_BYTES + 16;
    hide *;
    PrintText(name, hash);
    ReadPrinted(HASH_TAG + hash, [], HASH_BYTES + 16);
    ParseIsCheck(name, (HASH_TAG + hash) + [LF] + [], HASH_TAG + hash, asked);
    CheckLoads(name, hash, asked);
  }

  /** Whatever a file holds, a record loaded from it has a valid name that matches the name asked for. */
  lemma {:induction false} ParsedNameMatches(file: seq<byte>, asked: seq<byte>)
    ensures var r := Parse(file, asked);
            r.Some? ==> NameValid(r.value.name) && SameIgnoringCase(r.value.name, asked) && |r.value.hash| < HASH_BYTES
  {
    hide ReadLine;
    hide Stripped;
    hide CString;
  }

  /**
   * The loader does not notice a record cut short inside its last line: the shortened
   * verifier loads as if it were whole. Records must therefore never be visible half written.
   */
  lemma {:induction false} TornRecordLoads(name: seq<byte>, hash: seq<byte>, kept: nat)
    requires NameValid(name) && HashValid(hash) && kept <= |hash|
    ensures var torn := Print(name, hash)[..|Print(name, hash)| - 1 - |hash| + kept];
            Parse(torn, name) == Some(Loaded(name, hash[..kept]))
  {
    var tail := HASH_TAG + hash[..kept];
    HashIsPlain(hash[..kept]);
    assert HashValid(hash[..kept]) && |tail| <= HASH_BYTES + 15 && tail != [] && SameIgnoringCase(name, name);
    hide *;
    TornText(name, hash, kept);
    ReadUnfinished(tail);
    ParseIsCheck(name, tail, tail, name);
    CheckLoads(name, hash[..kept], name);
  }

  lemma {:induction false} TornText(name: seq<byte>, hash: seq<byte>, kept: nat)
    requires kept <= |hash|
    ensures Print(name, hash)[..|Print(name, hash)| - 1 - |hash| + kept]
              == VERSION + [LF] + NAME_TAG + name + [LF] + (HASH_TAG + hash[..kept])
  {
    var header := VERSION + [LF] + NAME_TAG + name + [LF] + HASH_TAG;
    assert Print(name, hash) == header + hash + [LF];
    assert (header + hash + [LF])[..|header| + kept] == header + hash[..kept];
    assert header + hash[..kept] == VERSION + [LF] + NAME_TAG + name + [LF] + (HASH_TAG + hash[..kept]);
  }

  /** A last line without its newline reads as the whole line. */
  lemma {:induction false} ReadUnfinished(tail: seq<byte>)
    requires tail != [] && |tail| <= HASH_BYTES + 15
    requires HASH_TAG <= tail && HashValid(tail[5..])
    ensures var r := ReadLine(tail, HASH_BYTES + 16);
            r.Some? && Stripped(CString(r.value.text)) == tail
  {
    assert tail == HASH_TAG + tail[5..];
    HashIsPlain(tail[5..]);
    LineAtEnd(tail, HASH_BYTES + 15);
    assert tail[..|tail|] == tail;
    StripsOneEnding(tail);
    hide Stripped;
    hide CString;
    hide LineLength;
  }
}
