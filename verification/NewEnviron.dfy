/** The NEW-ENVIRON report of RFC 1572: VAR and USERVAR fields with ESC quoting. */
module NewEnviron {
  import opened Bytes

  const VAR: byte := 0
  const VAL: byte := 1
  const QUOTE: byte := 2
  const USERVAR: byte := 3
  const IS: byte := 0
  const INFO: byte := 2

  const NAME_MAX := 64
  const VALUE_MAX := 128

  datatype Pair = Pair(token: byte, name: seq<byte>, value: seq<byte>)

  predicate Opens(b: byte) {
    b == VAR || b == USERVAR
  }

  // ----- Decoding -----

  datatype Field = Fault | Taken(text: seq<byte>, rest: seq<byte>)

  /**
   * The rest of a field of which `got` is already decoded. It ends before VAR or USERVAR; a
   * name also ends before VAL, which in a value is a fault, as are a missing quoted byte and
   * a byte beyond the limit.
   */
  function TakeField(s: seq<byte>, got: seq<byte>, limit: nat, isName: bool): (f: Field)
    ensures f.Taken? ==> |f.rest| <= |s| && |f.text| >= |got|
    ensures f.Taken? && f.rest != [] ==> Opens(f.rest[0]) || (isName && f.rest[0] == VAL)
    decreases s
  {
    if s == [] then Taken(got, s)
    else if s[0] == QUOTE then
      if |s| < 2 || |got| >= limit then Fault else TakeField(s[2..], got + [s[1]], limit, isName)
    else if Opens(s[0]) then Taken(got, s)
    else if s[0] == VAL then if isName then Taken(got, s) else Fault
    else if |got| >= limit then Fault
    else TakeField(s[1..], got + [s[0]], limit, isName)
  }

  datatype Variable = Broken | Whole(pair: Pair, rest: seq<byte>)

  /** One variable: its opening token, its name and, after VAL, its value. */
  function TakeVariable(s: seq<byte>): (v: Variable)
    requires s != []
    ensures v.Whole? ==> |v.rest| < |s|
  {
    if !Opens(s[0]) then Broken
    else
      match TakeField(s[1..], [], NAME_MAX, true)
      case Fault => Broken
      case Taken(name, rest) =>
        match if rest != [] && rest[0] == VAL then TakeField(rest[1..], [], VALUE_MAX, false) else Taken([], rest)
        case Fault => Broken
        case Taken(value, after) => Whole(Pair(s[0], name, value), after)
  }

  datatype Decoded = Decoded(pairs: seq<Pair>, complete: bool)

  /** A variable without a name is skipped; a fault ends the report and keeps what came before. */
  function Decode(s: seq<byte>): (r: Decoded)
    decreases |s|
  {
    if s == [] then Decoded([], true)
    else
      match TakeVariable(s)
      case Broken => Decoded([], false)
      case Whole(pair, rest) =>
        var more := Decode(rest);
        Decoded(Named(pair) + more.pairs, more.complete)
  }

  function Named(p: Pair): seq<Pair> {
    if p.name == [] then [] else [p]
  }

  /** One field of the source's decoder, read into a scratch buffer. */
  method ReadField(data: seq<byte>, from: nat, limit: nat, isName: bool) returns (ok: bool, text: seq<byte>, next: nat)
    requires from <= |data|
    ensures from <= next <= |data|
    ensures TakeField(data[from..], [], limit, isName) == if ok then Taken(text, data[next..]) else Fault
  {
    var i := from;
    text := [];
    while i < |data|
      invariant from <= i <= |data|
      invariant TakeField(data[from..], [], limit, isName) == TakeField(data[i..], text, limit, isName)
      decreases |data| - i
    {
      var b := data[i];
      assert data[i..][1..] == data[i + 1..];
      if b == QUOTE {
        if i + 1 >= |data| || |text| >= limit {
          return false, text, i;
        }
        assert data[i..][2..] == data[i + 2..];
        text := text + [data[i + 1]];
        i := i + 2;
      } else if Opens(b) || (isName && b == VAL) {
        return true, text, i;
      } else if b == VAL || |text| >= limit {
        return false, text, i;
      } else {
        text := text + [b];
        i := i + 1;
      }
    }
    return true, text, i;
  }

  method ReadVariable(data: seq<byte>, from: nat) returns (ok: bool, pair: Pair, next: nat)
    requires from < |data|
    ensures from <= next <= |data| && (ok ==> from < next)
    ensures TakeVariable(data[from..]) == if ok then Whole(pair, data[next..]) else Broken
  {
    var token := data[from];
    pair := Pair(token, [], []);
    if !Opens(token) {
      return false, pair, from;
    }
    assert data[from..][1..] == data[from + 1..];
    var name;
    ok, name, next := ReadField(data, from + 1, NAME_MAX, true);
    if !ok {
      return false, pair, next;
    }
    var value := [];
    if next < |data| && data[next] == VAL {
      assert data[next..][1..] == data[next + 1..];
      ok, value, next := ReadField(data, next + 1, VALUE_MAX, false);
    }
    pair := Pair(token, name, value);
  }

  /** The loop of handle_new_environ after the command byte. */
  method ReadReport(data: seq<byte>, from: nat) returns (pairs: seq<Pair>, complete: bool)
    requires from <= |data|
    ensures Decoded(pairs, complete) == Decode(data[from..])
  {
    hide TakeVariable;
    var i := from;
    pairs := [];
    while i < |data|
      invariant from <= i <= |data|
      invariant Decode(data[from..]) == Decoded(pairs + Decode(data[i..]).pairs, Decode(data[i..]).complete)
      decreases |data| - i
    {
      var ok, pair, next := ReadVariable(data, i);
      if !ok {
        assert Decode(data[i..]) == Decoded([], false);
        return pairs, false;
      }
      Assoc(pairs, Named(pair), Decode(data[next..]).pairs);
      if |pair.name| > 0 {
        pairs := pairs + [pair];
      }
      i := next;
    }
    assert data[i..] == [];
    return pairs, true;
  }

  lemma {:induction false} Assoc(a: seq<Pair>, b: seq<Pair>, c: seq<Pair>)
    ensures a + (b + c) == a + b + c && a + [] == a
  {
  }

  // ----- Encoding and the round trip -----

  predicate Reserved(b: byte) {
    b <= 3
  }

  function Quoted(text: seq<byte>): seq<byte> {
    if text == [] then [] else (if Reserved(text[0]) then [QUOTE, text[0]] else [text[0]]) + Quoted(text[1..])
  }

  function Encode(p: Pair): seq<byte> {
    [p.token] + Quoted(p.name) + [VAL] + Quoted(p.value)
  }

  function EncodeAll(pairs: seq<Pair>): seq<byte> {
    if pairs == [] then [] else Encode(pairs[0]) + EncodeAll(pairs[1..])
  }

  predicate WellFormed(p: Pair) {
    Opens(p.token) && |p.name| <= 64 && |p.value| <= 128
  }

  /** The pairs that a report of `pairs` applies. */
  function Applied(pairs: seq<Pair>): seq<Pair> {
    if pairs == [] then [] else Named(pairs[0]) + Applied(pairs[1..])
  }

  /** A quoted field is taken whole, up to whatever ends it. */
  lemma {:induction false} TakesQuoted(text: seq<byte>, got: seq<byte>, tail: seq<byte>, limit: nat, isName: bool)
    requires |got| + |text| <= limit
    requires tail == [] || Opens(tail[0]) || (isName && tail[0] == VAL)
    ensures TakeField(Quoted(text) + tail, got, limit, isName) == Taken(got + text, tail)
    decreases text
  {
    var s := Quoted(text) + tail;
    if text == [] {
      assert s == tail && got + text == got;
    } else {
      TakesQuoted(text[1..], got + [text[0]], tail, limit, isName);
      assert got + [text[0]] + text[1..] == got + text;
      if Reserved(text[0]) {
        assert s[2..] == Quoted(text[1..]) + tail && s[1] == text[0];
      } else {
        assert s[1..] == Quoted(text[1..]) + tail;
      }
    }
  }

  /** One encoded pair in front of a tail that can follow it. */
  lemma {:induction false} DecodesPair(p: Pair, tail: seq<byte>)
    requires WellFormed(p) && (tail == [] || Opens(tail[0]))
    ensures Decode(Encode(p) + tail) == Decoded(Named(p) + Decode(tail).pairs, Decode(tail).complete)
  {
    var s := Encode(p) + tail;
    var after := Quoted(p.value) + tail;
    assert s[1..] == Quoted(p.name) + ([VAL] + after);
    assert ([VAL] + after)[1..] == after;
    TakesQuoted(p.name, [], [VAL] + after, NAME_MAX, true);
    TakesQuoted(p.value, [], tail, VALUE_MAX, false);
    assert [] + p.name == p.name && [] + p.value == p.value;
    hide TakeField;
    hide Quoted;
  }

  lemma {:induction false} EncodeAllOpens(pairs: seq<Pair>, tail: seq<byte>)
    requires forall i :: 0 <= i < |pairs| ==> WellFormed(pairs[i])
    requires tail == [] || Opens(tail[0])
    ensures var s := EncodeAll(pairs) + tail; s == [] || Opens(s[0])
  {
  }

  /**
   * Decoding a report applies exactly its pairs with a name, in order. If a faulty rest
   * follows (starting where a variable would), exactly the pairs before it and those the rest
   * completes are applied, and the report counts as incomplete.
   */
  lemma {:induction false} ReportRoundTrip(pairs: seq<Pair>, tail: seq<byte>)
    requires forall i :: 0 <= i < |pairs| ==> WellFormed(pairs[i])
    requires tail == [] || Opens(tail[0])
    ensures Decode(EncodeAll(pairs) + tail) == Decoded(Applied(pairs) + Decode(tail).pairs, Decode(tail).complete)
    decreases pairs
  {
    hide Encode;
    hide Named;
    hide Decode;
    if pairs == [] {
      assert EncodeAll(pairs) + tail == tail && [] + Decode(tail).pairs == Decode(tail).pairs;
    } else {
      var rest := EncodeAll(pairs[1..]);
      ReportRoundTrip(pairs[1..], tail);
      EncodeAllOpens(pairs[1..], tail);
      DecodesPair(pairs[0], rest + tail);
      assert EncodeAll(pairs) + tail == Encode(pairs[0]) + (rest + tail);
      Assoc(Named(pairs[0]), Applied(pairs[1..]), Decode(tail).pairs);
    }
  }

  lemma {:induction false} WholeReportRoundTrip(pairs: seq<Pair>)
    requires forall i :: 0 <= i < |pairs| ==> WellFormed(pairs[i])
    ensures Decode(EncodeAll(pairs)) == Decoded(Applied(pairs), true)
  {
    ReportRoundTrip(pairs, []);
    assert EncodeAll(pairs) + [] == EncodeAll(pairs);
    assert Applied(pairs) + [] == Applied(pairs);
  }
}
