/**
 * What a session learns from a peer's reports, against encoders for those reports: window
 * size, terminal flags, character sets, environment variables and GMCP messages. The
 * development client's own reports are instances.
 */
module PeerReports {
  import opened Bytes
  import opened QMethod
  import opened Dialog
  import opened DialogSafety
  import NewEnviron
  import TerminalText

  function Ascii(s: string): seq<byte> {
    seq(|s|, i requires 0 <= i < |s| => if s[i] < 256 as char then s[i] as int else 63)
  }

  // ----- Window size -----

  function WindowReport(width: nat, height: nat): seq<byte>
    requires width < 65536 && height < 65536
  {
    [width / 256, width % 256, height / 256, height % 256]
  }

  function Within(value: nat, low: nat, high: nat): nat {
    if value < low then low else if value > high then high else value
  }

  /** A reported size is kept within 20 to 500 by 5 to 200; zero stands for 80 and 24. */
  lemma {:induction false} WindowIsLearned(cfg: Config, d: Session, width: nat, height: nat)
    requires d.nego.options.Valid() && d.nego.options.Enabled(Remote, 31) && width < 65536 && height < 65536
    ensures FinishSub(cfg, d, 31, WindowReport(width, height))
         == d.(term := d.term.(width := if width == 0 then 80 else Within(width, 20, 500),
                               height := if height == 0 then 24 else Within(height, 5, 200)))
  {
    hide Options.Enabled;
  }

  /** Any other length is a violation, and before the option is on a report is ignored. */
  lemma {:induction false} OddWindowIsAViolation(cfg: Config, d: Session, payload: seq<byte>)
    requires d.nego.options.Valid()
    ensures !d.nego.options.Enabled(Remote, 31) ==> FinishSub(cfg, d, 31, payload) == d
    ensures d.nego.options.Enabled(Remote, 31) && |payload| != 4 ==> FinishSub(cfg, d, 31, payload).violations == d.violations + 1
  {
    hide Options.Enabled;
    hide Close;
  }

  // ----- Decimal numbers -----

  function Digits(n: nat): (s: seq<byte>)
    ensures s != []
  {
    if n < 10 then [48 + n] else Digits(n / 10) + [48 + n % 10]
  }

  /** One more digit. */
  function Shifted(v: Option<nat>, b: byte): Option<nat> {
    if v.None? || b < 48 || b > 57 || v.value * 10 + (b - 48) > 0xFFFF_FFFF then None else Some(v.value * 10 + (b - 48))
  }

  lemma {:induction false} DecimalSnoc(value: nat, s: seq<byte>, b: byte)
    ensures DecimalFrom(value, s + [b]) == Shifted(DecimalFrom(value, s), b)
    decreases s
  {
    if s == [] {
      assert s + [b] == [b];
      assert [b][1..] == [];
    } else {
      assert (s + [b])[1..] == s[1..] + [b];
      if !(s[0] < 48 || s[0] > 57 || value * 10 + (s[0] - 48) > 0xFFFF_FFFF) {
        DecimalSnoc(value * 10 + (s[0] - 48), s[1..], b);
      }
    }
  }

  lemma {:induction false} DigitsParse(n: nat)
    ensures DecimalFrom(0, Digits(n)) == if n <= 0xFFFF_FFFF then Some(n) else None
  {
    if n < 10 {
      assert [48 + n][1..] == [];
      assert DecimalFrom(n, []) == Some(n);
    } else {
      DigitsParse(n / 10);
      DecimalSnoc(0, Digits(n / 10), 48 + n % 10);
    }
  }

  /** Numbers below 2^32 are read back, larger ones refused. */
  lemma {:induction false} DecimalInvertsDigits(n: nat)
    ensures Decimal(Digits(n)) == if n <= 0xFFFF_FFFF then Some(n) else None
  {
    DigitsParse(n);
    hide DecimalFrom;
  }

  lemma {:induction false} DigitsAreShort(n: nat, k: nat, bound: nat)
    requires n < bound && bound == Power(k) && k > 0
    ensures |Digits(n)| <= k
    decreases k
  {
    if n >= 10 {
      assert k > 1;
      DigitsAreShort(n / 10, k - 1, Power(k - 1));
    }
  }

  function Power(k: nat): nat {
    if k == 0 then 1 else 10 * Power(k - 1)
  }

  lemma {:induction false} DigitsPrint(n: nat)
    ensures forall i :: 0 <= i < |Digits(n)| ==> 48 <= Digits(n)[i] <= 57
  {
    if n >= 10 {
      DigitsPrint(n / 10);
    }
  }

  // ----- Terminal flags -----

  /** A report of the terminal's flags sets them, and with bit 2 UTF-8. */
  lemma {:induction false} FlagsAreLearned(cfg: Config, d: Session, n: nat)
    requires d.nego.options.Valid() && d.nego.options.Enabled(Remote, 24) && n <= 0xFFFF_FFFF
    ensures var r := FinishSub(cfg, d, 24, [0] + Ascii("MTTS ") + Digits(n));
            && r.term.mtts == n && r.term.utf8 == (d.probe.charset.utf8 || n / 4 % 2 == 1)
            && r.violations == d.violations && r.closed == d.closed && r.probe.ttype.last == Ascii("MTTS ") + Digits(n)
  {
    var text := Ascii("MTTS ") + Digits(n);
    var payload := [0] + Ascii("MTTS ") + Digits(n);
    assert payload[1..] == text;
    assert Power(10) == 10_000_000_000 by {
      assert Power(5) == 100_000;
    }
    DigitsAreShort(n, 10, 10_000_000_000);
    DigitsPrint(n);
    DecimalInvertsDigits(n);
    hide Decimal;
    assert text[..5] == Ascii("MTTS ") == MTTS_TAG;
    assert text[5..] == Digits(n);
    assert ReportedMtts(text) == Some(n);
    assert Printable(text);
    hide Printable;
    hide ReportedMtts;
    hide Digits;
    hide RequestTtype;
    hide SameIgnoringCase;
    hide Options.Enabled;
  }

  /** Any other well-formed terminal type leaves the flags alone. */
  lemma {:induction false} NamesChangeNoFlags(cfg: Config, d: Session, name: seq<byte>)
    requires d.nego.options.Valid() && d.nego.options.Enabled(Remote, 24)
    requires 0 < |name| <= 40 && (forall i :: 0 <= i < |name| ==> 32 <= name[i] <= 126)
    requires |name| <= 5 || !SameIgnoringCase(name[..5], Ascii("MTTS "))
    ensures var r := FinishSub(cfg, d, 24, [0] + name);
            r.term == d.term && r.violations == d.violations && r.closed == d.closed && r.probe.ttype.last == name
  {
    assert ([0] + name)[1..] == name;
    assert Ascii("MTTS ") == MTTS_TAG;
    assert ReportedMtts(name) == None;
    hide ReportedMtts;
    hide RequestTtype;
    hide SameIgnoringCase;
    hide Options.Enabled;
  }

  /**
   * After a well-formed terminal type another is asked for, until four were: unless it
   * repeats the one before, or is "ANSI" in answer to the first request.
   */
  lemma {:induction false} TypesAreAskedOn(cfg: Config, d: Session, name: seq<byte>)
    requires d.nego.options.Valid() && d.nego.options.Enabled(Remote, 24) && !d.closed
    requires 0 < |name| <= 40 && (forall i :: 0 <= i < |name| ==> 32 <= name[i] <= 126)
    ensures var t := d.probe.ttype;
            var stop := (t.last != [] && SameIgnoringCase(t.last, name)) || (t.sent == 1 && SameIgnoringCase(name, Ascii("ANSI")));
            var r := FinishSub(cfg, d, 24, [0] + name);
            r.out == if stop || t.sent >= 4 then d.out else d.out + [Report(24, [1])]
  {
    assert ([0] + name)[1..] == name;
    assert Ascii("ANSI") == ANSI_NAME;
    hide Ascii;
    hide ReportedMtts;
    hide SameIgnoringCase;
    hide Options.Valid;
    hide Options.Enabled;
    hide Bit;
  }

  // ----- Character sets -----

  const UTF8 := Ascii("UTF-8")

  /** A list of names with a separator between them. */
  function Joined(words: seq<seq<byte>>, separator: byte): seq<byte>
    requires words != []
  {
    if |words| == 1 then words[0] else words[0] + [separator] + Joined(words[1..], separator)
  }

  predicate Word(w: seq<byte>, separator: byte) {
    forall i :: 0 <= i < |w| ==> 32 <= w[i] <= 126 && w[i] != separator
  }

  predicate Mentions(words: seq<seq<byte>>, name: seq<byte>) {
    exists i :: 0 <= i < |words| && SameIgnoringCase(words[i], name)
  }

  lemma {:induction false} ListsWord(w: seq<byte>, tail: seq<byte>, separator: byte, before: seq<byte>)
    requires Word(w, separator)
    ensures ListsUtf8(w + tail, separator, before) == ListsUtf8(tail, separator, before + w)
    decreases w
  {
    if w == [] {
      assert w + tail == tail && before + w == before;
    } else {
      assert (w + tail)[1..] == w[1..] + tail;
      assert before + [w[0]] + w[1..] == before + w;
      ListsWord(w[1..], tail, separator, before + [w[0]]);
    }
  }

  lemma {:induction false} ListsMention(words: seq<seq<byte>>, separator: byte)
    requires words != [] && forall i :: 0 <= i < |words| ==> Word(words[i], separator)
    ensures ListsUtf8(Joined(words, separator), separator, []) <==> Mentions(words, UTF8)
    decreases words
  {
    assert UTF8 == UTF8_NAME;
    hide SameIgnoringCase;
    assert [] + words[0] == words[0];
    if |words| == 1 {
      ListsWord(words[0], [], separator, []);
      assert words[0] + [] == words[0];
    } else {
      var rest := Joined(words[1..], separator);
      ListsWord(words[0], [separator] + rest, separator, []);
      assert words[0] + ([separator] + rest) == Joined(words, separator);
      assert ([separator] + rest)[1..] == rest;
      ListsMention(words[1..], separator);
      MentionsSplits(words);
    }
  }

  lemma {:induction false} MentionsSplits(words: seq<seq<byte>>)
    requires words != []
    ensures Mentions(words, UTF8) <==> SameIgnoringCase(words[0], UTF8) || Mentions(words[1..], UTF8)
  {
    hide SameIgnoringCase;
    if Mentions(words, UTF8) {
      var i :| 0 <= i < |words| && SameIgnoringCase(words[i], UTF8);
      assert i > 0 ==> words[1..][i - 1] == words[i];
    }
    if Mentions(words[1..], UTF8) {
      var i :| 0 <= i < |words[1..]| && SameIgnoringCase(words[1..][i], UTF8);
      assert words[i + 1] == words[1..][i];
    }
  }

  lemma {:induction false} OffersIffMentioned(words: seq<seq<byte>>, separator: byte)
    requires words != [] && (forall i :: 0 <= i < |words| ==> Word(words[i], separator)) && 32 <= separator != 255
    ensures OffersUtf8([1, separator] + Joined(words, separator)) <==> Mentions(words, UTF8)
  {
    var list := Joined(words, separator);
    assert ([1, separator] + list)[2..] == list;
    ListsMention(words, separator);
    if list == [] {
      assert words == [[]];
      assert !SameIgnoringCase([], UTF8) by {
        assert |LowerAll(UTF8)| == 5;
      }
    }
    hide ListsUtf8;
    hide Joined;
  }

  /**
   * A peer's request is accepted if and only if it lists UTF-8, in any case, and BINARY is on
   * both ways: then UTF-8 is on and the answer names it. Otherwise the answer is a refusal
   * and nothing changes.
   */
  lemma {:induction false} CharsetRequestIsAnswered(cfg: Config, d: Session, words: seq<seq<byte>>, separator: byte)
    requires d.nego.options.Valid() && d.nego.options.Enabled(Remote, 42) && !d.closed
    requires words != [] && (forall i :: 0 <= i < |words| ==> Word(words[i], separator)) && 32 <= separator != 255
    ensures var r := FinishSub(cfg, d, 42, [1, separator] + Joined(words, separator));
            if Mentions(words, UTF8) && d.term.flags.localBinary && d.term.flags.remoteBinary
            then r.out == d.out + [Report(42, [2] + UTF8)] && r.probe.charset.utf8 && r.term.utf8 && r.term.flags == d.term.flags
            else r == d.(out := d.out + [Report(42, [3])])
  {
    OffersIffMentioned(words, separator);
    assert UTF8 == UTF8_NAME;
    hide OffersUtf8;
    hide Joined;
    hide Mentions;
    hide Options.Enabled;
    hide Bit;
  }

  /** The peer's answer to our own request: acceptance by name, in any case, or refusal; anything else is a violation. */
  lemma {:induction false} CharsetAnswerIsHeard(cfg: Config, d: Session, payload: seq<byte>)
    requires d.nego.options.Valid() && d.nego.options.Enabled(Local, 42) && d.probe.charset.sent
    requires payload != [] && payload[0] != 1
    ensures var r := FinishSub(cfg, d, 42, payload);
            if payload[0] == 2 && SameIgnoringCase(payload[1..], UTF8) then r.probe.charset.utf8 && r.term.utf8 && r.out == d.out
            else if payload[0] == 3 then !r.probe.charset.utf8 && r.term.utf8 == (d.term.mtts / 4 % 2 == 1) && r.out == d.out
            else r.violations == d.violations + 1 && r.probe == d.probe && r.term == d.term
  {
    assert UTF8 == UTF8_NAME;
    assert SameIgnoringCase(payload[1..], UTF8) ==> |payload| == 6 by {
      assert |LowerAll(payload[1..])| == |payload| - 1 && |LowerAll(UTF8)| == 5;
    }
    hide SameIgnoringCase;
    hide Options.Enabled;
    hide Close;
  }

  /** The development client looks for the name anywhere in the list. */
  predicate ClientFinds(payload: seq<byte>) {
    |payload| >= 3 && payload[0] == 1 && exists i :: 2 <= i <= |payload| && StandsAt(payload, i)
  }

  predicate StandsAt(payload: seq<byte>, i: nat)
    requires i <= |payload|
  {
    i + 5 <= |payload| && SameIgnoringCase(payload[i..i + 5], UTF8)
  }

  function ClientAnswer(payload: seq<byte>): seq<byte> {
    if ClientFinds(payload) then [2] + UTF8 else [3]
  }

  /** The request that a session sends makes the client accept, and that turns UTF-8 on. */
  lemma {:induction false} CharsetIsAgreed(cfg: Config, d: Session)
    requires d.nego.options.Valid() && d.nego.options.Enabled(Local, 42) && d.probe.charset.sent
    ensures CHARSET_OFFER == [1, 59] + UTF8 && ClientAnswer(CHARSET_OFFER) == [2] + UTF8
    ensures FinishSub(cfg, d, 42, ClientAnswer(CHARSET_OFFER)).term.utf8
  {
    assert CHARSET_OFFER == [1, 59] + UTF8;
    assert CHARSET_OFFER[2..2 + 5] == UTF8;
    assert StandsAt(CHARSET_OFFER, 2);
    assert ([2] + UTF8)[1..] == UTF8;
    assert SameIgnoringCase(UTF8, UTF8);
    CharsetAnswerIsHeard(cfg, d, [2] + UTF8);
    hide FinishSub;
    hide SameIgnoringCase;
  }

  // ----- Environment variables -----

  /** A variable that reports the terminal's flags. */
  predicate IsFlags(v: NewEnviron.Pair) {
    SameIgnoringCase(v.name, Ascii("MTTS")) && Decimal(v.value).Some?
  }

  predicate IsUtf8Charset(v: NewEnviron.Pair) {
    SameIgnoringCase(v.name, Ascii("CHARSET")) && SameIgnoringCase(v.value, UTF8)
  }

  /** The latest report of the flags counts. */
  function LatestFlags(vs: seq<NewEnviron.Pair>, before: nat): nat {
    if vs == [] then before
    else if IsFlags(vs[|vs| - 1]) then Decimal(vs[|vs| - 1].value).value
    else LatestFlags(vs[..|vs| - 1], before)
  }

  lemma {:induction false} NamesDiffer(name: seq<byte>)
    ensures SameIgnoringCase(name, MTTS_NAME) ==> !IsPlainName(name) && !SameIgnoringCase(name, CHARSET_NAME)
    ensures SameIgnoringCase(name, CHARSET_NAME) ==> !IsPlainName(name)
  {
    LengthsDiffer(name, MTTS_NAME);
    LengthsDiffer(name, CHARSET_NAME);
    forall i | 0 <= i < |PLAIN_NAMES| ensures |LowerAll(PLAIN_NAMES[i])| >= 11 {
    }
    hide LowerAll;
  }

  lemma {:induction false} LengthsDiffer(a: seq<byte>, b: seq<byte>)
    ensures SameIgnoringCase(a, b) ==> |a| == |b|
    ensures |LowerAll(a)| == |a| && |LowerAll(b)| == |b|
  {
  }

  /** One variable, whatever its name. */
  lemma {:induction false} VariableIsLearned(d: Session, v: NewEnviron.Pair)
    requires d.term.utf8 == Utf8(d.probe.charset, d.term.mtts)
    ensures var r := ApplyVariable(d, v);
            && r.term.mtts == (if IsFlags(v) then Decimal(v.value).value else d.term.mtts)
            && r.probe.charset.utf8 == (d.probe.charset.utf8 || IsUtf8Charset(v))
            && r.term.utf8 == Utf8(r.probe.charset, r.term.mtts)
  {
    assert Ascii("MTTS") == MTTS_NAME && Ascii("CHARSET") == CHARSET_NAME && UTF8 == UTF8_NAME;
    NamesDiffer(v.name);
    hide SameIgnoringCase;
    hide IsPlainName;
    hide Decimal;
    hide Bit;
  }

  lemma {:induction false} VariablesSnoc(d: Session, vs: seq<NewEnviron.Pair>, v: NewEnviron.Pair)
    ensures ApplyVariables(d, vs + [v]) == ApplyVariable(ApplyVariables(d, vs), v)
    decreases vs
  {
    hide ApplyVariable;
    if vs == [] {
      assert vs + [v] == [v];
      assert [v][1..] == [];
      assert ApplyVariables(ApplyVariable(d, v), []) == ApplyVariable(d, v);
    } else {
      assert (vs + [v])[1..] == vs[1..] + [v];
      VariablesSnoc(ApplyVariable(d, vs[0]), vs[1..], v);
    }
  }

  predicate AnyUtf8(vs: seq<NewEnviron.Pair>) {
    exists i :: 0 <= i < |vs| && IsUtf8Charset(vs[i])
  }

  /** All variables of a report: the latest flags, and UTF-8 if any of them names it. */
  lemma {:induction false} VariablesAreLearned(d: Session, vs: seq<NewEnviron.Pair>)
    requires d.term.utf8 == Utf8(d.probe.charset, d.term.mtts)
    ensures var r := ApplyVariables(d, vs);
            && r.term.mtts == LatestFlags(vs, d.term.mtts)
            && r.probe.charset.utf8 == (d.probe.charset.utf8 || AnyUtf8(vs))
            && r.term.utf8 == Utf8(r.probe.charset, r.term.mtts)
  {
    if vs != [] {
      var front, v := vs[..|vs| - 1], vs[|vs| - 1];
      assert vs == front + [v];
      VariablesAreLearned(d, front);
      VariablesSnoc(d, front, v);
      VariableIsLearned(ApplyVariables(d, front), v);
      AnySplits(front, v);
      hide ApplyVariables;
      hide ApplyVariable;
      hide IsFlags;
      hide AnyUtf8;
      hide Utf8;
      hide Decimal;
    }
  }

  lemma {:induction false} AnySplits(vs: seq<NewEnviron.Pair>, v: NewEnviron.Pair)
    ensures AnyUtf8(vs + [v]) <==> AnyUtf8(vs) || IsUtf8Charset(v)
  {
    hide IsUtf8Charset;
    var all := vs + [v];
    assert all[|vs|] == v;
    if AnyUtf8(vs) {
      var i :| 0 <= i < |vs| && IsUtf8Charset(vs[i]);
      assert all[i] == vs[i];
    }
    if AnyUtf8(all) {
      var i :| 0 <= i < |all| && IsUtf8Charset(all[i]);
      assert i < |vs| ==> vs[i] == all[i];
    }
  }

  /**
   * A report of any variables within the limits, quoted as RFC 1572 asks: the session learns
   * the latest flags among its named variables, and UTF-8 if one of them says so.
   */
  lemma {:induction false} EnvironIsLearned(cfg: Config, d: Session, vs: seq<NewEnviron.Pair>)
    requires Safe(d) && d.nego.options.Enabled(Remote, 39)
    requires forall i :: 0 <= i < |vs| ==> NewEnviron.WellFormed(vs[i])
    ensures var r := FinishSub(cfg, d, 39, [0] + NewEnviron.EncodeAll(vs));
            var named := NewEnviron.Applied(vs);
            && r.term.mtts == LatestFlags(named, d.term.mtts)
            && r.probe.charset.utf8 == (d.probe.charset.utf8 || AnyUtf8(named))
            && r.term.utf8 == (r.probe.charset.utf8 || r.term.mtts / 4 % 2 == 1)
  {
    hide FinishSub;
    hide UpdateMetadata;
    hide NewEnviron.EncodeAll;
    hide NewEnviron.Applied;
    hide ApplyVariables;
    hide AnyUtf8;
    hide LatestFlags;
    ReportIsApplied(cfg, d, vs);
    var named := NewEnviron.Applied(vs);
    VariablesAreLearned(d, named);
    MetadataKeepsLearning(cfg, ApplyVariables(d, named));
  }

  lemma {:induction false} ReportIsApplied(cfg: Config, d: Session, vs: seq<NewEnviron.Pair>)
    requires d.nego.options.Valid() && d.nego.options.Enabled(Remote, 39)
    requires forall i :: 0 <= i < |vs| ==> NewEnviron.WellFormed(vs[i])
    ensures FinishSub(cfg, d, 39, [0] + NewEnviron.EncodeAll(vs)) == UpdateMetadata(cfg, ApplyVariables(d, NewEnviron.Applied(vs)))
  {
    NewEnviron.WholeReportRoundTrip(vs);
    hide NewEnviron.Decode;
    hide NewEnviron.EncodeAll;
    hide NewEnviron.Applied;
    hide ApplyVariables;
    hide UpdateMetadata;
    hide Options.Valid;
    hide Options.Enabled;
    var payload := [0] + NewEnviron.EncodeAll(vs);
    assert payload[1..] == NewEnviron.EncodeAll(vs);
  }

  lemma {:induction false} MetadataKeepsLearning(cfg: Config, d: Session)
    requires d.nego.options.Valid()
    ensures var r := UpdateMetadata(cfg, d);
            && r.term.mtts == d.term.mtts && r.probe.charset.utf8 == d.probe.charset.utf8
            && r.term.utf8 == Utf8(d.probe.charset, d.term.mtts) && r.term.flags == ReadFlags(d.nego.options)
  {
    hide ReadFlags;
    hide Bit;
    hide NotifyCaps;
    hide RequestTtype;
    hide RequestCharset;
    hide RequestEnviron;
    hide Options.Valid;
  }

  // ----- GMCP messages -----

  predicate PackageName(name: seq<byte>) {
    && 1 <= |name| <= 96
    && forall i :: 0 <= i < |name| ==>
         65 <= name[i] <= 90 || 97 <= name[i] <= 122 || 48 <= name[i] <= 57 || name[i] == 46 || name[i] == 95 || name[i] == 45
  }

  lemma {:induction false} WordBeforeSpace(name: seq<byte>, tail: seq<byte>)
    requires forall i :: 0 <= i < |name| ==> name[i] != 32 && name[i] != 0
    requires tail == [] || tail[0] == 32
    ensures WordLength(name + tail) == |name| && CString(name) == name
  {
    if name == [] {
      assert name + tail == tail;
    } else {
      assert (name + tail)[1..] == name[1..] + tail;
      WordBeforeSpace(name[1..], tail);
    }
  }

  /** A message written as package, space and body is read back, and so is a package alone. */
  lemma {:induction false} MessageRoundTrip(m: Message)
    requires PackageName(m.package) && |m.json| <= 3968 && TerminalText.IsUtf8(m.json)
    ensures ParseMessage(m.package + [32] + m.json) == Some(m)
    ensures ParseMessage(m.package) == Some(Message(m.package, []))
  {
    var whole := m.package + [32] + m.json;
    assert whole == m.package + ([32] + m.json);
    WordBeforeSpace(m.package, [32] + m.json);
    WordBeforeSpace(m.package, []);
    assert m.package + [] == m.package;
    assert whole[..|m.package|] == m.package && whole[|m.package| + 1..] == m.json;
    assert m.package[..|m.package|] == m.package;
    TerminalText.ValidIsUtf8(m.json);
    TerminalText.Utf8Step([]);
    TerminalText.ValidIsUtf8([]);
    assert PackageValid(m.package);
    hide WordLength;
    hide CString;
    hide TerminalText.ValidUtf8;
    hide TerminalText.IsUtf8;
    hide PackageValid;
  }

  /** Whatever is read has a proper package name and a bounded UTF-8 body. */
  lemma {:induction false} MessagesAreProper(payload: seq<byte>)
    ensures var m := ParseMessage(payload);
            m.Some? ==> PackageName(m.value.package) && |m.value.json| <= 3968 && TerminalText.IsUtf8(m.value.json)
  {
    var m := ParseMessage(payload);
    if m.Some? {
      TerminalText.ValidIsUtf8(m.value.json);
    }
    hide WordLength;
    hide CString;
    hide TerminalText.ValidUtf8;
    hide TerminalText.IsUtf8;
  }

  /** The handshake packages, whatever their case. */
  lemma {:induction false} HandshakesAre(package: seq<byte>)
    ensures IsHandshake(package) <==>
              || SameIgnoringCase(package, Ascii("Core.Hello")) || SameIgnoringCase(package, Ascii("Core.Supports.Set"))
              || SameIgnoringCase(package, Ascii("Core.Supports.Add")) || SameIgnoringCase(package, Ascii("Core.Supports.Remove"))
  {
    assert Ascii("Core.Hello") == CORE_HELLO;
    assert Ascii("Core.Supports.Set") == CORE_SUPPORTS + [83, 101, 116];
    assert Ascii("Core.Supports.Add") == CORE_SUPPORTS + [65, 100, 100];
    assert Ascii("Core.Supports.Remove") == CORE_SUPPORTS + [82, 101, 109, 111, 118, 101];
    hide SameIgnoringCase;
  }

  /** A ping is answered by a ping, and no other message is. */
  lemma {:induction false} PingIsAnswered(cfg: Config, d: Session, m: Message)
    requires d.nego.options.Valid() && d.nego.options.Enabled(Local, 201) && d.term.flags.gmcp && !d.closed && !d.mail.attached
    requires PackageName(m.package) && |m.json| <= 3968 && TerminalText.IsUtf8(m.json)
    ensures FinishSub(cfg, d, 201, m.package + [32] + m.json).out
         == if SameIgnoringCase(m.package, Ascii("Core.Ping")) then d.out + [Report(201, Ascii("Core.Ping"))] else d.out
  {
    assert Ascii("Core.Ping") == CORE_PING;
    hide Ascii;
    hide ParseMessage;
    hide SameIgnoringCase;
    hide PackageName;
    hide Options.Valid;
    hide Options.Enabled;
    hide TerminalText.IsUtf8;
    hide Enqueue;
    hide React;
    MessageRoundTrip(m);
    assert m.package + [32] + m.json != [];
  }

  /** With CHARSET off both ways after a command, only the terminal's flags can make it a UTF-8 terminal. */
  lemma {:induction false} CharsetIsForgotten(cfg: Config, d: Session, command: byte, option: byte)
    requires d.nego.options.Valid()
    ensures var r := ReceiveNegotiation(cfg, d, command, option);
            !r.nego.options.Enabled(Local, 42) && !r.nego.options.Enabled(Remote, 42) ==>
              !r.probe.charset.utf8 && (r.term.utf8 <==> d.term.mtts / 4 % 2 == 1)
  {
    hide QMethod.ReceiveOption;
    hide Accepts;
    hide UpdateMetadata;
    hide WriteCommands;
    hide SendMssp;
    hide Options.Valid;
    var before := d.nego.options;
    var step := QMethod.ReceiveOption(before, command, option, Accepts(cfg, d.nego.echo, Concerns(command), option));
    var d1 := WriteCommands(d.(nego := d.nego.(options := step.options)), step.sent);
    var p := Forget(d1.probe, before, step.options);
    assert !step.options.Enabled(Local, 42) && !step.options.Enabled(Remote, 42) ==> !p.charset.utf8;
    hide Forget;
    hide Options.Enabled;
    MetadataKeepsLearning(cfg, d1.(probe := p));
  }
}
