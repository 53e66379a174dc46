/**
 * The rotating audit log. File 0 is the active file, files 1 to 4 its archives; `None` is a
 * file that does not exist. System calls are taken to succeed.
 */
module AuditLog {
  import opened Bytes

  const MAX_BYTES := 5 * 1024 * 1024
  const ARCHIVES := 4
  const FILES := 5

  type File = Option<seq<byte>>

  // ----- Records -----

  const UNDERSCORE: byte := 95
  const BAR: byte := 124

  function Scrub(b: byte): byte {
    if 32 <= b <= 126 && b != BAR then b else UNDERSCORE
  }

  /** A missing field is "-"; a long one is cut to the buffer, less its terminator. */
  function Scrubbed(field: Option<seq<byte>>, size: nat): (r: seq<byte>)
    requires size > 0
    ensures |r| < size
    ensures forall i :: 0 <= i < |r| ==> 32 <= r[i] <= 126 && r[i] != BAR
  {
    var given := if field.None? then [45] else field.value;
    var kept := if |given| < size then given else given[..size - 1];
    seq(|kept|, i requires 0 <= i < |kept| => Scrub(kept[i]))
  }

  /** The loop of sanitize_field; the buffer holds the field and a terminating NUL. */
  method Sanitize(field: Option<seq<byte>>, output: array<byte>) returns (used: nat)
    requires output.Length > 0
    modifies output
    ensures used < output.Length && output[used] == NUL
    ensures output[..used] == Scrubbed(field, output.Length)
  {
    var given := if field.None? then [45] else field.value;
    used := 0;
    while used < |given| && used + 1 < output.Length
      invariant 0 <= used <= |given| && used < output.Length
      invariant forall i :: 0 <= i < used ==> output[i] == Scrub(given[i])
    {
      output[used] := if 32 <= given[used] <= 126 && given[used] != BAR then given[used] else UNDERSCORE;
      used := used + 1;
    }
    output[used] := NUL;
  }

  /** A plain field that fits is logged as it is, a longer one is cut, and a missing one is a dash. */
  lemma {:induction false} PlainFieldIsKept(field: seq<byte>, size: nat)
    requires size > 0 && Plain(field)
    ensures Scrubbed(Some(field), size) == if |field| < size then field else field[..size - 1]
    ensures size > 1 ==> Scrubbed(None, size) == [45]
  {
    var kept := if |field| < size then field else field[..size - 1];
    assert |Scrubbed(Some(field), size)| == |kept|;
    forall i | 0 <= i < |kept| ensures Scrubbed(Some(field), size)[i] == kept[i] {
      assert kept[i] == field[i] && Scrub(field[i]) == field[i];
    }
    if size > 1 {
      assert Scrubbed(None, size)[0] == Scrub(45) == 45;
    }
  }

  /** Every byte that is not printable, or is a bar, becomes an underscore in its place. */
  lemma {:induction false} OtherBytesAreMarked(field: seq<byte>, size: nat, i: nat)
    requires size > 0 && i < |field| && i < size - 1
    ensures i < |Scrubbed(Some(field), size)|
    ensures Scrubbed(Some(field), size)[i] == if field[i] < 32 || field[i] > 126 || field[i] == 124 then 95 else field[i]
  {
    var kept := if |field| < size then field else field[..size - 1];
    assert Scrubbed(Some(field), size)[i] == Scrub(kept[i]);
  }

  const EVENT_LABEL: seq<byte> := [32, 101, 118, 101, 110, 116, 61]                  // " event="
  const PEER_LABEL: seq<byte> := [32, 112, 101, 101, 114, 61]                        // " peer="
  const DETAIL_LABEL: seq<byte> := [32, 100, 101, 116, 97, 105, 108, 61]             // " detail="

  predicate OneLine(s: seq<byte>) {
    forall i :: 0 <= i < |s| ==> s[i] != LF
  }

  function Text(timestamp: seq<byte>, event: seq<byte>, peer: Option<seq<byte>>, detail: Option<seq<byte>>): seq<byte> {
    timestamp + EVENT_LABEL + Scrubbed(Some(event), 64) + PEER_LABEL + Scrubbed(peer, 96) + DETAIL_LABEL + Scrubbed(detail, 256)
  }

  function Record(timestamp: seq<byte>, event: seq<byte>, peer: Option<seq<byte>>, detail: Option<seq<byte>>): seq<byte> {
    Text(timestamp, event, peer, detail) + [LF]
  }

  /**
   * Whatever the fields contain, the record is exactly one line and is never dropped for
   * length: the 512-byte buffer always suffices (the timestamp buffer holds 32).
   */
  lemma {:induction false} RecordIsOneLine(timestamp: seq<byte>, event: seq<byte>, peer: Option<seq<byte>>, detail: Option<seq<byte>>)
    requires |timestamp| < 32 && OneLine(timestamp)
    ensures var r := Record(timestamp, event, peer, detail);
            0 < |r| < 512 && r[|r| - 1] == LF && OneLine(r[..|r| - 1])
  {
    OneLineConcat(timestamp, EVENT_LABEL);
    OneLineConcat(timestamp + EVENT_LABEL, Scrubbed(Some(event), 64));
    OneLineConcat(timestamp + EVENT_LABEL + Scrubbed(Some(event), 64), PEER_LABEL);
    OneLineConcat(timestamp + EVENT_LABEL + Scrubbed(Some(event), 64) + PEER_LABEL, Scrubbed(peer, 96));
    OneLineConcat(timestamp + EVENT_LABEL + Scrubbed(Some(event), 64) + PEER_LABEL + Scrubbed(peer, 96), DETAIL_LABEL);
    OneLineConcat(timestamp + EVENT_LABEL + Scrubbed(Some(event), 64) + PEER_LABEL + Scrubbed(peer, 96) + DETAIL_LABEL, Scrubbed(detail, 256));
    var t := Text(timestamp, event, peer, detail);
    assert (t + [LF])[..|t|] == t;
  }

  predicate Plain(field: seq<byte>) {
    forall i :: 0 <= i < |field| ==> 32 <= field[i] <= 126 && field[i] != 124
  }

  /** Plain fields that fit are logged as they are, each under its own label. */
  lemma {:induction false} RecordTellsFields(timestamp: seq<byte>, event: seq<byte>, peer: seq<byte>, detail: seq<byte>)
    requires Plain(event) && |event| < 64 && Plain(peer) && |peer| < 96 && Plain(detail) && |detail| < 256
    ensures Record(timestamp, event, Some(peer), Some(detail)) ==
            timestamp + EVENT_LABEL + event + PEER_LABEL + peer + DETAIL_LABEL + detail + [10]
  {
    PlainFieldIsKept(event, 64);
    PlainFieldIsKept(peer, 96);
    PlainFieldIsKept(detail, 256);
    hide Scrubbed;
  }

  lemma {:induction false} OneLineConcat(a: seq<byte>, b: seq<byte>)
    requires OneLine(a) && OneLine(b)
    ensures OneLine(a + b)
  {
  }

  // ----- Rotation -----

  function Content(f: File): seq<byte> {
    if f.None? then [] else f.value
  }

  /** Archives .4, .3, .2 and .1, then the active file: what is on disk, oldest first. */
  function OnDisk(files: seq<File>): seq<byte>
    requires |files| == FILES
  {
    Content(files[4]) + Content(files[3]) + Content(files[2]) + Content(files[1]) + Content(files[0])
  }

  function Rotated(files: seq<File>): (r: seq<File>)
    requires |files| == FILES
    ensures |r| == FILES
  {
    if |Content(files[0])| < MAX_BYTES then files else [Some([])] + files[..4]
  }

  /** The file after one more record. */
  function Logged(files: seq<File>, record: seq<byte>): (r: seq<File>)
    requires |files| == FILES
    ensures |r| == FILES
  {
    var f := Rotated(files);
    f[0 := Some(Content(f[0]) + record)]
  }

  class Log {
    const files: array<File>

    ghost predicate Valid()
      reads files
    {
      files.Length == FILES && files[0].Some?
    }

    /** Opening creates the active file when there is none and keeps what is there. */
    constructor (found: seq<File>)
      requires |found| == FILES
      ensures Valid() && fresh(files)
      ensures files[..] == found[0 := Some(Content(found[0]))]
    {
      files := new File[FILES](i requires 0 <= i < FILES => if i == 0 then Some(Content(found[0])) else found[i]);
    }

    /** rename(): the target is replaced; a missing source is tolerated. */
    method Rename(source: nat, target: nat)
      requires files.Length == FILES && source < FILES && target < FILES && source != target
      modifies files
      ensures files[..] == if old(files[source]).Some? then old(files[..])[target := old(files[source])][source := None]
                           else old(files[..])
    {
      if files[source].Some? {
        files[target] := files[source];
        files[source] := None;
      }
    }

    /** Shifts every archive up by one, the oldest first, and starts a new active file. */
    method RotateIfNeeded()
      requires Valid()
      modifies files
      ensures Valid() && files[..] == Rotated(old(files[..]))
    {
      if |files[0].value| < MAX_BYTES {
        return;
      }
      var index := ARCHIVES;
      ghost var was := files[..];
      while index >= 1
        invariant files.Length == FILES && 0 <= index <= ARCHIVES
        invariant forall i :: index < i <= ARCHIVES ==> files[i] == was[i - 1]
        invariant index < ARCHIVES ==> files[index].None?
        invariant forall i :: 0 <= i < index ==> files[i] == was[i]
        invariant index == ARCHIVES ==> files[index] == was[index]
      {
        if index == ARCHIVES {
          files[index] := None;
        }
        Rename(index - 1, index);
        index := index - 1;
      }
      files[0] := Some([]);
      assert files[..] == [Some([])] + was[..4];
    }

    /** Writes may be short; the loop goes on until the record is complete. */
    method Write(record: seq<byte>)
      requires Valid()
      modifies files
      ensures Valid() && files[..] == old(files[..])[0 := Some(old(files[0]).value + record)]
    {
      var offset := 0;
      ghost var was := files[0].value;
      assert was + record[..0] == was;
      while offset < |record|
        invariant 0 <= offset <= |record| && Valid()
        invariant files[0] == Some(old(files[0]).value + record[..offset])
        invariant forall i :: 1 <= i < FILES ==> files[i] == old(files[i])
      {
        var written :| 0 < written <= |record| - offset;
        assert record[..offset + written] == record[..offset] + record[offset..offset + written];
        files[0] := Some(files[0].value + record[offset..offset + written]);
        assert was + record[..offset + written] == was + record[..offset] + record[offset..offset + written];
        offset := offset + written;
      }
      assert record[..offset] == record;
    }

    method Append(timestamp: seq<byte>, event: seq<byte>, peer: Option<seq<byte>>, detail: Option<seq<byte>>)
      requires Valid()
      modifies files
      ensures Valid() && files[..] == Logged(old(files[..]), Record(timestamp, event, peer, detail))
    {
      RotateIfNeeded();
      Write(Record(timestamp, event, peer, detail));
    }
  }

  // ----- Every sequence of events -----

  function Concat(records: seq<seq<byte>>): seq<byte> {
    if records == [] then [] else Concat(records[..|records| - 1]) + records[|records| - 1]
  }

  function AfterEvents(files: seq<File>, records: seq<seq<byte>>): (r: seq<File>)
    requires |files| == FILES
    ensures |r| == FILES
  {
    if records == [] then files else Logged(AfterEvents(files, records[..|records| - 1]), records[|records| - 1])
  }

  predicate IsSuffix(part: seq<byte>, whole: seq<byte>) {
    |part| <= |whole| && whole[|whole| - |part|..] == part
  }

  lemma {:induction false} SuffixSteps(part: seq<byte>, middle: seq<byte>, whole: seq<byte>, more: seq<byte>)
    requires IsSuffix(part, middle) && IsSuffix(middle, whole)
    ensures IsSuffix(part + more, whole + more) && IsSuffix(more, part + more)
  {
    assert whole[|whole| - |part|..] == middle[|middle| - |part|..];
  }

  /** Rotation loses only the oldest archive. */
  lemma {:induction false} RotationKeepsSuffix(files: seq<File>)
    requires |files| == FILES
    ensures OnDisk(files) == (if |Content(files[0])| < MAX_BYTES then [] else Content(files[4])) + OnDisk(Rotated(files))
    ensures IsSuffix(OnDisk(Rotated(files)), OnDisk(files))
  {
    var f, r := files, Rotated(files);
    if |Content(f[0])| >= MAX_BYTES {
      assert OnDisk(r) == Content(f[3]) + Content(f[2]) + Content(f[1]) + Content(f[0]) + [];
      assert OnDisk(f) == Content(f[4]) + OnDisk(r);
    } else {
      assert OnDisk(f) == [] + OnDisk(f);
    }
  }

  lemma {:induction false} LoggingAppends(files: seq<File>, record: seq<byte>)
    requires |files| == FILES
    ensures OnDisk(Logged(files, record)) == OnDisk(Rotated(files)) + record
    ensures Content(Logged(files, record)[0]) == Content(Rotated(files)[0]) + record
  {
  }

  /**
   * After any sequence of events the archives .4 to .1 followed by the active file are a
   * suffix of everything ever logged, and end with the latest record in full.
   */
  lemma {:induction false} DiskIsSuffixOfHistory(files: seq<File>, records: seq<seq<byte>>)
    requires |files| == FILES
    ensures IsSuffix(OnDisk(AfterEvents(files, records)), OnDisk(files) + Concat(records))
    ensures records != [] ==> IsSuffix(records[|records| - 1], Content(AfterEvents(files, records)[0]))
  {
    hide Logged;
    hide Content;
    hide OnDisk;
    hide Rotated;
    hide IsSuffix;
    if records == [] {
      SelfSuffix(OnDisk(files));
    } else {
      var front := records[..|records| - 1];
      var last := records[|records| - 1];
      DiskIsSuffixOfHistory(files, front);
      var f := AfterEvents(files, front);
      RotationKeepsSuffix(f);
      LoggingAppends(f, last);
      var history := OnDisk(files) + Concat(front);
      SuffixSteps(OnDisk(Rotated(f)), OnDisk(f), history, last);
      Assoc(OnDisk(files), Concat(front), last);
      var active := Content(Rotated(f)[0]);
      SelfSuffix(active);
      SuffixSteps(active, active, active, last);
    }
  }

  lemma {:induction false} SelfSuffix(s: seq<byte>)
    ensures IsSuffix(s, s) && IsSuffix(s, s + [])
  {
    assert s + [] == s;
  }

  lemma {:induction false} Assoc(a: seq<byte>, b: seq<byte>, c: seq<byte>)
    ensures a + (b + c) == a + b + c
  {
  }

  // ----- How much is kept -----

  const NO_FILES: seq<File> := [None, None, None, None, None]

  /** Archives were full when they were set aside, and there is none behind a gap. */
  predicate Packed(files: seq<File>) {
    && |files| == FILES
    && (forall i :: 0 <= i < FILES ==> |Content(files[i])| < 5_242_880 + 512)
    && (forall i :: 1 <= i < FILES && files[i].Some? ==> |files[i].value| >= 5_242_880)
    && (forall i :: 2 <= i < FILES && files[i].Some? ==> files[i - 1].Some?)
  }

  lemma {:induction false} RotationPacks(files: seq<File>)
    requires Packed(files)
    ensures Packed(Rotated(files)) && |Content(Rotated(files)[0])| < 5_242_880
    ensures OnDisk(Rotated(files)) == OnDisk(files) || |OnDisk(Rotated(files))| >= 20_971_520
  {
    var f, r := files, Rotated(files);
    RotationKeepsSuffix(files);
    if |Content(f[0])| >= MAX_BYTES {
      assert r == [Some([]), f[0], f[1], f[2], f[3]];
      if f[4].Some? {
        assert f[3].Some? && f[2].Some? && f[1].Some?;
        assert OnDisk(r) == Content(f[3]) + Content(f[2]) + Content(f[1]) + Content(f[0]) + [];
      } else {
        assert OnDisk(f) == [] + OnDisk(r);
      }
    }
  }

  lemma {:induction false} LoggingPacks(files: seq<File>, record: seq<byte>)
    requires Packed(files) && |record| < 512
    ensures Packed(Logged(files, record))
  {
    RotationPacks(files);
    hide OnDisk;
    hide Rotated;
  }

  /**
   * A new log never has a file of more than 5 MiB and one record, and it forgets nothing
   * before it holds at least the latest 20 MiB.
   */
  lemma {:induction false} TwentyMegabytesAreKept(records: seq<seq<byte>>)
    requires forall i :: 0 <= i < |records| ==> |records[i]| < 512
    ensures var files := AfterEvents(NO_FILES, records);
            && Packed(files)
            && (OnDisk(files) == Concat(records) || |OnDisk(files)| >= 20_971_520)
  {
    hide Logged;
    hide Rotated;
    hide OnDisk;
    if records == [] {
      EmptyIsPacked();
    } else {
      hide Packed;
      var front, last := records[..|records| - 1], records[|records| - 1];
      TwentyMegabytesAreKept(front);
      var f := AfterEvents(NO_FILES, front);
      RotationPacks(f);
      LoggingPacks(f, last);
      LoggingAppends(f, last);
    }
  }

  lemma {:induction false} EmptyIsPacked()
    ensures Packed(NO_FILES) && OnDisk(NO_FILES) == []
  {
  }
}
