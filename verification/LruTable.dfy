/**
 * The fixed-size record tables of the abuse policy: a linear scan finds the key, else
 * the first empty slot, else the first of the least recently seen slots is reused.
 */
module LruTable {
  import opened Bytes

  type Key = seq<byte>

  /** The source marks an empty slot by an empty key. */
  datatype Slot<R> = Empty | Used(key: Key, lastSeen: nat, record: R)

  const TIME_MAX: nat := 0xFFFF_FFFF_FFFF_FFFF

  const UNKNOWN: Key := [117, 110, 107, 110, 111, 119, 110]

  /** copy_key: an empty key is stored as "unknown". */
  function Stored(probe: Key): Key {
    if probe == [] then UNKNOWN else probe
  }

  predicate Holds<R>(slot: Slot<R>, probe: Key) {
    slot.Used? && slot.key == probe
  }

  /** The first slot holding `probe`, or the table size. */
  function FirstHolding<R>(t: seq<Slot<R>>, probe: Key): (i: nat)
    ensures i <= |t| && (i < |t| ==> Holds(t[i], probe))
    ensures forall j :: 0 <= j < i ==> !Holds(t[j], probe)
  {
    if t == [] || Holds(t[0], probe) then 0
    else
      var i := 1 + FirstHolding(t[1..], probe);
      assert forall j :: 1 <= j < i ==> t[j] == t[1..][j - 1];
      i
  }

  function FirstEmpty<R>(t: seq<Slot<R>>): (i: nat)
    ensures i <= |t| && (i < |t| ==> t[i].Empty?)
    ensures forall j :: 0 <= j < i ==> t[j].Used?
  {
    if t == [] || t[0].Empty? then 0
    else
      var i := 1 + FirstEmpty(t[1..]);
      assert forall j :: 1 <= j < i ==> t[j] == t[1..][j - 1];
      i
  }

  predicate Full<R>(t: seq<Slot<R>>) {
    forall i :: 0 <= i < |t| ==> t[i].Used?
  }

  /** The first of the least recently seen slots of a full table. */
  function Oldest<R>(t: seq<Slot<R>>): (i: nat)
    requires t != [] && Full(t)
    ensures i < |t|
    ensures forall j :: 0 <= j < |t| ==> t[i].lastSeen <= t[j].lastSeen
    ensures forall j :: 0 <= j < i ==> t[i].lastSeen < t[j].lastSeen
  {
    if |t| == 1 then 0
    else
      var i := Oldest(t[..|t| - 1]);
      if t[|t| - 1].lastSeen < t[i].lastSeen then |t| - 1 else i
  }

  function Choose<R>(t: seq<Slot<R>>, probe: Key): (i: nat)
    requires t != []
    ensures i < |t|
  {
    if FirstHolding(t, probe) < |t| then FirstHolding(t, probe)
    else if FirstEmpty(t) < |t| then FirstEmpty(t)
    else Oldest(t)
  }

  /** What the caller finds: the record of the key, or a blank one. */
  function RecordFor<R>(t: seq<Slot<R>>, probe: Key, blank: R): R {
    if FirstHolding(t, probe) < |t| then t[FirstHolding(t, probe)].record else blank
  }

  /** A lookup at `now` after which the caller leaves `record` in the slot. */
  function Visit<R>(t: seq<Slot<R>>, probe: Key, now: nat, record: R): (r: seq<Slot<R>>)
    requires t != []
    ensures |r| == |t|
  {
    t[Choose(t, probe) := Used(Stored(probe), now, record)]
  }

  /** The scan of peer_record_for and account_record_for. */
  method Locate<R>(slots: array<Slot<R>>, probe: Key) returns (index: nat, found: bool)
    requires slots.Length > 0
    requires forall i :: 0 <= i < slots.Length && slots[i].Used? ==> slots[i].lastSeen <= TIME_MAX
    ensures index == Choose(slots[..], probe)
    ensures found <==> FirstHolding(slots[..], probe) < slots.Length
  {
    var empty := slots.Length;
    var oldest := 0;
    var oldestSeen := TIME_MAX;
    for i := 0 to slots.Length
      invariant forall j :: 0 <= j < i ==> !Holds(slots[j], probe)
      invariant 0 <= empty <= slots.Length && (empty < slots.Length ==> empty < i && slots[empty].Empty?)
      invariant forall j :: 0 <= j < i && j < empty ==> slots[j].Used?
      invariant 0 <= oldest < slots.Length && oldestSeen <= TIME_MAX
      invariant oldestSeen == TIME_MAX ==> oldest == 0
      invariant oldestSeen < TIME_MAX ==> oldest < i && slots[oldest].Used? && slots[oldest].lastSeen == oldestSeen
      invariant forall j :: 0 <= j < i && slots[j].Used? ==> oldestSeen <= slots[j].lastSeen
      invariant forall j :: 0 <= j < i && j < oldest && slots[j].Used? ==> oldestSeen < slots[j].lastSeen
    {
      var slot := slots[i];
      if slot.Empty? {
        if empty == slots.Length {
          empty := i;
        }
        continue;
      }
      if slot.key == probe {
        assert FirstHolding(slots[..], probe) == i;
        return i, true;
      }
      if slot.lastSeen < oldestSeen {
        oldestSeen, oldest := slot.lastSeen, i;
      }
    }
    assert FirstHolding(slots[..], probe) == slots.Length;
    assert FirstEmpty(slots[..]) == empty;
    index, found := if empty != slots.Length then empty else oldest, false;
    if empty == slots.Length {
      ghost var o := Oldest(slots[..]);
      assert o == oldest;
    }
  }

  /** The next lookup of the same key finds what this one left; other keys' records are untouched. */
  lemma {:induction false} VisitThenFind<R>(t: seq<Slot<R>>, probe: Key, now: nat, record: R, blank: R)
    requires t != [] && probe != []
    ensures RecordFor(Visit(t, probe, now, record), probe, blank) == record
  {
    var t' := Visit(t, probe, now, record);
    var c := Choose(t, probe);
    assert Holds(t'[c], probe);
    assert forall j :: 0 <= j < c ==> t'[j] == t[j];
    assert FirstHolding(t', probe) == c;
  }

  // ----- Uniqueness -----

  predicate Unique<R>(t: seq<Slot<R>>) {
    forall i, j :: 0 <= i < j < |t| && t[i].Used? && t[j].Used? ==> t[i].key != t[j].key
  }

  predicate Resident<R>(t: seq<Slot<R>>, key: Key) {
    exists i :: 0 <= i < |t| && Holds(t[i], key)
  }

  lemma {:induction false} OnlyChosenHolds<R>(t: seq<Slot<R>>, probe: Key)
    requires t != [] && Unique(t)
    ensures forall i :: 0 <= i < |t| && i != Choose(t, probe) ==> !Holds(t[i], probe)
  {
  }

  /**
   * Keys stay unique exactly when the probe is non-empty or no other slot holds
   * "unknown": an empty probe matches nothing, yet is stored under that name.
   */
  lemma {:induction false} VisitKeepsUnique<R>(t: seq<Slot<R>>, probe: Key, now: nat, record: R)
    requires t != [] && Unique(t) && !Resident(t, [])
    ensures Unique(Visit(t, probe, now, record)) <==>
              probe != [] || forall i :: 0 <= i < |t| && i != Choose(t, probe) ==> !Holds(t[i], UNKNOWN)
  {
    var c := Choose(t, probe);
    var t' := Visit(t, probe, now, record);
    assert forall i :: 0 <= i < |t| && i != c ==> t'[i] == t[i];
    if probe == [] && !(forall i :: 0 <= i < |t| && i != c ==> !Holds(t[i], UNKNOWN)) {
      var i :| 0 <= i < |t| && i != c && Holds(t[i], UNKNOWN);
      assert t'[i].key == t'[c].key;
    } else if probe != [] {
      OnlyChosenHolds(t, probe);
    }
  }

  lemma {:induction false} Absent<R>(t: seq<Slot<R>>, key: Key, blank: R)
    ensures !Resident(t, key) ==> RecordFor(t, key, blank) == blank
  {
    var i := FirstHolding(t, key);
    assert i < |t| ==> Holds(t[i], key);
  }

  /** A lookup of another key keeps a key's record or loses it altogether. */
  lemma {:induction false} VisitOther<R>(t: seq<Slot<R>>, probe: Key, now: nat, record: R, key: Key, blank: R)
    requires t != [] && Unique(t) && !Resident(t, []) && probe != [] && probe != key
    ensures var t' := Visit(t, probe, now, record);
            && Unique(t') && !Resident(t', [])
            && (if Resident(t', key) then RecordFor(t', key, blank) == RecordFor(t, key, blank) && Resident(t, key)
                else RecordFor(t', key, blank) == blank)
  {
    var t' := Visit(t, probe, now, record);
    VisitKeepsUnique(t, probe, now, record);
    var c := Choose(t, probe);
    var i := FirstHolding(t', key);
    if i < |t| {
      assert Holds(t'[i], key) && i != c && t[i] == t'[i];
      var j := FirstHolding(t, key);
      assert i == j;
    } else {
      assert forall k :: 0 <= k < |t'| ==> !Holds(t'[k], key);
    }
  }

  lemma {:induction false} VisitSelf<R>(t: seq<Slot<R>>, key: Key, now: nat, record: R, blank: R)
    requires t != [] && Unique(t) && !Resident(t, []) && key != []
    ensures var t' := Visit(t, key, now, record);
            Unique(t') && !Resident(t', []) && Resident(t', key) && RecordFor(t', key, blank) == record
  {
    VisitKeepsUnique(t, key, now, record);
    VisitThenFind(t, key, now, record, blank);
    assert Holds(Visit(t, key, now, record)[Choose(t, key)], key);
  }

  // ----- Runs of lookups -----

  datatype Lookup<R> = Lookup(key: Key, time: nat, record: R)

  function Blank<R>(size: nat): seq<Slot<R>> {
    seq(size, _ => Empty)
  }

  function AfterLookups<R>(size: nat, log: seq<Lookup<R>>): (t: seq<Slot<R>>)
    requires size > 0
    ensures |t| == size
  {
    if log == [] then Blank(size)
    else
      var last := log[|log| - 1];
      Visit(AfterLookups(size, log[..|log| - 1]), last.key, last.time, last.record)
  }

  /** Position of the last lookup of `key`; the length of the log when there is none. */
  function LastIndex<R>(log: seq<Lookup<R>>, key: Key): (i: nat)
    ensures i <= |log| && (i < |log| ==> log[i].key == key)
    ensures i == |log| ==> forall j :: 0 <= j < |log| ==> log[j].key != key
    ensures i < |log| ==> forall j :: i < j < |log| ==> log[j].key != key
  {
    if log == [] then 0
    else if log[|log| - 1].key == key then |log| - 1
    else
      var i := LastIndex(log[..|log| - 1], key);
      if i < |log| - 1 then i else |log|
  }

  predicate Monotone<R>(log: seq<Lookup<R>>) {
    forall i, j :: 0 <= i < j < |log| ==> log[i].time <= log[j].time
  }

  predicate Named<R>(log: seq<Lookup<R>>) {
    forall i :: 0 <= i < |log| ==> log[i].key != []
  }

  /** Keys other than `key` that were looked up at or after the time of `key`'s last lookup. */
  ghost function OthersSince<R>(log: seq<Lookup<R>>, key: Key): set<Key> {
    set i | 0 <= i < |log| && log[i].key != key && LastIndex(log, key) < |log| && log[i].time >= log[LastIndex(log, key)].time
      :: log[i].key
  }

  /** Each used slot carries the time and the record of its key's last lookup. */
  ghost predicate Tracks<R>(t: seq<Slot<R>>, log: seq<Lookup<R>>) {
    forall i :: 0 <= i < |t| && t[i].Used? ==>
      var k := LastIndex(log, t[i].key);
      k < |log| && t[i] == Used(log[k].key, log[k].time, log[k].record)
  }

  ghost predicate Remembers<R>(t: seq<Slot<R>>, log: seq<Lookup<R>>) {
    forall i :: 0 <= i < |log| ==> Resident(t, log[i].key) || |OthersSince(log, log[i].key)| >= |t|
  }

  /** A set that holds `extra` and the keys of the first `m` slots but `c` has that many elements. */
  lemma {:induction false} Pigeonhole<R>(t: seq<Slot<R>>, c: nat, m: nat, keys: set<Key>, extra: Key)
    requires m <= |t| && Full(t) && Unique(t) && extra in keys
    requires forall j :: 0 <= j < m && j != c ==> t[j].key in keys && t[j].key != extra
    ensures |keys| >= if c < m then m else m + 1
  {
    if m > 0 {
      if m - 1 == c {
        Pigeonhole(t, c, m - 1, keys, extra);
      } else {
        Pigeonhole(t, c, m - 1, keys - {t[m - 1].key}, extra);
      }
    }
  }

  lemma {:induction false} LastIndexAfter<R>(log: seq<Lookup<R>>, key: Key)
    requires log != [] && log[|log| - 1].key != key
    ensures var front := log[..|log| - 1];
            LastIndex(log, key) == if LastIndex(front, key) < |front| then LastIndex(front, key) else |log|
  {
  }

  lemma {:induction false} VisitTracks<R>(t: seq<Slot<R>>, log: seq<Lookup<R>>)
    requires t != [] && log != [] && Unique(t) && Named(log)
    requires Tracks(t, log[..|log| - 1])
    ensures var last := log[|log| - 1];
            Tracks(Visit(t, last.key, last.time, last.record), log)
  {
    var last := log[|log| - 1];
    var c := Choose(t, last.key);
    var t' := Visit(t, last.key, last.time, last.record);
    OnlyChosenHolds(t, last.key);
    forall i | 0 <= i < |t'| && t'[i].Used?
      ensures var k := LastIndex(log, t'[i].key);
              k < |log| && t'[i] == Used(log[k].key, log[k].time, log[k].record)
    {
      if i != c {
        assert t'[i] == t[i];
        LastIndexAfter(log, t[i].key);
      }
    }
  }

  lemma {:induction false} OvertakenBy<R>(t: seq<Slot<R>>, log: seq<Lookup<R>>, c: nat, j: nat)
    requires log != [] && Unique(t) && Full(t) && Tracks(t, log[..|log| - 1])
    requires c < |t| && j < |t| && j != c && t[c].lastSeen <= t[j].lastSeen
    requires t[c].key != log[|log| - 1].key && t[j].key != log[|log| - 1].key
    ensures t[j].key in OthersSince(log, t[c].key)
  {
    LastIndexAfter(log, t[c].key);
    LastIndexAfter(log, t[j].key);
    var i := LastIndex(log, t[j].key);
    assert log[i].key == t[j].key && log[i].time >= log[LastIndex(log, t[c].key)].time;
  }

  lemma {:induction false} OvertakenByLast<R>(t: seq<Slot<R>>, log: seq<Lookup<R>>, c: nat)
    requires log != [] && Monotone(log) && Tracks(t, log[..|log| - 1])
    requires c < |t| && t[c].Used? && t[c].key != log[|log| - 1].key
    ensures log[|log| - 1].key in OthersSince(log, t[c].key)
  {
    LastIndexAfter(log, t[c].key);
    var i := |log| - 1;
    assert log[i].time >= log[LastIndex(log, t[c].key)].time;
  }

  /** Whoever is evicted has been overtaken by as many other keys as the table has slots. */
  lemma {:induction false} EvictionNeedsManyOthers<R>(t: seq<Slot<R>>, log: seq<Lookup<R>>, c: nat)
    requires log != [] && Unique(t) && Full(t) && Monotone(log)
    requires Tracks(t, log[..|log| - 1])
    requires c < |t| && c == Oldest(t) && FirstHolding(t, log[|log| - 1].key) == |t|
    ensures |OthersSince(log, t[c].key)| >= |t|
  {
    var last := log[|log| - 1];
    forall j | 0 <= j < |t| ensures t[j].key != last.key {
      assert !Holds(t[j], last.key);
    }
    hide Tracks;
    hide OthersSince;
    OvertakenByLast(t, log, c);
    forall j | 0 <= j < |t| && j != c ensures t[j].key in OthersSince(log, t[c].key) {
      OvertakenBy(t, log, c, j);
    }
    Pigeonhole(t, c, |t|, OthersSince(log, t[c].key), last.key);
  }

  lemma {:induction false} Subset<T>(a: set<T>, b: set<T>)
    requires a <= b
    ensures |a| <= |b|
  {
    if a != {} {
      var x :| x in a;
      Subset(a - {x}, b - {x});
    }
  }

  lemma {:induction false} OthersOnlyGrow<R>(log: seq<Lookup<R>>, key: Key)
    requires log != [] && log[|log| - 1].key != key
    ensures |OthersSince(log[..|log| - 1], key)| <= |OthersSince(log, key)|
  {
    var front := log[..|log| - 1];
    LastIndexAfter(log, key);
    forall k | k in OthersSince(front, key) ensures k in OthersSince(log, key) {
      var i :| 0 <= i < |front| && front[i].key == k && k != key && front[i].time >= front[LastIndex(front, key)].time;
      assert log[i] == front[i];
    }
    Subset(OthersSince(front, key), OthersSince(log, key));
  }

  lemma {:induction false} VisitRemembers<R>(t: seq<Slot<R>>, log: seq<Lookup<R>>)
    requires t != [] && log != [] && Unique(t) && Named(log) && Monotone(log)
    requires Tracks(t, log[..|log| - 1]) && Remembers(t, log[..|log| - 1])
    ensures var last := log[|log| - 1];
            Remembers(Visit(t, last.key, last.time, last.record), log)
  {
    var front := log[..|log| - 1];
    var last := log[|log| - 1];
    var c := Choose(t, last.key);
    var t' := Visit(t, last.key, last.time, last.record);
    forall i | 0 <= i < |log| ensures Resident(t', log[i].key) || |OthersSince(log, log[i].key)| >= |t| {
      var k := log[i].key;
      if k == last.key {
        assert Holds(t'[c], k);
      } else {
        assert front[i] == log[i];
        if Resident(t, k) {
          var j :| 0 <= j < |t| && Holds(t[j], k);
          if j == c {
            EvictionNeedsManyOthers(t, log, c);
          } else {
            assert Holds(t'[j], k);
          }
        } else {
          OthersOnlyGrow(log, k);
        }
      }
    }
  }

  /**
   * Over every run of lookups under non-decreasing time: resident keys are unique, each
   * carries the data of its own last lookup, and a key that was looked up is still
   * resident unless at least as many distinct other keys as the table has slots were
   * looked up at or after its last lookup time.
   */
  lemma {:induction false} TableForgetsOnlyUnderPressure<R>(size: nat, log: seq<Lookup<R>>)
    requires size > 0 && Named(log) && Monotone(log)
    ensures var t := AfterLookups(size, log);
            Unique(t) && !Resident(t, []) && Tracks(t, log) && Remembers(t, log)
  {
    if log != [] {
      var front := log[..|log| - 1];
      TableForgetsOnlyUnderPressure(size, front);
      var t := AfterLookups(size, front);
      var last := log[|log| - 1];
      VisitKeepsUnique(t, last.key, last.time, last.record);
      VisitTracks(t, log);
      VisitRemembers(t, log);
    }
  }
}
